/** The fixed texts the bot sends (index.js:17-41, 62, 70, 118, 127, 132).
    Each text addressed to a user carries the user's first name between
    asterisks, `*name*`, at a fixed position. Replies sent with the Markdown
    parse mode show that name in bold; the member greeting has no parse mode,
    so its asterisks are shown as they are. */
module Replies {

  /** `lines.join(sep)` of JavaScript's `Array.prototype.join`. */
  function Join(lines: seq<string>, sep: string): (r: string)
    ensures lines == [] ==> r == ""
    ensures |lines| == 1 ==> r == lines[0]
    ensures |lines| >= 1 ==> lines[0] <= r
  {
    if lines == [] then ""
    else if |lines| == 1 then lines[0]
    else lines[0] + sep + Join(lines[1..], sep)
  }

  /** Joining two non-empty runs of lines puts one separator between them;
      with `Join([x]) == x` this fixes every join of a non-empty list. */
  lemma {:induction false} JoinConcat(a: seq<string>, b: seq<string>, sep: string)
    requires a != [] && b != []
    ensures Join(a + b, sep) == Join(a, sep) + sep + Join(b, sep)
    decreases |a|
  {
    var ab := a + b;
    assert ab[0] == a[0] && |ab| >= 2;
    assert Join(ab, sep) == a[0] + sep + Join(ab[1..], sep);
    if |a| == 1 {
      assert ab[1..] == b;
      assert Join(a, sep) == a[0];
    } else {
      assert ab[1..] == a[1..] + b;
      calc {
        Join(ab, sep);
      ==
        a[0] + sep + Join(a[1..] + b, sep);
      == { JoinConcat(a[1..], b, sep); }
        a[0] + sep + (Join(a[1..], sep) + sep + Join(b, sep));
      ==
        (a[0] + sep + Join(a[1..], sep)) + sep + Join(b, sep);
      ==
        Join(a, sep) + sep + Join(b, sep);
      }
    }
  }

  /** A join ends with its last line. */
  lemma {:induction false} JoinEndsWith(lines: seq<string>, sep: string)
    requires lines != []
    ensures |lines[|lines| - 1]| <= |Join(lines, sep)|
    ensures Join(lines, sep)[|Join(lines, sep)| - |lines[|lines| - 1]|..] == lines[|lines| - 1]
    decreases |lines|
  {
    if |lines| > 1 {
      var last := lines[|lines| - 1];
      JoinEndsWith(lines[1..], sep);
      assert lines[1..][|lines[1..]| - 1] == last;
      var j := Join(lines[1..], sep);
      var r := lines[0] + sep + j;
      assert r[|r| - |last|..] == j[|j| - |last|..];
    }
  }

  /** `*name*` occurs in `text` starting at index `at`. */
  predicate StarredAt(text: string, name: string, at: nat) {
    at + |name| + 2 <= |text| && text[at..at + |name| + 2] == "*" + name + "*"
  }

  /** Writing `pre + "*" + name + "*" + post` puts `*name*` right after `pre`. */
  lemma StarredAfter(pre: string, name: string, post: string)
    ensures var r := pre + "*" + name + "*" + post;
      && r[..|pre|] == pre
      && StarredAt(r, name, |pre|)
  {
    var r := pre + "*" + name + "*" + post;
    assert r == pre + ("*" + name + "*") + post;
    assert r[|pre|..|pre| + |name| + 2] == "*" + name + "*";
  }

  /** Joining a greeting line with two more lines. */
  lemma JoinGreeting(pre: string, name: string, l2: string, l3: string)
    ensures Join([pre + "*" + name + "*" + "!", l2, l3], "\n")
         == pre + "*" + name + "*" + ("!" + "\n" + l2 + "\n" + l3)
  {
    var first := pre + "*" + name + "*" + "!";
    assert [first, l2, l3][1..] == [l2, l3];
    assert [l2, l3][1..] == [l3];
  }

  const WelcomeGreeting: string := "Bem-vindo(a) "

  const WelcomeLine2: string := "Eu sou o *Clash Lumni*, seu assistente pessoal para tudo sobre Clash of Clans!"

  const WelcomeLine3: string := "Digite */comandos* para ver as opções de comandos."

  /** What follows the name in the welcome message. */
  const WelcomeTail: string := "!" + "\n" + WelcomeLine2 + "\n" + WelcomeLine3

  /** `welcomeMessage(firstName)` (index.js:17-21): three lines joined by a
      newline, the first greeting the user by name. */
  function WelcomeMessage(firstName: string): (r: string)
    ensures StarredAt(r, firstName, |WelcomeGreeting|)
    ensures r[..|WelcomeGreeting|] == WelcomeGreeting
    ensures r[|WelcomeGreeting| + |firstName| + 2..] == WelcomeTail
  {
    var first := WelcomeGreeting + "*" + firstName + "*" + "!";
    var r := Join([first, WelcomeLine2, WelcomeLine3], "\n");
    JoinGreeting(WelcomeGreeting, firstName, WelcomeLine2, WelcomeLine3);
    StarredAfter(WelcomeGreeting, firstName, WelcomeTail);
    r
  }

  /** The first line of the menu, a bold title. */
  const MenuHeading: string := "*### Comandos ###*\n"

  /** The last line of the menu, on the tutorial command. */
  const MenuLastLine: string := "*/tutorial* \nImagem tutorial para conseguir a Tag, que serão utilizadas nos comandos."

  /** The lines of the `menu` constant (index.js:33-41). */
  const MenuLines: seq<string> := [
    MenuHeading,
    "*/comandos* \nTodos os comandos disponíveis podem ser encontrados aqui.\n",
    "*/jogador <tag do jogador>* \nObtenha informações detalhadas sobre o perfil de um jogador.\n",
    "*/clan <tag do clã>* \nObtenha informações gerais sobre um clã.\n",
    "*/guerra* <tag do clã> \nObtenha informações sobre a guerra atual de um clã.\n",
    "*/bilhete* \nObtenha informações sobre o bilhete dourado atual\n",
    MenuLastLine
  ]

  /** The `menu` constant (index.js:33-41). */
  const Menu: string := Join(MenuLines, "\n")

  const WarningSign: string := "⚠️ "

  const WarningBody: string := " - Não é permitido enviar imagens, vídeos (exceto notas de vídeo), áudios (exceto mensagens de voz), links, localizações, carteiras, arquivos, enquetes ou contatos."

  /** The warning sent after a forbidden message is deleted (index.js:62). */
  function ContentWarning(firstName: string): (r: string)
    ensures StarredAt(r, firstName, |WarningSign|)
    ensures r[..|WarningSign|] == WarningSign
    ensures r[|WarningSign| + |firstName| + 2..] == WarningBody
  {
    StarredAfter(WarningSign, firstName, WarningBody);
    WarningSign + "*" + firstName + "*" + WarningBody
  }

  const GroupGreeting: string := "Bem-vindo(a) ao grupo, "

  const GroupBody: string := "! Digite /comandos para ver as opções."

  /** The greeting for a member who joined the group (index.js:70). It is
      sent without a parse mode, so `*name*` reaches the user literally. */
  function MemberWelcome(firstName: string): (r: string)
    ensures StarredAt(r, firstName, |GroupGreeting|)
    ensures r[..|GroupGreeting|] == GroupGreeting
    ensures r[|GroupGreeting| + |firstName| + 2..] == GroupBody
  {
    StarredAfter(GroupGreeting, firstName, GroupBody);
    GroupGreeting + "*" + firstName + "*" + GroupBody
  }

  const TutorialBody: string := ", aqui está o tutorial para encontrar sua Tag! Depois, use */comandos* para explorar as opções."

  /** The caption of the tutorial picture (index.js:118). */
  function TutorialCaption(firstName: string): (r: string)
    ensures StarredAt(r, firstName, 0)
    ensures r[|firstName| + 2..] == TutorialBody
  {
    StarredAfter("", firstName, TutorialBody);
    assert "" + "*" + firstName + "*" + TutorialBody == "*" + firstName + "*" + TutorialBody;
    "*" + firstName + "*" + TutorialBody
  }

  /** The reply to an unrecognised command (index.js:127). */
  const UnknownCommand: string := WarningSign + "Comando" + " desconhecido. Use */comandos* para ver as opções disponíveis."

  /** The reply after any step of the handler failed (index.js:132). */
  const Apology: string := "❌" + " Ocorreu um erro ao processar seu comando. Tente novamente mais tarde."

  /** The menu opens with its bold title line. */
  lemma MenuStart()
    ensures "*### Comandos ###*" + "\n" <= Menu
    ensures |Menu| > 13 && Menu[0] == '*'
  {
    assert MenuHeading <= Menu;
    assert MenuHeading[0] == '*';
  }

  lemma UnknownStart()
    ensures |UnknownCommand| > 13 && UnknownCommand[0] == '⚠' && UnknownCommand[3] == 'C'
  {
    assert |WarningSign| == 3;
  }

  lemma ApologyStart()
    ensures |Apology| > 13 && Apology[0] == '❌'
  {
  }

  /** Which text a reply carries, and whom it addresses. */
  datatype ReplyText =
    | Welcome(firstName: string)
    | CommandMenu
    | ForbiddenContent(firstName: string)
    | GroupWelcome(firstName: string)
    | Tutorial(firstName: string)
    | Unknown
    | ErrorApology

  /** The characters of a reply. */
  function Render(t: ReplyText): string {
    match t
    case Welcome(n) => WelcomeMessage(n)
    case CommandMenu => Menu
    case ForbiddenContent(n) => ContentWarning(n)
    case GroupWelcome(n) => MemberWelcome(n)
    case Tutorial(n) => TutorialCaption(n)
    case Unknown => UnknownCommand
    case ErrorApology => Apology
  }

  predicate SameKind(a: ReplyText, b: ReplyText) {
    || (a.Welcome? && b.Welcome?) || (a.CommandMenu? && b.CommandMenu?)
    || (a.ForbiddenContent? && b.ForbiddenContent?) || (a.GroupWelcome? && b.GroupWelcome?)
    || (a.Tutorial? && b.Tutorial?) || (a.Unknown? && b.Unknown?) || (a.ErrorApology? && b.ErrorApology?)
  }

  /** Two texts with a starred name at the same place and the same text
      after it are equal only when the names are. */
  lemma {:induction false} SameFrameSameName(r: string, a: string, b: string, at: nat, tail: string)
    requires StarredAt(r, a, at) && StarredAt(r, b, at)
    requires r[at + |a| + 2..] == tail && r[at + |b| + 2..] == tail
    ensures a == b
  {
    assert |a| == |b|;
    assert a == r[at..at + |a| + 2][1..|a| + 1];
    assert b == r[at..at + |b| + 2][1..|b| + 1];
  }

  /** The menu ends "...nos comandos." and the tutorial caption "...as
      opções.": the third character from the end tells them apart. */
  lemma MenuEnd()
    ensures |Menu| >= 3 && Menu[|Menu| - 3] == 'o'
  {
    JoinEndsWith(MenuLines, "\n");
    assert MenuLines[|MenuLines| - 1] == MenuLastLine;
    assert MenuLastLine[|MenuLastLine| - 3] == 'o';
  }

  lemma CaptionEnd(n: string)
    ensures |TutorialCaption(n)| >= 3 && TutorialCaption(n)[|TutorialCaption(n)| - 3] == 'e'
  {
    var r := TutorialCaption(n);
    var t := r[|n| + 2..];
    assert t == TutorialBody;
    assert TutorialBody[|TutorialBody| - 3] == 'e';
    assert r[|r| - 3] == t[|t| - 3];
  }

  /** Different replies read differently, so a user can tell which one was
      sent and to whom. */
  lemma {:induction false} RenderDistinct(a: ReplyText, b: ReplyText)
    requires a != b
    ensures Render(a) != Render(b)
  {
    if a.Tutorial? && b.CommandMenu? {
      MenuEnd();
      CaptionEnd(a.firstName);
    } else if a.CommandMenu? && b.Tutorial? {
      MenuEnd();
      CaptionEnd(b.firstName);
    } else if SameKind(a, b) {
      SameKindDistinct(a, b);
    } else {
      RenderSignature(a);
      RenderSignature(b);
    }
  }

  lemma {:induction false} SameKindDistinct(a: ReplyText, b: ReplyText)
    requires a != b && SameKind(a, b)
    ensures Render(a) != Render(b)
  {
    match a
    case Welcome(n) => WelcomeInjective(n, b.firstName);
    case ForbiddenContent(n) => WarningInjective(n, b.firstName);
    case GroupWelcome(n) => GroupInjective(n, b.firstName);
    case Tutorial(n) => TutorialInjective(n, b.firstName);
  }

  lemma WelcomeInjective(a: string, b: string)
    ensures WelcomeMessage(a) == WelcomeMessage(b) ==> a == b
  {
    if WelcomeMessage(a) == WelcomeMessage(b) {
      SameFrameSameName(WelcomeMessage(a), a, b, |WelcomeGreeting|, WelcomeTail);
    }
  }

  lemma WarningInjective(a: string, b: string)
    ensures ContentWarning(a) == ContentWarning(b) ==> a == b
  {
    if ContentWarning(a) == ContentWarning(b) {
      SameFrameSameName(ContentWarning(a), a, b, |WarningSign|, WarningBody);
    }
  }

  lemma GroupInjective(a: string, b: string)
    ensures MemberWelcome(a) == MemberWelcome(b) ==> a == b
  {
    if MemberWelcome(a) == MemberWelcome(b) {
      SameFrameSameName(MemberWelcome(a), a, b, |GroupGreeting|, GroupBody);
    }
  }

  lemma TutorialInjective(a: string, b: string)
    ensures TutorialCaption(a) == TutorialCaption(b) ==> a == b
  {
    if TutorialCaption(a) == TutorialCaption(b) {
      SameFrameSameName(TutorialCaption(a), a, b, 0, TutorialBody);
    }
  }

  /** The first character of each reply, and the character that follows the
      greeting or the warning sign. */
  lemma RenderSignature(t: ReplyText)
    ensures |Render(t)| > 13
    ensures t.Welcome? ==> Render(t)[0] == 'B' && Render(t)[13] == '*'
    ensures t.GroupWelcome? ==> Render(t)[0] == 'B' && Render(t)[13] == 'a'
    ensures t.ForbiddenContent? ==> Render(t)[0] == '⚠' && Render(t)[3] == '*'
    ensures t.Unknown? ==> Render(t)[0] == '⚠' && Render(t)[3] == 'C'
    ensures t.CommandMenu? ==> Render(t)[0] == '*'
    ensures t.Tutorial? ==> Render(t)[0] == '*'
    ensures t.ErrorApology? ==> Render(t)[0] == '❌'
  {
    match t
    case Welcome(n) => WelcomeStart(n);
    case GroupWelcome(n) => GroupStart(n);
    case ForbiddenContent(n) => WarningStart(n);
    case CommandMenu => MenuStart();
    case Unknown => UnknownStart();
    case ErrorApology => ApologyStart();
    case Tutorial(n) => TutorialStart(n);
  }

  lemma WelcomeStart(n: string)
    ensures |WelcomeMessage(n)| > 13 && WelcomeMessage(n)[0] == 'B' && WelcomeMessage(n)[13] == '*'
  {
    var r := WelcomeMessage(n);
    assert r[0] == r[..|WelcomeGreeting|][0] == WelcomeGreeting[0];
  }

  lemma GroupStart(n: string)
    ensures |MemberWelcome(n)| > 13 && MemberWelcome(n)[0] == 'B' && MemberWelcome(n)[13] == 'a'
  {
    var r := MemberWelcome(n);
    assert r[0] == r[..|GroupGreeting|][0] == GroupGreeting[0];
    assert r[13] == r[..|GroupGreeting|][13] == GroupGreeting[13];
  }

  lemma WarningStart(n: string)
    ensures |ContentWarning(n)| > 13 && ContentWarning(n)[0] == '⚠' && ContentWarning(n)[3] == '*'
  {
    var r := ContentWarning(n);
    assert r[0] == r[..|WarningSign|][0] == WarningSign[0];
    assert |r[|WarningSign| + |n| + 2..]| == |WarningBody| > 13;
  }

  lemma TutorialStart(n: string)
    ensures |TutorialCaption(n)| > 13 && TutorialCaption(n)[0] == '*'
  {
    var r := TutorialCaption(n);
    assert |r[|n| + 2..]| == |TutorialBody| > 13;
  }
}
