/** The command normalisation of the message handler (index.js:80-81):
    `messageText = text?.trim().replace(/@[\w\d_]+/g, "").trim()` and
    `command = messageText ? messageText.split(" ")[0].toLowerCase() : ''`. */
module Commands {
  import opened Wrappers
  import opened Text

  /** `messageText`. An absent text and an empty one are both falsy in every
      later use, so both are represented by the empty string. */
  function MessageText(text: Option<string>): string {
    match text
    case None => ""
    case Some(t) => Trim(StripMentions(Trim(t)))
  }

  /** `command`: the lower-cased first token of `messageText`, or `''`. */
  function CommandOf(messageText: string): string {
    if messageText == "" then "" else ToLower(FirstToken(messageText))
  }

  /** The command of a message's text. */
  function CommandOfText(text: Option<string>): string {
    CommandOf(MessageText(text))
  }

  // ---------------------------------------------------------------------
  // What normalisation guarantees

  /** The normalised text has no white space at its ends and no mention. */
  lemma MessageTextClean(text: Option<string>)
    ensures Trimmed(MessageText(text))
    ensures NoMention(MessageText(text))
  {
    if text.Some? {
      TrimKeepsNoMention(StripMentions(Trim(text.value)));
    }
  }

  /** The command holds no space, no mention and no upper-case ASCII letter,
      and it is `''` exactly when the text is absent or normalises to `''`. */
  lemma CommandShape(text: Option<string>)
    ensures ' ' !in CommandOfText(text)
    ensures NoMention(CommandOfText(text))
    ensures forall i :: 0 <= i < |CommandOfText(text)| ==> !IsUpper(CommandOfText(text)[i])
    ensures CommandOfText(text) == "" <==> (text == None || MessageText(text) == "")
  {
    var mt := MessageText(text);
    MessageTextClean(text);
    if mt != "" {
      var tok := FirstToken(mt);
      NoMentionSlice(mt, 0, |tok|);
      assert mt[0..|tok|] == tok;
      LowerKeepsNoMention(tok);
      assert mt[0] != ' ';
      assert |tok| > 0;
    }
  }

  /** A message whose text is one command keyword, an optional mention of the
      bot (`@` and a run of word characters) and an optional argument part
      starting with a space yields the lower-cased keyword as its command. */
  lemma {:induction false} KeywordWithMention(keyword: string, mention: string, args: string)
    requires |keyword| > 0 && keyword[0] == '/'
    requires forall i :: 0 <= i < |keyword| ==> keyword[i] != ' ' && keyword[i] != '@' && !IsTrimmable(keyword[i])
    requires mention == [] || (|mention| >= 2 && mention[0] == '@' && forall i :: 1 <= i < |mention| ==> IsWordChar(mention[i]))
    requires args == [] || args[0] == ' '
    ensures MessageText(Some(keyword + mention + args)) != ""
    ensures MessageText(Some(keyword + mention + args))[0] == '/'
    ensures CommandOfText(Some(keyword + mention + args)) == ToLower(keyword)
  {
    var text := keyword + mention + args;
    var rest := NormaliseCommand(keyword, mention, args);
    assert (keyword + rest)[0] == '/';
    assert ' ' !in keyword by {
      forall i | 0 <= i < |keyword| ensures keyword[i] != ' ' { }
    }
    FirstTokenOfWord(keyword, rest);
    assert CommandOfText(Some(text)) == ToLower(FirstToken(keyword + rest));
  }

  /** The normalised text of such a message is the keyword followed by the
      trimmed argument part. */
  lemma NormaliseCommand(keyword: string, mention: string, args: string) returns (rest: string)
    requires |keyword| > 0 && keyword[0] == '/'
    requires forall i :: 0 <= i < |keyword| ==> keyword[i] != ' ' && keyword[i] != '@' && !IsTrimmable(keyword[i])
    requires mention == [] || (|mention| >= 2 && mention[0] == '@' && forall i :: 1 <= i < |mention| ==> IsWordChar(mention[i]))
    requires args == [] || args[0] == ' '
    ensures MessageText(Some(keyword + mention + args)) == keyword + rest
    ensures rest == [] || rest[0] == ' '
  {
    assert !IsTrimmable(keyword[0]) && !IsTrimmable(keyword[|keyword| - 1]);
    assert mention != [] ==> IsWordChar(mention[|mention| - 1]);
    var a1 := TrimEnd(args);
    TrimEndAfterSpacePrefix(args);
    var a2 := StripOfCommand(keyword, mention, a1);
    rest := TrimEnd(a2);
    calc {
      MessageText(Some(keyword + mention + args));
    ==
      Trim(StripMentions(Trim(keyword + mention + args)));
    == { FirstTrimOfCommand(keyword, mention, args); }
      Trim(StripMentions(keyword + mention + a1));
    ==
      Trim(keyword + a2);
    == { TrimAfterKeyword(keyword, a2); }
      keyword + rest;
    }
    TrimEndAfterSpacePrefix(a2);
  }

  lemma TrimAfterKeyword(keyword: string, b: string)
    requires keyword != [] && !IsTrimmable(keyword[0]) && !IsTrimmable(keyword[|keyword| - 1])
    ensures Trim(keyword + b) == keyword + TrimEnd(b)
  {
    var s := keyword + b;
    assert s[0] == keyword[0];
    TrimStartKeeps(s);
    TrimEndAfter(keyword, b);
  }

  lemma FirstTrimOfCommand(keyword: string, mention: string, args: string)
    requires |keyword| > 0 && keyword[0] == '/'
    requires !IsTrimmable(keyword[|keyword| - 1])
    requires mention == [] || (|mention| >= 2 && IsWordChar(mention[|mention| - 1]))
    ensures Trim(keyword + mention + args) == keyword + mention + TrimEnd(args)
  {
    var text := keyword + mention + args;
    TrimStartKeeps(text);
    var km := keyword + mention;
    assert text == km + args;
    assert km[|km| - 1] == if mention == [] then keyword[|keyword| - 1] else mention[|mention| - 1];
    TrimEndAfter(km, args);
  }

  lemma StripOfCommand(keyword: string, mention: string, a1: string) returns (a2: string)
    requires forall i :: 0 <= i < |keyword| ==> keyword[i] != '@'
    requires mention == [] || (|mention| >= 2 && mention[0] == '@' && forall i :: 1 <= i < |mention| ==> IsWordChar(mention[i]))
    requires a1 == [] || a1[0] == ' '
    ensures a2 == StripMentions(a1)
    ensures StripMentions(keyword + mention + a1) == keyword + a2
    ensures a2 == [] || a2[0] == ' '
  {
    a2 := StripMentions(a1);
    if a1 != [] {
      StripKeep(a1);
    }
    var rest := mention + a1;
    assert keyword + mention + a1 == keyword + rest;
    StripAfterNoAt(keyword, rest);
    assert StripMentions(rest) == a2 by {
      if mention != [] {
        StripLeadingMention(mention, a1);
      } else {
        assert rest == a1;
      }
    }
  }

  /** Lower-casing the text first does not change the command: command
      matching is case-insensitive. */
  lemma {:induction false} CommandCaseInsensitive(t: string)
    ensures CommandOfText(Some(ToLower(t))) == CommandOfText(Some(t))
  {
    TrimLower(t);
    StripLower(Trim(t));
    TrimLower(StripMentions(Trim(t)));
    var mt := MessageText(Some(t));
    assert MessageText(Some(ToLower(t))) == ToLower(mt);
    if mt != "" {
      FirstTokenLower(mt);
      LowerTwice(FirstToken(mt));
    }
  }

  // ---------------------------------------------------------------------
  // Helpers

  lemma NoMentionSlice(s: string, i: nat, j: nat)
    requires NoMention(s) && i <= j <= |s|
    ensures NoMention(s[i..j])
  {
    var t := s[i..j];
    forall k | 0 <= k < |t| - 1
      ensures !(t[k] == '@' && IsWordChar(t[k + 1]))
    {
      assert t[k] == s[i + k] && t[k + 1] == s[i + k + 1];
    }
  }

  lemma TrimKeepsNoMention(s: string)
    requires NoMention(s)
    ensures NoMention(Trim(s))
  {
    var t1 := TrimStart(s);
    NoMentionSlice(s, |s| - |t1|, |s|);
    var t := TrimEnd(t1);
    NoMentionSlice(t1, 0, |t|);
    assert t1[0..|t|] == t;
  }

  lemma LowerKeepsNoMention(s: string)
    requires NoMention(s)
    ensures NoMention(ToLower(s))
  {
    var r := ToLower(s);
    forall k | 0 <= k < |r| - 1
      ensures !(r[k] == '@' && IsWordChar(r[k + 1]))
    {
      assert r[k] == LowerChar(s[k]) && r[k + 1] == LowerChar(s[k + 1]);
    }
  }

  lemma TrimStartKeeps(s: string)
    requires s != [] && !IsTrimmable(s[0])
    ensures TrimStart(s) == s
  {
  }

  /** Trimming the end of `a + b` only touches `b` when `a` ends in a
      non-white-space character. */
  lemma {:induction false} TrimEndAfter(a: string, b: string)
    requires a != [] && !IsTrimmable(a[|a| - 1])
    ensures TrimEnd(a + b) == a + TrimEnd(b)
    decreases |b|
  {
    if |b| > 0 && IsTrimmable(b[|b| - 1]) {
      assert (a + b)[..|a + b| - 1] == a + b[..|b| - 1];
      TrimEndAfter(a, b[..|b| - 1]);
    } else {
      assert (a + b)[|a + b| - 1] == if b == [] then a[|a| - 1] else b[|b| - 1];
    }
  }

  lemma TrimEndAfterSpacePrefix(b: string)
    requires b == [] || b[0] == ' '
    ensures TrimEnd(b) == [] || TrimEnd(b)[0] == ' '
  {
  }

  /** A prefix without `@` passes through mention removal unchanged. */
  lemma {:induction false} StripAfterNoAt(a: string, b: string)
    requires forall i :: 0 <= i < |a| ==> a[i] != '@'
    ensures StripMentions(a + b) == a + StripMentions(b)
    decreases |a|
  {
    if a != [] {
      var ab := a + b;
      var r := StripMentions(b);
      assert ab[0] == a[0] && ab[1..] == a[1..] + b;
      assert a == [a[0]] + a[1..];
      calc {
        StripMentions(ab);
      == { StripKeep(ab); }
        [a[0]] + StripMentions(a[1..] + b);
      == { StripAfterNoAt(a[1..], b); }
        [a[0]] + (a[1..] + r);
      ==
        a + r;
      }
    } else {
      assert a + b == b;
    }
  }

  /** A first character that does not open a mention is kept. */
  lemma StripKeep(s: string)
    requires |s| > 0 && !(s[0] == '@' && |s| > 1 && IsWordChar(s[1]))
    ensures StripMentions(s) == [s[0]] + StripMentions(s[1..])
  {
  }

  /** A mention at the start is dropped with its whole word run. */
  lemma StripDrop(s: string)
    requires |s| > 1 && s[0] == '@' && IsWordChar(s[1])
    ensures StripMentions(s) == StripMentions(s[1 + WordRun(s[1..])..])
  {
  }

  /** A leading mention followed by a non-word character is removed whole. */
  lemma StripLeadingMention(mention: string, b: string)
    requires |mention| >= 2 && mention[0] == '@'
    requires forall i :: 1 <= i < |mention| ==> IsWordChar(mention[i])
    requires b == [] || !IsWordChar(b[0])
    ensures StripMentions(mention + b) == StripMentions(b)
  {
    var s := mention + b;
    assert s[1..] == mention[1..] + b;
    WordRunPrefix(mention[1..], b);
    assert s[1] == mention[1];
    StripDrop(s);
    assert s[1 + WordRun(s[1..])..] == b;
  }

  /** An `@` that no word character follows is not a mention: it is kept,
      whatever comes after it. */
  lemma StripLoneAt(b: string)
    requires b == [] || !IsWordChar(b[0])
    ensures StripMentions("@" + b) == "@" + StripMentions(b)
  {
    var s := "@" + b;
    assert s[1..] == b;
    StripKeep(s);
  }

  lemma {:induction false} WordRunPrefix(w: string, b: string)
    requires forall i :: 0 <= i < |w| ==> IsWordChar(w[i])
    requires b == [] || !IsWordChar(b[0])
    ensures WordRun(w + b) == |w|
    decreases |w|
  {
    if w != [] {
      assert (w + b)[1..] == w[1..] + b;
      WordRunPrefix(w[1..], b);
    } else {
      assert w + b == b;
    }
  }

  lemma {:induction false} FirstTokenOfWord(a: string, b: string)
    requires ' ' !in a
    requires b == [] || b[0] == ' '
    ensures FirstToken(a + b) == a
    decreases |a|
  {
    if a != [] {
      assert (a + b)[1..] == a[1..] + b;
      FirstTokenOfWord(a[1..], b);
    } else {
      assert a + b == b;
    }
  }

  lemma LowerTrimmable(c: char)
    ensures IsTrimmable(LowerChar(c)) == IsTrimmable(c)
    ensures IsWordChar(LowerChar(c)) == IsWordChar(c)
    ensures (LowerChar(c) == '@') == (c == '@')
    ensures (LowerChar(c) == ' ') == (c == ' ')
  {
  }

  lemma LowerTail(s: string, k: nat)
    requires k <= |s|
    ensures ToLower(s)[k..] == ToLower(s[k..])
    ensures ToLower(s)[..k] == ToLower(s[..k])
  {
  }

  lemma LowerTwice(s: string)
    ensures ToLower(ToLower(s)) == ToLower(s)
  {
  }

  lemma {:induction false} TrimStartLower(s: string)
    ensures TrimStart(ToLower(s)) == ToLower(TrimStart(s))
    decreases |s|
  {
    if s != [] {
      var l := ToLower(s);
      LowerAt(s, 0);
      LowerTrimmable(s[0]);
      if IsTrimmable(s[0]) {
        LowerTail(s, 1);
        assert TrimStart(l) == TrimStart(l[1..]);
        TrimStartLower(s[1..]);
      } else {
        assert TrimStart(l) == l && TrimStart(s) == s;
      }
    }
  }

  lemma {:induction false} TrimEndLower(s: string)
    ensures TrimEnd(ToLower(s)) == ToLower(TrimEnd(s))
    decreases |s|
  {
    if s != [] {
      var l := ToLower(s);
      LowerAt(s, |s| - 1);
      LowerTrimmable(s[|s| - 1]);
      if IsTrimmable(s[|s| - 1]) {
        LowerTail(s, |s| - 1);
        assert TrimEnd(l) == TrimEnd(l[..|l| - 1]);
        TrimEndLower(s[..|s| - 1]);
      } else {
        assert TrimEnd(l) == l && TrimEnd(s) == s;
      }
    }
  }

  lemma TrimLower(s: string)
    ensures Trim(ToLower(s)) == ToLower(Trim(s))
  {
    TrimStartLower(s);
    TrimEndLower(TrimStart(s));
  }

  lemma {:induction false} WordRunLower(s: string)
    ensures WordRun(ToLower(s)) == WordRun(s)
    decreases |s|
  {
    if s != [] {
      LowerTrimmable(s[0]);
      LowerTail(s, 1);
      WordRunLower(s[1..]);
    }
  }

  /** Mention removal and lower-casing commute. */
  lemma {:induction false} StripLower(s: string)
    ensures StripMentions(ToLower(s)) == ToLower(StripMentions(s))
    decreases |s|
  {
    if |s| > 0 {
      var l := ToLower(s);
      LowerAt(s, 0);
      LowerTrimmable(s[0]);
      if |s| > 1 {
        LowerAt(s, 1);
        LowerTrimmable(s[1]);
      }
      LowerTail(s, 1);
      if s[0] == '@' && |s| > 1 && IsWordChar(s[1]) {
        WordRunLower(s[1..]);
        var k := 1 + WordRun(s[1..]);
        LowerTail(s, k);
        calc {
          StripMentions(l);
        == { StripDrop(l); }
          StripMentions(l[k..]);
        == { StripLower(s[k..]); }
          ToLower(StripMentions(s[k..]));
        == { StripDrop(s); }
          ToLower(StripMentions(s));
        }
      } else {
        calc {
          StripMentions(l);
        == { StripKeep(l); }
          [l[0]] + StripMentions(l[1..]);
        == { StripLower(s[1..]); }
          [LowerChar(s[0])] + ToLower(StripMentions(s[1..]));
        == { LowerCons(s[0], StripMentions(s[1..])); }
          ToLower([s[0]] + StripMentions(s[1..]));
        == { StripKeep(s); }
          ToLower(StripMentions(s));
        }
      }
    }
  }

  lemma LowerAt(s: string, i: nat)
    requires i < |s|
    ensures ToLower(s)[i] == LowerChar(s[i])
  {
  }

  lemma LowerCons(c: char, s: string)
    ensures ToLower([c] + s) == [LowerChar(c)] + ToLower(s)
  {
    LowerAt([c] + s, 0);
    LowerTail([c] + s, 1);
    assert ([c] + s)[1..] == s;
  }

  lemma {:induction false} FirstTokenLower(s: string)
    ensures FirstToken(ToLower(s)) == ToLower(FirstToken(s))
    decreases |s|
  {
    if s != [] {
      LowerTrimmable(s[0]);
      LowerTail(s, 1);
      LowerAt(s, 0);
      FirstTokenLower(s[1..]);
      LowerCons(s[0], FirstToken(s[1..]));
    }
  }
}
