/** What the message handler promises, stated over `Plan` and `Execute`
    (and so, through `HandleMessage`'s postcondition, over the handler). */
module HandlerProperties {
  import opened Wrappers
  import opened Text
  import opened Commands
  import opened Replies
  import opened Handler

  // ---------------------------------------------------------------------
  // Content filter (index.js:50-64)

  /** A forbidden message is deleted and answered with the warning, and
      nothing else happens; the warning is sent for no other message. */
  lemma ContentFilter(m: Message)
    ensures ContentViolation(m) ==> Plan(m) == [DeleteMessage, Reply(Markdown, ForbiddenContent(m.senderFirstName))]
    ensures Reply(Markdown, ForbiddenContent(m.senderFirstName)) in Plan(m) <==> ContentViolation(m)
  {
    var n := m.senderFirstName;
    var w := Reply(Markdown, ForbiddenContent(n));
    if !ContentViolation(m) {
      if m.newChatMembers.Some? {
        JoinRepliesArePlain(m.newChatMembers.value);
      } else if !m.leftChatMember && !IsChatter(MessageText(m.text)) {
        RouteTable(CommandOfText(m.text), n);
      }
      assert w !in Plan(m);
    }
  }

  // ---------------------------------------------------------------------
  // Membership (index.js:66-78)

  /** The join replies greet the non-bot members, one reply each, in order,
      each naming its member between asterisks, which the user sees as they
      are since the greeting is plain text. */
  lemma {:induction false} JoinRepliesGreetHumans(members: seq<ChatMember>)
    ensures |JoinReplies(members)| == |Humans(members)|
    ensures forall i :: 0 <= i < |Humans(members)| ==>
      JoinReplies(members)[i] == Reply(PlainText, GroupWelcome(Humans(members)[i].firstName))
    ensures forall i :: 0 <= i < |Humans(members)| ==>
      StarredAt(Render(JoinReplies(members)[i].text), Humans(members)[i].firstName, |GroupGreeting|)
    decreases |members|
  {
    if members != [] {
      JoinRepliesGreetHumans(members[..|members| - 1]);
    }
  }

  lemma JoinRepliesArePlain(members: seq<ChatMember>)
    ensures forall e :: e in JoinReplies(members) ==> e.Reply? && e.mode == PlainText && e.text.GroupWelcome?
  {
    JoinRepliesGreetHumans(members);
    forall e | e in JoinReplies(members)
      ensures e.Reply? && e.mode == PlainText && e.text.GroupWelcome?
    {
      var i :| 0 <= i < |JoinReplies(members)| && JoinReplies(members)[i] == e;
    }
  }

  /** A join message gets only the greetings: no deletion, no command. A
      leave message gets nothing at all. */
  lemma MembershipEvents(m: Message)
    requires !ContentViolation(m)
    ensures m.newChatMembers.Some? ==> Plan(m) == JoinReplies(m.newChatMembers.value)
    ensures m.newChatMembers.Some? ==> forall e :: e in Plan(m) ==> e.Reply? && e.mode == PlainText
    ensures m.newChatMembers.None? && m.leftChatMember ==> Plan(m) == []
  {
    if m.newChatMembers.Some? {
      JoinRepliesArePlain(m.newChatMembers.value);
    }
  }

  /** Two members join, Ana (a person) and Bot1 (a bot); only Ana is
      greeted. */
  lemma JoinExample(m: Message)
    requires !ContentViolation(m)
    requires m.newChatMembers == Some([ChatMember("Ana", false), ChatMember("Bot1", true)])
    ensures Plan(m) == [Reply(PlainText, GroupWelcome("Ana"))]
  {
    var ms := m.newChatMembers.value;
    assert ms[..1] == [ChatMember("Ana", false)];
    assert ms[..1][..0] == [];
    assert JoinReplies(ms[..1]) == [Reply(PlainText, GroupWelcome("Ana"))];
    assert JoinReplies(ms) == JoinReplies(ms[..1]);
  }

  // ---------------------------------------------------------------------
  // Plain chat and the switch (index.js:80-129)

  /** Text that is not a command is deleted and answered with the welcome
      message, whatever it says; no command branch runs. */
  lemma ChatterIsWelcomed(m: Message)
    ensures !ContentViolation(m) && m.newChatMembers.None? && !m.leftChatMember && IsChatter(MessageText(m.text))
      ==> Plan(m) == [DeleteMessage, Reply(Markdown, Welcome(m.senderFirstName))]
  {
  }

  /** The handler deletes the message exactly when it is forbidden or plain chat. */
  lemma {:induction false} DeletesExactlyModerated(m: Message)
    ensures DeleteMessage in Plan(m) <==>
      ContentViolation(m) || (m.newChatMembers.None? && !m.leftChatMember && IsChatter(MessageText(m.text)))
  {
    if !ContentViolation(m) {
      if m.newChatMembers.Some? {
        JoinRepliesArePlain(m.newChatMembers.value);
      } else if !m.leftChatMember && !IsChatter(MessageText(m.text)) {
        RouteTable(CommandOfText(m.text), m.senderFirstName);
      }
    }
  }

  /** The routing table: each keyword selects its branch, and every other
      command, `''` included, selects the unknown-command reply. */
  lemma RouteTable(command: string, firstName: string)
    ensures Route(command, firstName) == Reply(Markdown, Welcome(firstName)) <==> command == "/start"
    ensures Route(command, firstName) == Reply(Markdown, CommandMenu) <==> command == "/comandos"
    ensures Route(command, firstName) == Delegate(Player) <==> command == "/jogador"
    ensures Route(command, firstName) == Delegate(War) <==> command == "/guerra"
    ensures Route(command, firstName) == Delegate(Clan) <==> command == "/clan"
    ensures Route(command, firstName) == Delegate(GoldPass) <==> command == "/bilhete"
    ensures Route(command, firstName) == ReplyPhoto(Tutorial(firstName)) <==> command == "/tutorial"
    ensures Route(command, firstName) == Reply(Markdown, Unknown) <==> command !in Keywords
    ensures Route(command, firstName) != DeleteMessage
    ensures Route(command, firstName).Reply? ==> Route(command, firstName).mode == Markdown
  {
  }

  /** A message that reaches the switch gets exactly one effect, the one its
      command selects; the command effects (delegation, the tutorial picture,
      the menu and the unknown-command reply) come from nowhere else. */
  lemma SwitchRunsOnce(m: Message)
    ensures ReachesSwitch(m) ==> Plan(m) == [Route(CommandOfText(m.text), m.senderFirstName)]
    ensures (exists e :: e in Plan(m) && (e.Delegate? || e.ReplyPhoto? || e == Reply(Markdown, CommandMenu) || e == Reply(Markdown, Unknown)))
      ==> ReachesSwitch(m)
  {
    if !ReachesSwitch(m) && !ContentViolation(m) && m.newChatMembers.Some? {
      JoinRepliesArePlain(m.newChatMembers.value);
    }
  }

  /** A message without usable text that reaches the switch, such as a voice
      message, a video note or text that was only a mention, gets the
      unknown-command reply. */
  lemma TextlessIsUnknown(m: Message)
    requires ReachesSwitch(m)
    requires MessageText(m.text) == ""
    ensures Plan(m) == [Reply(Markdown, Unknown)]
  {
  }

  /** A text that is only a mention normalises to `''`. */
  lemma {:induction false} OnlyMentionIsEmpty(name: string)
    requires |name| > 0 && forall i :: 0 <= i < |name| ==> IsWordChar(name[i])
    ensures MessageText(Some("@" + name)) == ""
  {
    var s := "@" + name;
    assert !IsTrimmable(s[0]) && !IsTrimmable(s[|s| - 1]);
    assert TrimStart(s) == s;
    assert TrimEnd(s) == s;
    StripLeadingMention(s, []);
    assert s + [] == s;
  }

  /** A command keyword, written in any letter case, optionally followed by a
      mention of the bot and by arguments after a space, selects the branch of
      the lower-cased keyword. */
  lemma CommandMessageRoutes(m: Message, keyword: string, mention: string, args: string)
    requires !ContentViolation(m) && m.newChatMembers.None? && !m.leftChatMember
    requires |keyword| > 0 && keyword[0] == '/'
    requires forall i :: 0 <= i < |keyword| ==> keyword[i] != ' ' && keyword[i] != '@' && !IsTrimmable(keyword[i])
    requires mention == [] || (|mention| >= 2 && mention[0] == '@' && forall i :: 1 <= i < |mention| ==> IsWordChar(mention[i]))
    requires args == [] || args[0] == ' '
    requires m.text == Some(keyword + mention + args)
    ensures ReachesSwitch(m)
    ensures Plan(m) == [Route(ToLower(keyword), m.senderFirstName)]
  {
    KeywordWithMention(keyword, mention, args);
  }

  // ---------------------------------------------------------------------
  // Failures (index.js:130-133)

  lemma {:induction false} PlanHasNoApology(m: Message)
    ensures ApologyReply !in Plan(m)
  {
    var p := Plan(m);
    if ContentViolation(m) {
      assert p == [DeleteMessage, Reply(Markdown, ForbiddenContent(m.senderFirstName))];
    } else if m.newChatMembers.Some? {
      assert p == JoinReplies(m.newChatMembers.value);
      JoinRepliesArePlain(m.newChatMembers.value);
    } else if m.leftChatMember {
      assert p == [];
    } else {
      var mt := MessageText(m.text);
      if IsChatter(mt) {
        assert p == [DeleteMessage, Reply(Markdown, Welcome(m.senderFirstName))];
      } else {
        RouteNotApology(CommandOfText(m.text), m.senderFirstName);
        assert p == [Route(CommandOfText(m.text), m.senderFirstName)];
      }
    }
  }

  lemma RouteNotApology(command: string, firstName: string)
    ensures Route(command, firstName) != ApologyReply
  {
  }

  /** When step `k` of the plan throws, the steps before it have been
      performed, nothing after it is, a delegated handler that threw is
      recorded as entered, and exactly one apology ends the effects; when no
      step throws, there is no apology at all. */
  lemma FailureGivesOneApology(m: Message, failAt: Option<nat>)
    ensures failAt.Some? && failAt.value < |Plan(m)| ==>
      && Execute(Plan(m), failAt) == Plan(m)[..failAt.value] + Attempted(Plan(m)[failAt.value]) + [ApologyReply]
      && (Plan(m)[failAt.value].Delegate? <==> Plan(m)[failAt.value] in Execute(Plan(m), failAt)[failAt.value..])
      && multiset(Execute(Plan(m), failAt))[ApologyReply] == 1
    ensures !(failAt.Some? && failAt.value < |Plan(m)|) ==>
      Execute(Plan(m), failAt) == Plan(m) && ApologyReply !in Execute(Plan(m), failAt)
  {
    PlanHasNoApology(m);
    if failAt.Some? && failAt.value < |Plan(m)| {
      var k := failAt.value;
      var step := Plan(m)[k];
      var done := Plan(m)[..k] + Attempted(step);
      assert step in Plan(m);
      assert ApologyReply !in done;
      assert multiset(done)[ApologyReply] == 0;
      assert multiset(done + [ApologyReply]) == multiset(done) + multiset{ApologyReply};
      assert Execute(Plan(m), failAt)[k..] == Attempted(step) + [ApologyReply];
      assert step != ApologyReply;
    }
  }

  /** A delegated handler that throws (such as `handlePlayerCommand` for
      `/jogador`) was entered and may already have replied: the delegation
      stays among the effects, and the apology follows it. */
  lemma DelegateFailureKeepsCall(plan: seq<Effect>, k: nat)
    requires k < |plan| && plan[k].Delegate?
    ensures Execute(plan, Some(k)) == plan[..k + 1] + [ApologyReply]
  {
    assert plan[..k + 1] == plan[..k] + [plan[k]];
  }
}
