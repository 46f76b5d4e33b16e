/** The `bot.on("message", ...)` handler (index.js:43-134): content filter,
    membership handling, the welcome reply to plain chat and the command
    switch, with the `catch` that answers any failure with an apology.

    Telegram calls are effect values. `Plan(m)` is the list of effects the
    handler attempts when no step fails; `Execute` adds the failure of one
    step; `HandleMessage` is the handler itself, step by step. */
module Handler {
  import opened Wrappers
  import opened Commands
  import opened Replies

  /** An entry of `new_chat_members`. */
  datatype ChatMember = ChatMember(firstName: string, isBot: bool)

  /** The fields of `ctx.message` and `ctx.from.first_name` the handler reads.
      Each attachment field is present (truthy) or absent. */
  datatype Message = Message(
    photo: bool,
    video: bool,
    videoNote: bool,
    audio: bool,
    voice: bool,
    location: bool,
    contact: bool,
    document: bool,
    sticker: bool,
    venue: bool,
    entityTypes: seq<string>,
    text: Option<string>,
    newChatMembers: Option<seq<ChatMember>>,
    leftChatMember: bool,
    senderFirstName: string)

  /** `parse_mode: "Markdown"` or no parse mode. */
  datatype ParseMode = Markdown | PlainText

  /** The four lookup handlers whose code is not part of this model. */
  datatype Service = Player | War | Clan | GoldPass

  datatype Effect =
    | DeleteMessage                       // ctx.telegram.deleteMessage(chat, message_id)
    | Reply(mode: ParseMode, text: ReplyText) // ctx.reply(Render(text), options)
    | ReplyPhoto(caption: ReplyText)          // ctx.replyWithPhoto(images/tutorial.jpg, Markdown caption)
    | Delegate(service: Service)           // handlePlayerCommand(ctx) and its siblings

  const ApologyReply: Effect := Reply(PlainText, ErrorApology)

  // ---------------------------------------------------------------------
  // Pure decisions

  predicate IsLinkEntity(entityType: string) {
    entityType == "url" || entityType == "text_link"
  }

  /** The condition of index.js:50-60. */
  predicate ContentViolation(m: Message) {
    || m.photo
    || (m.video && !m.videoNote)
    || (m.audio && !m.voice)
    || (exists i :: 0 <= i < |m.entityTypes| && IsLinkEntity(m.entityTypes[i]))
    || m.location
    || m.contact
    || m.document
    || m.sticker
    || m.venue
  }

  /** Non-bot members of a join list, in list order (`HumansConcat` and
      `HumansSingle` fix it entirely). */
  function Humans(members: seq<ChatMember>): (r: seq<ChatMember>)
    ensures |r| <= |members|
    ensures forall i :: 0 <= i < |r| ==> r[i] in members && !r[i].isBot
    ensures forall x :: x in members && !x.isBot ==> x in r
  {
    if members == [] then []
    else
      var init := members[..|members| - 1];
      var last := members[|members| - 1];
      assert members == init + [last];
      Humans(init) + (if last.isBot then [] else [last])
  }

  /** The replies of the loop at index.js:68-72 over `members`. */
  function JoinReplies(members: seq<ChatMember>): seq<Effect> {
    if members == [] then []
    else
      var last := members[|members| - 1];
      JoinReplies(members[..|members| - 1])
        + (if last.isBot then [] else [Reply(PlainText, GroupWelcome(last.firstName))])
  }

  /** The switch of index.js:89-129. */
  function Route(command: string, firstName: string): Effect {
    if command == "/start" then Reply(Markdown, Welcome(firstName))
    else if command == "/comandos" then Reply(Markdown, CommandMenu)
    else if command == "/jogador" then Delegate(Player)
    else if command == "/guerra" then Delegate(War)
    else if command == "/clan" then Delegate(Clan)
    else if command == "/bilhete" then Delegate(GoldPass)
    else if command == "/tutorial" then ReplyPhoto(Tutorial(firstName))
    else Reply(Markdown, Unknown)
  }

  const Keywords: set<string> := {"/start", "/comandos", "/jogador", "/guerra", "/clan", "/bilhete", "/tutorial"}

  /** Plain chat: text that survives normalisation and is not a command. */
  predicate IsChatter(messageText: string) {
    messageText != "" && messageText[0] != '/'
  }

  /** The message gets past the filter, the membership checks and the chat check. */
  predicate ReachesSwitch(m: Message) {
    && !ContentViolation(m)
    && m.newChatMembers.None?
    && !m.leftChatMember
    && !IsChatter(MessageText(m.text))
  }

  /** The effects the handler attempts, in order, when no step fails. */
  function Plan(m: Message): seq<Effect> {
    if ContentViolation(m) then
      [DeleteMessage, Reply(Markdown, ForbiddenContent(m.senderFirstName))]
    else if m.newChatMembers.Some? then
      JoinReplies(m.newChatMembers.value)
    else if m.leftChatMember then
      []
    else if IsChatter(MessageText(m.text)) then
      [DeleteMessage, Reply(Markdown, Welcome(m.senderFirstName))]
    else
      [Route(CommandOfText(m.text), m.senderFirstName)]
  }

  /** What a step that throws has already done. A Telegram call that throws
      is taken as not performed; a delegated handler that throws has been
      entered, and may already have replied. */
  function Attempted(e: Effect): seq<Effect> {
    if e.Delegate? then [e] else []
  }

  /** What is performed when the step numbered `failAt` (if any) throws: the
      steps before it, what the failing step did, then the apology of the
      `catch` block. */
  function Execute(plan: seq<Effect>, failAt: Option<nat>): seq<Effect> {
    if failAt.Some? && failAt.value < |plan| then
      plan[..failAt.value] + Attempted(plan[failAt.value]) + [ApologyReply]
    else plan
  }

  // ---------------------------------------------------------------------
  // The handler

  /** One `await` inside the `try`: the step numbered `|done|` either
      succeeds, or throws and control passes to the `catch`, which replies
      with the apology. */
  method Await(done: seq<Effect>, e: Effect, failAt: Option<nat>) returns (after: seq<Effect>, ok: bool)
    ensures ok <==> failAt != Some(|done|)
    ensures ok ==> after == done + [e]
    ensures !ok ==> after == done + Attempted(e) + [ApologyReply]
  {
    ok := failAt != Some(|done|);
    if ok {
      after := done + [e];
    } else {
      after := done + Attempted(e) + [ApologyReply];
    }
  }

  /** The message handler. `failAt` names the step (0 for the first Telegram
      call) that throws, if any. */
  method HandleMessage(m: Message, failAt: Option<nat>) returns (effects: seq<Effect>)
    ensures effects == Execute(Plan(m), failAt)
  {
    effects := [];
    var firstName := m.senderFirstName;

    if ContentViolation(m) {
      effects := DeleteAndReply(ForbiddenContent(firstName), failAt);
      return;
    }

    if m.newChatMembers.Some? {
      effects := GreetMembers(m.newChatMembers.value, failAt);
      return;
    }

    if m.leftChatMember {
      return;
    }

    var messageText := MessageText(m.text);
    var command := CommandOf(messageText);

    if messageText != "" && messageText[0] != '/' {
      effects := DeleteAndReply(Welcome(firstName), failAt);
      return;
    }

    // The switch: exactly one branch runs, the one `Route` selects.
    var ok: bool;
    effects, ok := Await([], Route(command, firstName), failAt);
  }

  /** Delete the message, then reply with `text` in Markdown
      (index.js:61-62 and 84-85). */
  method DeleteAndReply(text: ReplyText, failAt: Option<nat>) returns (effects: seq<Effect>)
    ensures effects == Execute([DeleteMessage, Reply(Markdown, text)], failAt)
  {
    var ok: bool;
    effects, ok := Await([], DeleteMessage, failAt);
    if !ok { return; }
    effects, ok := Await(effects, Reply(Markdown, text), failAt);
  }

  /** The loop of index.js:68-72: greet each joined member that is not a bot. */
  method GreetMembers(members: seq<ChatMember>, failAt: Option<nat>) returns (effects: seq<Effect>)
    ensures effects == Execute(JoinReplies(members), failAt)
  {
    effects := [];
    var ok: bool;
    var i := 0;
    while i < |members|
      invariant 0 <= i <= |members|
      invariant effects == JoinReplies(members[..i])
      invariant failAt.Some? ==> failAt.value >= |effects|
    {
      assert members[..i + 1][..i] == members[..i];
      if !members[i].isBot {
        effects, ok := Await(effects, Reply(PlainText, GroupWelcome(members[i].firstName)), failAt);
        if !ok {
          JoinRepliesPrefix(members, i + 1);
          return;
        }
      }
      i := i + 1;
    }
    assert members[..i] == members;
  }

  lemma {:induction false} JoinRepliesPrefix(members: seq<ChatMember>, n: nat)
    requires n <= |members|
    ensures JoinReplies(members[..n]) <= JoinReplies(members)
    decreases |members|
  {
    if n < |members| {
      var init := members[..|members| - 1];
      assert members[..n] == init[..n];
      JoinRepliesPrefix(init, n);
    } else {
      assert members[..n] == members;
    }
  }

  /** Filtering a list is filtering its parts: the order of the list is kept. */
  lemma {:induction false} HumansConcat(a: seq<ChatMember>, b: seq<ChatMember>)
    ensures Humans(a + b) == Humans(a) + Humans(b)
    decreases |b|
  {
    if b == [] {
      assert a + b == a;
    } else {
      var init := b[..|b| - 1];
      var last := b[|b| - 1];
      assert (a + b)[..|a + b| - 1] == a + init;
      assert (a + b)[|a + b| - 1] == last;
      HumansConcat(a, init);
    }
  }

  /** One member is kept exactly when it is not a bot. */
  lemma HumansSingle(x: ChatMember)
    ensures Humans([x]) == (if x.isBot then [] else [x])
  {
    assert [x][..0] == [];
  }
}
