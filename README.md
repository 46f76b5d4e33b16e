# Clash Lumni bot: message handler and advertisement scheduler

This project models the core of a Telegram group bot for Clash of Clans players (`index.js`). The model has two parts.

**The message handler.** For each incoming message it does the following, in order:
- it deletes forbidden content (pictures, videos other than video notes, audio other than voice, links, locations, contacts, documents, stickers, venues) and warns the sender;
- it greets new members who are not bots and ignores members who leave;
- it deletes plain chat and answers it with the welcome message;
- otherwise it normalises the text to a command and runs the matching branch of the command switch;
- any failing step is answered with one apology.

**The advertisement scheduler.** It posts a promotional picture every 15 minutes. Each picture is deleted 12 minutes after it was sent.

Modules:

- `Wrappers` (`wrappers.dfy`): `Option`.
- `Text` (`text.dfy`): the string operations the command normalisation uses, modelled character by character:
  - JavaScript's `trim`, over the full set of ECMAScript white space and line terminators;
  - the mention removal `replace(/@[\w\d_]+/g, "")`;
  - `split(" ")[0]`;
  - `toLowerCase`.
- `Commands` (`commands.dfy`): `messageText` and `command`, and what they guarantee.
- `Replies` (`replies.dfy`): the fixed reply texts (`welcomeMessage`, `menu`, the warning, the member greeting, the tutorial caption, the unknown-command reply and the apology). `ReplyText` names each reply and `Render` builds its text.
- `Handler` (`handler.dfy`): the handler itself.
  - Telegram calls are `Effect` values.
  - `Plan(m)` is the sequence of calls the handler makes when nothing fails.
  - `Execute(plan, failAt)` adds the failure of one step. The steps before the failing one are kept. A delegated handler that throws is kept too, since it was entered. The `catch` apology ends the sequence.
  - `HandleMessage` is the handler written step by step, with its early returns and its loop over new members. It is proved equal to `Execute(Plan(m), failAt)`.
- `HandlerProperties` (`handler_properties.dfy`): what the handler promises, stated over `Plan` and `Execute`.
- `Ads` (`ads.dfy`): the scheduler.
  - `AdScheduler` is a class holding `lastMessageId` and the armed delete timers. Its methods are proved against the pure transition function `Step`.
  - Time is discrete. `Cycles` lays out the sends and timer firings of successive cycles, and `Replay` runs them through `Step`.

## Model

| member | source | states |
|---|---|---|
| Text.TrimStart | index.js:80 | removes exactly the leading run of white space and line terminators: the result is a suffix of the input, every removed character is trimmable, and the result does not start with one |
| Text.TrimEnd | index.js:80 | removes exactly the trailing run of white space and line terminators: the result is a prefix, every removed character is trimmable, and the result does not end with one |
| Text.Trim | index.js:80 | the result has no trimmable character at either end and is the slice of the input between the leading and trailing runs |
| Text.WordRun | index.js:80 | the length of the maximal leading run of `[A-Za-z0-9_]` characters, as the greedy `[\w\d_]+` matches it |
| Text.StripMentions | index.js:80 | after the global replace no `@` followed by a word character is left; the text never grows; text without a mention is unchanged; a text that does not start with a word character still does not. What is kept and what is dropped is fixed, on every input, by `Commands.StripAfterNoAt`, `Commands.StripLeadingMention` and `Commands.StripLoneAt` |
| Text.FirstToken | index.js:81 | `split(" ")[0]`: a prefix of the text, without a space, that ends at the end of the text or at its first space |
| Text.ToLower | index.js:81 | same length; no upper-case ASCII letter is left; each upper-case letter becomes its lower-case letter and every other character is unchanged |
| Commands.MessageTextClean | index.js:80 | the normalised text has no white space at its ends and contains no mention |
| Commands.CommandShape | index.js:80-81 | the command contains no space, no mention and no upper-case letter, and it is `''` exactly when the text is absent or normalises to `''` |
| Commands.KeywordWithMention | index.js:80-81 | a keyword starting with `/`, optionally followed by a bot mention and by arguments after a space, normalises to a text starting with `/`, and its command is the lower-cased keyword |
| Commands.CommandCaseInsensitive | index.js:81 | lower-casing the message text first does not change the command |
| Commands.MessageText | index.js:80 | definition of `messageText` (trim, strip mentions, trim; absent text gives `''`); its properties are `Commands.MessageTextClean`, `Commands.KeywordWithMention` and `HandlerProperties.OnlyMentionIsEmpty` |
| Commands.CommandOf | index.js:81 | definition of `command` (the lower-cased first token, or `''`); its properties are `Commands.CommandShape` and `Commands.CommandCaseInsensitive` |
| Commands.StripAfterNoAt | index.js:80 | characters before the first `@` are kept as they are: removing mentions from `a + b`, where `a` has no `@`, gives `a` followed by the mention removal of `b` |
| Commands.StripLeadingMention | index.js:80 | a leading `@` with its whole maximal run of word characters is removed, and the removal goes on from the character after the run |
| Commands.StripLoneAt | index.js:80 | an `@` that is not followed by a word character is kept, and the removal goes on after it, whether or not a mention comes later |
| Replies.Join | index.js:17-21 | joining no line gives `''`, one line gives the line itself; the joined text starts with the first line |
| Replies.JoinConcat | index.js:17-21 | joining two non-empty runs of lines puts exactly one separator between their joins, so every later line follows its separator in order |
| Replies.WelcomeMessage | index.js:17-21 | the greeting, the first name between asterisks (bold, as the reply uses Markdown) right after it, then the fixed rest of the three lines |
| Replies.ContentWarning | index.js:62 | the warning sign, the sender's name between asterisks (bold, as the reply uses Markdown), then the fixed prohibition text |
| Replies.MemberWelcome | index.js:70 | the group greeting, the member's name between asterisks (`*name*`, shown literally because the greeting has no parse mode), then the hint to type `/comandos` |
| Replies.TutorialCaption | index.js:118 | the sender's name between asterisks (bold, as the caption uses Markdown) at the start, then the fixed tutorial text |
| Replies.MenuStart | index.js:33-41 | the `menu` constant (`Replies.Menu`, the seven lines joined with newlines) opens with its bold title line `*### Comandos ###*` followed by a newline |
| Replies.UnknownStart | index.js:127 | the `default` reply (`Replies.UnknownCommand`) opens with the warning sign followed by `Comando`, which no other reply does (`Replies.RenderSignature`) |
| Replies.ApologyStart | index.js:132 | the `catch` reply (`Replies.Apology`) opens with `❌`, which no other reply does (`Replies.RenderSignature`) |
| Replies.Render | index.js:62-132 | definition of the text passed to each `ctx.reply` and of the tutorial caption; its properties are `Replies.RenderDistinct` and `Replies.RenderSignature` |
| Replies.RenderSignature | index.js:62-132 | every reply text is longer than 13 characters, and its first character (with the character after the greeting or the warning sign) tells which reply it is, except the menu and the tutorial caption, which both open with `*` (`Replies.RenderDistinct` tells those two apart by their endings) |
| Replies.RenderDistinct | index.js:17-132 | different replies have different texts, names included: a user can tell which reply was sent and to whom |
| Replies.JoinEndsWith | index.js:33-41 | a joined text ends with its last line, so the menu ends with its tutorial line |
| Handler.Humans | index.js:68-69 | the non-bot members of a join list: each one is in the list and is not a bot, and every non-bot member of the list is among them |
| Handler.HumansConcat | index.js:68-69 | filtering a concatenation is concatenating the filtered parts, so the filter keeps list order and one entry per kept member |
| Handler.HumansSingle | index.js:69 | a single member is kept exactly when it is not a bot |
| Handler.ContentViolation | index.js:50-60 | definition of the filter condition; its properties are `HandlerProperties.ContentFilter` and `HandlerProperties.DeletesExactlyModerated` |
| Handler.JoinReplies | index.js:68-72 | definition of the greetings the loop sends; its properties are `HandlerProperties.JoinRepliesGreetHumans`, `HandlerProperties.JoinRepliesArePlain` and `Handler.JoinRepliesPrefix` |
| Handler.IsChatter | index.js:83 | definition of the chat check `messageText && !messageText.startsWith("/")`: a non-empty normalised text not starting with `/`; its properties are `HandlerProperties.ChatterIsWelcomed` and `HandlerProperties.DeletesExactlyModerated` |
| Handler.Route | index.js:89-129 | definition of the switch; its properties are `HandlerProperties.RouteTable` and `HandlerProperties.SwitchRunsOnce` |
| Handler.Plan | index.js:43-129 | definition of the effects attempted when nothing throws, with the early returns in source order; its properties are the `HandlerProperties` lemmas |
| Handler.Execute | index.js:130-133 | definition of the effects when one step throws; its properties are `HandlerProperties.FailureGivesOneApology` and `HandlerProperties.DelegateFailureKeepsCall` |
| Handler.HandleMessage | index.js:43-134 | the effects of the handler are `Plan(m)` up to the step that throws, then what that step did (a delegated handler is recorded as entered), then one apology; with no failure they are `Plan(m)`. The switch runs exactly the one branch `Route` selects |
| Handler.DeleteAndReply | index.js:61-62 | deletes the message, then replies in Markdown; a throw at either step ends the sequence with the apology |
| Handler.GreetMembers | index.js:66-73 | the loop sends `JoinReplies(members)`, one greeting per non-bot member in list order, and stops at the apology if a reply throws |
| Handler.Await | index.js:130-133 | an awaited step either succeeds and is recorded, or throws and the catch replies with the apology; a delegated handler that throws is recorded as entered, a Telegram call that throws as not performed |
| Handler.JoinRepliesPrefix | index.js:68-72 | the greetings sent for the first n members are a prefix of those for the whole list, so stopping early keeps the greetings already sent |
| HandlerProperties.ContentFilter | index.js:50-64 | a forbidden message is deleted and answered with the warning and nothing else; the warning is sent exactly when the message is forbidden |
| HandlerProperties.JoinRepliesGreetHumans | index.js:66-73 | one greeting per non-bot member, in order, each plain text and naming that member between asterisks (`*name*`), shown literally because the greeting has no parse mode |
| HandlerProperties.JoinRepliesArePlain | index.js:70 | every join reply is a plain-text member greeting |
| HandlerProperties.MembershipEvents | index.js:66-78 | a join message gets only the greetings; a leave message gets no effect at all |
| HandlerProperties.JoinExample | index.js:66-73 | when Ana (a person) and Bot1 (a bot) join, only Ana is greeted |
| HandlerProperties.ChatterIsWelcomed | index.js:83-87 | a message that passes the filter and the join/leave checks, and whose normalised text is non-empty and does not start with `/`, is deleted and answered with the welcome message (raw text such as `@bot` normalises to `''` and is not chat) |
| HandlerProperties.DeletesExactlyModerated | index.js:50-87 | the handler deletes the message if and only if it is forbidden content or plain chat |
| HandlerProperties.RouteTable | index.js:89-129 | each keyword selects its own branch and only that keyword does; every other command, `''` included, gets the unknown-command reply; the switch never deletes; its replies are Markdown |
| HandlerProperties.SwitchRunsOnce | index.js:89-129 | a message that reaches the switch gets exactly one effect, the routed one; delegation, the tutorial, the menu and the unknown reply happen only there |
| HandlerProperties.TextlessIsUnknown | index.js:80-81 | a message without usable text that reaches the switch gets the unknown-command reply |
| HandlerProperties.OnlyMentionIsEmpty | index.js:80 | a text that is only a mention normalises to `''` |
| HandlerProperties.CommandMessageRoutes | index.js:80-129 | a keyword in any letter case, with an optional bot mention and arguments, reaches the switch and runs the branch of the lower-cased keyword |
| HandlerProperties.PlanHasNoApology | index.js:44-129 | the apology is never one of the planned steps |
| HandlerProperties.FailureGivesOneApology | index.js:130-133 | after a throw at step k, steps 0..k-1 have been done and nothing after step k; step k itself appears exactly when it is a delegation; exactly one apology is sent; without a throw there is no apology |
| HandlerProperties.DelegateFailureKeepsCall | index.js:100-114 | when a delegated handler (`/jogador`, `/guerra`, `/clan`, `/bilhete`) throws at step k, the effects are steps 0..k, the delegation included, then the apology |
| Ads.Step | index.js:137-168 | a successful send records its id and arms one timer; a failed send changes nothing; a firing deletes only the id the slot holds, only when it is set, and never changes the slot |
| Ads.IsSet | index.js:153 | definition of the truthiness test `if (lastMessageId)`: a slot holding neither `null` nor `0`; it is used by `Ads.Step` and `Ads.AdScheduler.DeleteTimerFires`, and `Ads.CycleReplay` shows that a send of id 0 is never deleted |
| Ads.Cycles | index.js:167-168 | definition of the timeline of sends and firings; its properties are `Ads.CyclesEvents`, `Ads.CyclesChronological` and `Ads.ChronologicalIff` |
| Ads.Replay | index.js:142-165 | definition of running events through `Step`; its properties are `Ads.CycleReplay`, `Ads.CyclesReplay` and `Ads.LateTimersDeleteNewest` |
| Ads.OwnIds | index.js:150-155 | the reference for what should be deleted: the id of each successful send with a truthy id, in order; `Ads.CyclesReplay` proves the replay deletes exactly these |
| Ads.AdScheduler.SendAndScheduleDelete | index.js:142-165 | on success `lastMessageId` becomes the sent id and one timer is armed for `deleteInterval` later; on failure nothing changes |
| Ads.AdScheduler.DeleteTimerFires | index.js:151-160 | the earliest timer is consumed; it deletes the id held in `lastMessageId` at that moment when that id is truthy; `lastMessageId` is left as it was |
| Ads.AdScheduler.constructor | index.js:137 | `lastMessageId` starts as `null` with no timer armed |
| Ads.CyclesEvents | index.js:145-168 | the events are exactly the sends, one for each cycle k at k times the send interval after the start (one at start-up, then one per interval), and the timer firings a delete interval after each successful send; a failed send arms no timer |
| Ads.CyclesChronological | index.js:138-140 | with 0 < deleteInterval < sendInterval, every timer fires after its own send and before the next send |
| Ads.ChronologicalIff | index.js:138-168 | for two or more cycles from time 0 whose first send succeeds, the sends and firings are in time order if and only if the delete interval is shorter than the send interval (with a single cycle they always are) |
| Ads.AdTimingHolds | index.js:138-140 | the configured intervals are 15 and 12 minutes, and with them the events are in time order |
| Ads.CycleReplay | index.js:142-165 | one cycle from an idle state deletes its own ad (when the send succeeded and the id is truthy) and leaves no timer armed |
| Ads.CyclesReplay | index.js:142-168 | replaying the cycles one after the other (their time order when the delete interval is the shorter, by `Ads.CyclesChronological`): every firing finds the timer armed for its time; the ids deleted are exactly the sent ids, in order, each in its own cycle; the slot keeps the last sent id |
| Ads.AdsDeleteOwnMessage | index.js:137-168 | with the configured intervals, the ads and deletions alternate, every timer fires on time, and the messages deleted are exactly the ads sent, each in its own cycle (an id of 0 would be falsy and is never deleted) |
| Ads.LateTimersDeleteNewest | index.js:151-155 | the timer reads the slot when it fires: if the send interval were not longer than the delete interval, both timers would delete the second ad and the first would stay |

## Left out

- Telegram I/O is not modelled. Each call is an `Effect` value, and its failure is the `failAt` parameter.
- The files and images sent, the chat ids and `ctx.from.id` are not modelled.
- How Markdown is rendered is not modelled.
- The handlers behind `/jogador`, `/guerra`, `/clan` and `/bilhete` (`services/*`) are not part of this model. They appear only as `Delegate` effects.
- Logging, `moment` and `Date.now()` are left out; they have no effect on behaviour.
- `getExternalIP`, `startBot` and the process signal and error hooks are not part of this model.
- The advertisement's caption and its image are not modelled. Only the send's outcome (the message id, or a failure) matters to the scheduler.
- Real timers and concurrency are not modelled.
  - Handler runs that overlap each other are not modelled. Each handler run is modelled on its own.
  - A timer fires as a discrete event placed at its time by `Cycles`.
- The failure of the apology reply itself is left out. In the program it would be an unhandled rejection.
- A `deleteMessage` failure inside the timer is caught and only logged, so the model gives it no effect.
- Text.ToLower: lowers ASCII letters only, because JavaScript's full Unicode case mapping is not modelled. Commands are ASCII, so no keyword is affected.
- Commands.MessageText: an absent text and an empty text give the same result. This is not a loss: both are falsy, and the program treats them alike.
- A Telegram call that throws is taken as not performed. A request that reached Telegram before the error came back is not modelled.
- Two behaviours of the program are modelled as written:
  - The timer never resets `lastMessageId` after a deletion (index.js:151-160). `Ads.CyclesReplay` proves the slot keeps the last sent id.
  - The command is split on the single character `" "`, not on any white space (index.js:81). `Text.FirstToken` follows this.
