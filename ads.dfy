/** The advertisement scheduler (index.js:136-168): `sendAndScheduleDelete`
    sends the promotional picture, records the sent message's id in the
    module-level `lastMessageId` and arms a one-shot timer that later deletes
    whatever `lastMessageId` then holds. It runs once at start-up and then
    every `sendInterval`.

    Time is discrete: a send is an event at a time, an armed timer is the
    time it will fire, and the firing of the earliest armed timer is an
    event. The Telegram calls are the events' outcomes. */
module Ads {
  import opened Wrappers

  const Multiply: nat := 3
  const SendInterval: nat := 300000 * Multiply
  const DeleteInterval: nat := 240000 * Multiply

  /** What `bot.telegram.sendPhoto` gave: the sent message's id, or a throw. */
  datatype SendOutcome = Sent(messageId: int) | SendFailed

  /** `lastMessageId` and the fire times of the armed delete timers, earliest first. */
  datatype SchedulerState = SchedulerState(lastMessageId: Option<int>, timers: seq<nat>)

  const Initial: SchedulerState := SchedulerState(None, [])

  datatype Event =
    | SendAt(at: nat, outcome: SendOutcome) // one call of sendAndScheduleDelete at time `at`
    | TimerFires                            // the earliest armed delete timer runs its callback

  /** The new state and the id passed to `deleteMessage`, if any. */
  datatype StepResult = StepResult(next: SchedulerState, deleted: Option<int>)

  /** `if (lastMessageId)`: JavaScript truthiness, so neither `null` nor `0`. */
  predicate IsSet(slot: Option<int>) {
    slot.Some? && slot.value != 0
  }

  /** One event of the scheduler. A successful send overwrites the slot and
      arms one timer for `at + deleteInterval`; a failed send changes
      nothing. A firing timer deletes the message the slot holds at that
      moment and leaves the slot as it is. */
  function Step(s: SchedulerState, e: Event): (r: StepResult)
    ensures e.TimerFires? ==> r.next.lastMessageId == s.lastMessageId
    ensures e.SendAt? && e.outcome.SendFailed? ==> r.next == s && r.deleted.None?
    ensures e.SendAt? && e.outcome.Sent? ==>
      r.next.lastMessageId == Some(e.outcome.messageId) && |r.next.timers| == |s.timers| + 1 && r.deleted.None?
    ensures r.deleted.Some? ==> e.TimerFires? && s.timers != [] && IsSet(s.lastMessageId) && r.deleted.value == s.lastMessageId.value
  {
    match e
    case SendAt(at, Sent(id)) => StepResult(SchedulerState(Some(id), s.timers + [at + DeleteInterval]), None)
    case SendAt(_, SendFailed) => StepResult(s, None)
    case TimerFires =>
      if s.timers == [] then StepResult(s, None)
      else
        var deleted := if IsSet(s.lastMessageId) then Some(s.lastMessageId.value) else None;
        StepResult(SchedulerState(s.lastMessageId, s.timers[1..]), deleted)
  }

  // ---------------------------------------------------------------------
  // The scheduler as the program holds it

  class AdScheduler {
    var lastMessageId: Option<int>
    var timers: seq<nat>

    function State(): SchedulerState
      reads this
    {
      SchedulerState(lastMessageId, timers)
    }

    /** `let lastMessageId = null`, nothing armed. */
    constructor ()
      ensures State() == Initial
    {
      lastMessageId := None;
      timers := [];
    }

    /** `sendAndScheduleDelete()` at time `at`, where the send had `outcome`. */
    method SendAndScheduleDelete(at: nat, outcome: SendOutcome)
      modifies this
      ensures outcome.Sent? ==> lastMessageId == Some(outcome.messageId) && timers == old(timers) + [at + DeleteInterval]
      ensures outcome.SendFailed? ==> lastMessageId == old(lastMessageId) && timers == old(timers)
      ensures State() == Step(old(State()), SendAt(at, outcome)).next
    {
      match outcome
      case Sent(id) =>
        lastMessageId := Some(id);
        timers := timers + [at + DeleteInterval];
      case SendFailed =>
    }

    /** The `setTimeout` callback of the earliest armed timer: the id it
        deletes, if any. `deleteMessage`'s own failure is caught and only
        logged, so it changes nothing here. */
    method DeleteTimerFires() returns (deleted: Option<int>)
      requires timers != []
      modifies this
      ensures deleted == (if IsSet(old(lastMessageId)) then Some(old(lastMessageId).value) else None)
      ensures lastMessageId == old(lastMessageId)
      ensures timers == old(timers)[1..]
      ensures State() == Step(old(State()), TimerFires).next && deleted == Step(old(State()), TimerFires).deleted
    {
      if lastMessageId.Some? && lastMessageId.value != 0 {
        deleted := Some(lastMessageId.value);
      } else {
        deleted := None;
      }
      timers := timers[1..];
    }
  }

  // ---------------------------------------------------------------------
  // The timeline

  datatype Timed = Timed(time: nat, event: Event)

  /** One cycle started at `start`: the send, and, when it succeeded, the
      firing of the timer it armed `deleteIv` later. */
  function Cycle(outcome: SendOutcome, start: nat, deleteIv: nat): seq<Timed> {
    [Timed(start, SendAt(start, outcome))] + (if outcome.Sent? then [Timed(start + deleteIv, TimerFires)] else [])
  }

  /** The cycles of `sendAndScheduleDelete(); setInterval(sendAndScheduleDelete, sendIv)`:
      the k-th send (counting from 0) happens at `start + k * sendIv`. */
  function Cycles(outcomes: seq<SendOutcome>, start: nat, sendIv: nat, deleteIv: nat): seq<Timed>
    decreases |outcomes|
  {
    if outcomes == [] then []
    else Cycle(outcomes[0], start, deleteIv) + Cycles(outcomes[1..], start + sendIv, sendIv, deleteIv)
  }

  /** `e` is an event of cycle `k`: its send at `start + k * sendIv` or, when
      that send succeeded, its timer firing `deleteIv` later. */
  predicate CycleEventAt(outcomes: seq<SendOutcome>, start: nat, sendIv: nat, deleteIv: nat, k: nat, e: Timed)
    requires k < |outcomes|
  {
    var at := start + k * sendIv;
    || e == Timed(at, SendAt(at, outcomes[k]))
    || (outcomes[k].Sent? && e == Timed(at + deleteIv, TimerFires))
  }

  /** The events of the cycles are exactly the sends at `start + k * sendIv`
      and, for each successful send, one firing `deleteIv` after it. */
  lemma {:induction false} CyclesEvents(outcomes: seq<SendOutcome>, start: nat, sendIv: nat, deleteIv: nat)
    ensures forall e :: e in Cycles(outcomes, start, sendIv, deleteIv) <==>
      exists k :: 0 <= k < |outcomes| && CycleEventAt(outcomes, start, sendIv, deleteIv, k, e)
    decreases |outcomes|
  {
    if outcomes != [] {
      var c := Cycle(outcomes[0], start, deleteIv);
      var tail := outcomes[1..];
      var rest := Cycles(tail, start + sendIv, sendIv, deleteIv);
      CyclesEvents(tail, start + sendIv, sendIv, deleteIv);
      forall e
        ensures e in c + rest <==> exists k :: 0 <= k < |outcomes| && CycleEventAt(outcomes, start, sendIv, deleteIv, k, e)
      {
        if e in c {
          assert CycleEventAt(outcomes, start, sendIv, deleteIv, 0, e);
        } else if e in rest {
          var j :| 0 <= j < |tail| && CycleEventAt(tail, start + sendIv, sendIv, deleteIv, j, e);
          assert start + sendIv + j * sendIv == start + (j + 1) * sendIv;
          assert CycleEventAt(outcomes, start, sendIv, deleteIv, j + 1, e);
        }
        if exists k :: 0 <= k < |outcomes| && CycleEventAt(outcomes, start, sendIv, deleteIv, k, e) {
          var k :| 0 <= k < |outcomes| && CycleEventAt(outcomes, start, sendIv, deleteIv, k, e);
          if k == 0 {
            assert e in c;
          } else {
            assert start + sendIv + (k - 1) * sendIv == start + k * sendIv;
            assert CycleEventAt(tail, start + sendIv, sendIv, deleteIv, k - 1, e);
            assert e in rest;
          }
        }
      }
    }
  }

  predicate Chronological(events: seq<Timed>) {
    forall i, j :: 0 <= i < j < |events| ==> events[i].time < events[j].time
  }

  /** Runs the events in order from `s`: the final state and the ids deleted. */
  function Replay(s: SchedulerState, events: seq<Timed>): (SchedulerState, seq<int>)
    decreases |events|
  {
    if events == [] then (s, [])
    else
      var r := Step(s, events[0].event);
      var rest := Replay(r.next, events[1..]);
      (rest.0, (if r.deleted.Some? then [r.deleted.value] else []) + rest.1)
  }

  /** Every firing finds an armed timer whose fire time is the firing's time. */
  predicate FiresOnTime(s: SchedulerState, events: seq<Timed>)
    decreases |events|
  {
    events == [] ||
    (&& (events[0].event.TimerFires? ==> s.timers != [] && s.timers[0] == events[0].time)
     && FiresOnTime(Step(s, events[0].event).next, events[1..]))
  }

  /** The ids a correct scheduler deletes: the message of each successful
      send, in order (an id of 0 is falsy and never deleted). */
  function OwnIds(outcomes: seq<SendOutcome>): seq<int> {
    if outcomes == [] then []
    else (if outcomes[0].Sent? && outcomes[0].messageId != 0 then [outcomes[0].messageId] else []) + OwnIds(outcomes[1..])
  }

  /** `lastMessageId` after the cycles: the id of the last successful send,
      or `prior` when none succeeded. */
  function LastSent(outcomes: seq<SendOutcome>, prior: Option<int>): Option<int>
    decreases |outcomes|
  {
    if outcomes == [] then prior
    else LastSent(outcomes[1..], if outcomes[0].Sent? then Some(outcomes[0].messageId) else prior)
  }

  // ---------------------------------------------------------------------
  // Timing: each ad is deleted before the next one is sent

  lemma ConcatChronological(a: seq<Timed>, b: seq<Timed>, t: nat)
    requires Chronological(a) && Chronological(b)
    requires forall i :: 0 <= i < |a| ==> a[i].time < t
    requires forall j :: 0 <= j < |b| ==> b[j].time >= t
    ensures Chronological(a + b)
  {
    forall i, j | 0 <= i < j < |a + b|
      ensures (a + b)[i].time < (a + b)[j].time
    {
      if j < |a| {
        assert (a + b)[i] == a[i] && (a + b)[j] == a[j];
      } else if i < |a| {
        assert (a + b)[i] == a[i] && (a + b)[j] == b[j - |a|];
      } else {
        assert (a + b)[i] == b[i - |a|] && (a + b)[j] == b[j - |a|];
      }
    }
  }

  /** No event of the cycles starting at `start` happens before `start`. */
  lemma {:induction false} CyclesNotBefore(outcomes: seq<SendOutcome>, start: nat, sendIv: nat, deleteIv: nat)
    ensures forall j :: 0 <= j < |Cycles(outcomes, start, sendIv, deleteIv)| ==> Cycles(outcomes, start, sendIv, deleteIv)[j].time >= start
    decreases |outcomes|
  {
    if outcomes != [] {
      var c: seq<Timed> := Cycle(outcomes[0], start, deleteIv);
      var rest: seq<Timed> := Cycles(outcomes[1..], start + sendIv, sendIv, deleteIv);
      CyclesNotBefore(outcomes[1..], start + sendIv, sendIv, deleteIv);
      forall j | 0 <= j < |c + rest| ensures (c + rest)[j].time >= start {
        if j >= |c| {
          assert (c + rest)[j] == rest[j - |c|];
        }
      }
    }
  }

  /** With a delete interval shorter than the send interval, every timer
      fires after its own send and before the next send. */
  lemma {:induction false} CyclesChronological(outcomes: seq<SendOutcome>, start: nat, sendIv: nat, deleteIv: nat)
    requires 0 < deleteIv < sendIv
    ensures Chronological(Cycles(outcomes, start, sendIv, deleteIv))
    decreases |outcomes|
  {
    if outcomes != [] {
      var c: seq<Timed> := Cycle(outcomes[0], start, deleteIv);
      CyclesChronological(outcomes[1..], start + sendIv, sendIv, deleteIv);
      CyclesNotBefore(outcomes[1..], start + sendIv, sendIv, deleteIv);
      ConcatChronological(c, Cycles(outcomes[1..], start + sendIv, sendIv, deleteIv), start + sendIv);
    }
  }

  /** The ordering holds exactly when the delete interval is the shorter one:
      otherwise the first ad's timer fires no earlier than the second send. */
  lemma ChronologicalIff(outcomes: seq<SendOutcome>, sendIv: nat, deleteIv: nat)
    requires 0 < deleteIv
    requires |outcomes| >= 2 && outcomes[0].Sent?
    ensures Chronological(Cycles(outcomes, 0, sendIv, deleteIv)) <==> deleteIv < sendIv
  {
    var events := Cycles(outcomes, 0, sendIv, deleteIv);
    if deleteIv < sendIv {
      CyclesChronological(outcomes, 0, sendIv, deleteIv);
    } else {
      var rest := Cycles(outcomes[1..], sendIv, sendIv, deleteIv);
      assert rest == Cycle(outcomes[1], sendIv, deleteIv) + Cycles(outcomes[2..], sendIv + sendIv, sendIv, deleteIv) by {
        assert outcomes[1..][1..] == outcomes[2..];
      }
      assert events == [Timed(0, SendAt(0, outcomes[0])), Timed(deleteIv, TimerFires)] + rest;
      assert events[1].time == deleteIv && events[2].time == sendIv;
    }
  }

  /** The intervals of index.js:139-140: the ad is deleted 12 minutes after
      it is sent and a new one is sent every 15 minutes, as its caption says. */
  lemma AdTimingHolds(outcomes: seq<SendOutcome>)
    ensures SendInterval == 15 * 60 * 1000 && DeleteInterval == 12 * 60 * 1000
    ensures Chronological(Cycles(outcomes, 0, SendInterval, DeleteInterval))
  {
    CyclesChronological(outcomes, 0, SendInterval, DeleteInterval);
  }

  // ---------------------------------------------------------------------
  // Deletion: each timer deletes its own cycle's ad

  lemma {:induction false} ReplayConcat(s: SchedulerState, a: seq<Timed>, b: seq<Timed>)
    ensures Replay(s, a + b) == (Replay(Replay(s, a).0, b).0, Replay(s, a).1 + Replay(Replay(s, a).0, b).1)
    ensures FiresOnTime(s, a) && FiresOnTime(Replay(s, a).0, b) ==> FiresOnTime(s, a + b)
    decreases |a|
  {
    if a != [] {
      assert (a + b)[0] == a[0] && (a + b)[1..] == a[1..] + b;
      var r := Step(s, a[0].event);
      ReplayConcat(r.next, a[1..], b);
      var d: seq<int> := if r.deleted.Some? then [r.deleted.value] else [];
      var mid := Replay(r.next, a[1..]);
      assert Replay(s, a) == (mid.0, d + mid.1);
      assert d + (mid.1 + Replay(mid.0, b).1) == (d + mid.1) + Replay(mid.0, b).1;
    } else {
      assert a + b == b;
      assert Replay(s, a) == (s, []);
      assert Replay(s, a).1 + Replay(s, b).1 == Replay(s, b).1;
    }
  }

  /** One cycle from a state with no armed timer. */
  lemma CycleReplay(s: SchedulerState, outcome: SendOutcome, start: nat)
    requires s.timers == []
    ensures FiresOnTime(s, Cycle(outcome, start, DeleteInterval))
    ensures Replay(s, Cycle(outcome, start, DeleteInterval)).0 ==
      SchedulerState(if outcome.Sent? then Some(outcome.messageId) else s.lastMessageId, [])
    ensures Replay(s, Cycle(outcome, start, DeleteInterval)).1 ==
      (if outcome.Sent? && outcome.messageId != 0 then [outcome.messageId] else [])
  {
    var c := Cycle(outcome, start, DeleteInterval);
    var s1 := Step(s, c[0].event).next;
    if outcome.Sent? {
      var id := outcome.messageId;
      assert s1 == SchedulerState(Some(id), [start + DeleteInterval]);
      var fire := Timed(start + DeleteInterval, TimerFires);
      assert c[1..] == [fire];
      var r2 := Step(s1, TimerFires);
      assert r2.next == SchedulerState(Some(id), []);
      assert r2.deleted == (if id != 0 then Some(id) else None);
      assert Replay(r2.next, c[1..][1..]) == (r2.next, []);
      assert Replay(s1, c[1..]).1 == (if id != 0 then [id] else []);
    } else {
      assert s1 == s;
      assert c[1..] == [];
    }
  }

  /** Running the cycles from a state with no armed timer: every timer fires
      at the time it was armed for, the ids deleted are exactly the ids of
      the successful sends, in order, each deleted in its own cycle, and the
      slot keeps the last sent id (it is never cleared). */
  lemma {:induction false} CyclesReplay(s: SchedulerState, outcomes: seq<SendOutcome>, start: nat, sendIv: nat)
    requires s.timers == []
    ensures FiresOnTime(s, Cycles(outcomes, start, sendIv, DeleteInterval))
    ensures Replay(s, Cycles(outcomes, start, sendIv, DeleteInterval)).1 == OwnIds(outcomes)
    ensures Replay(s, Cycles(outcomes, start, sendIv, DeleteInterval)).0 == SchedulerState(LastSent(outcomes, s.lastMessageId), [])
    decreases |outcomes|
  {
    if outcomes != [] {
      var c := Cycle(outcomes[0], start, DeleteInterval);
      var rest := Cycles(outcomes[1..], start + sendIv, sendIv, DeleteInterval);
      CycleReplay(s, outcomes[0], start);
      var s1 := Replay(s, c).0;
      CyclesReplay(s1, outcomes[1..], start + sendIv, sendIv);
      ReplayConcat(s, c, rest);
    }
  }

  /** The scheduler as configured: ads and timer firings alternate in time,
      every firing finds the timer armed for it, and the ids deleted are
      exactly those of the ads sent. */
  lemma AdsDeleteOwnMessage(outcomes: seq<SendOutcome>)
    ensures Chronological(Cycles(outcomes, 0, SendInterval, DeleteInterval))
    ensures FiresOnTime(Initial, Cycles(outcomes, 0, SendInterval, DeleteInterval))
    ensures Replay(Initial, Cycles(outcomes, 0, SendInterval, DeleteInterval)).1 == OwnIds(outcomes)
  {
    AdTimingHolds(outcomes);
    CyclesReplay(Initial, outcomes, 0, SendInterval);
  }

  /** Why the ordering matters: the timer reads the slot when it fires, not
      when it was armed. Were the send interval no longer than the delete
      interval, both timers would delete the second ad and the first would
      stay in the chat. */
  lemma LateTimersDeleteNewest(first: int, second: int, sendIv: nat)
    requires first != 0 && second != 0
    requires 0 < sendIv <= DeleteInterval
    ensures FiresOnTime(Initial, [
      Timed(0, SendAt(0, Sent(first))),
      Timed(sendIv, SendAt(sendIv, Sent(second))),
      Timed(DeleteInterval, TimerFires),
      Timed(sendIv + DeleteInterval, TimerFires)])
    ensures Replay(Initial, [
      Timed(0, SendAt(0, Sent(first))),
      Timed(sendIv, SendAt(sendIv, Sent(second))),
      Timed(DeleteInterval, TimerFires),
      Timed(sendIv + DeleteInterval, TimerFires)]).1 == [second, second]
  {
    var events := [
      Timed(0, SendAt(0, Sent(first))),
      Timed(sendIv, SendAt(sendIv, Sent(second))),
      Timed(DeleteInterval, TimerFires),
      Timed(sendIv + DeleteInterval, TimerFires)];
    var s1 := Step(Initial, events[0].event).next;
    var s2 := Step(s1, events[1].event).next;
    var s3 := Step(s2, events[2].event).next;
    assert s2 == SchedulerState(Some(second), [DeleteInterval, sendIv + DeleteInterval]);
    assert Step(s2, TimerFires).deleted == Some(second);
    assert s3 == SchedulerState(Some(second), [sendIv + DeleteInterval]);
    assert Step(s3, TimerFires).deleted == Some(second);
    assert events[1..][1..] == events[2..] && events[2..][1..] == events[3..] && events[3..][1..] == [];
    assert Replay(s3, events[3..]).1 == [second];
    assert Replay(s2, events[2..]).1 == [second, second];
    assert FiresOnTime(s3, events[3..]);
    assert FiresOnTime(s2, events[2..]);
    assert FiresOnTime(s1, events[1..]);
  }
}
