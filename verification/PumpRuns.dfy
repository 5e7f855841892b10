/** The session and the pump closed together over any radio. */
module PumpRuns {
  import opened Bytes
  import opened Session
  import opened Pump
  import opened SessionRuns
  import SessionHistory
  import SessionLedger
  import Cbc
  import Justin
  import MobileKey
  import Ssp
  import Stack

  // ------------------------------------------------- the observer's phases

  /** A monitor over effects: the last phase reported, or -1 once a phase repeats, goes back, or the link is dropped. */
  function Mark(level: int, e: Effect): int {
    if level < 0 || e.Disconnect? then -1
    else if !e.Phased? then level
    else if Rank(Report(e.phase)) > level then Rank(Report(e.phase))
    else -1
  }

  function Marks(log: seq<Effect>): int {
    if log == [] then 0 else Mark(Marks(log[..|log| - 1]), log[|log| - 1])
  }

  lemma MarksPush(log: seq<Effect>, e: Effect)
    ensures Marks(log + [e]) == Mark(Marks(log), e)
  {
    assert (log + [e])[..|log|] == log;
  }

  /** The phases the observer saw, in strictly increasing order. */
  ghost predicate PhasesInOrder(log: seq<Effect>) {
    forall i, j :: 0 <= i < j < |log| && log[i].Phased? && log[j].Phased? ==>
      Rank(Report(log[i].phase)) < Rank(Report(log[j].phase))
  }

  ghost predicate PhasesUpTo(log: seq<Effect>, level: int) {
    forall i :: 0 <= i < |log| && log[i].Phased? ==> 1 <= Rank(Report(log[i].phase)) <= level
  }

  lemma ExtendPhases(log: seq<Effect>, level: int, last: Effect)
    requires PhasesInOrder(log) && PhasesUpTo(log, level) && Mark(level, last) >= 0
    ensures PhasesInOrder(log + [last]) && PhasesUpTo(log + [last], Mark(level, last))
  {
  }

  /** What an unbroken monitor says about the effects it saw. */
  lemma {:induction false} MarksMean(log: seq<Effect>)
    requires Marks(log) >= 0
    ensures Disconnect !in log
    ensures PhasesInOrder(log) && PhasesUpTo(log, Marks(log))
    ensures Marks(log) <= 7 && (Marks(log) == 7 <==> Phased(Finished) in log)
  {
    if log == [] {
    } else {
      hide PhasesInOrder, PhasesUpTo, Mark;
      var before, last := log[..|log| - 1], log[|log| - 1];
      assert log == before + [last];
      MarkMeans(Marks(before), last);
      MarksMean(before);
      ExtendPhases(before, Marks(before), last);
      LastIn(before, last, Disconnect);
      LastIn(before, last, Phased(Finished));
    }
  }

  lemma MarkMeans(level: int, e: Effect)
    requires Mark(level, e) >= 0
    ensures level >= 0 && !e.Disconnect?
    ensures level <= 7 ==> Mark(level, e) <= 7 && (Mark(level, e) == 7 <==> level == 7 || e == Phased(Finished))
  {
  }

  lemma LastIn(log: seq<Effect>, last: Effect, e: Effect)
    ensures e in log + [last] <==> e in log || e == last
  {
  }

  // ------------------------------------------------- one batch

  predicate JustFinished(log: seq<Effect>) {
    log != [] && log[|log| - 1] == Phased(Finished)
  }

  /** The observer has seen no more phases than the session has passed, and the last one exactly at the end. */
  predicate Follows(log: seq<Effect>, level: int) {
    0 <= Marks(log) <= level && (Marks(log) == 7 <==> level >= 7) && (level >= 7 ==> JustFinished(log))
  }

  predicate FailedCall(e: Effect) {
    (e.Wrote? || e.Subscribed?) && e.failure.Some?
  }

  predicate Calls(a: Action, e: Effect) {
    (a.Write? && e.Wrote? && e.data == a.data) || (a.Subscribe? && e.Subscribed?)
  }

  /** How a batch may leave the loop. */
  predicate LeftProperly(t: Turn, actions: seq<Action>)
    requires t.exit.Some?
  {
    match t.exit.value
    case Ended(result) =>
      && Marks(t.world.log) == 7 && JustFinished(t.world.log)
      && actions != [] && actions[|actions| - 1] == Done(result)
    case Failed(_) =>
      && 0 <= Marks(t.world.log) < 7
      && t.world.log != [] && FailedCall(t.world.log[|t.world.log| - 1])
      && (exists i :: 0 <= i < |actions| && Calls(actions[i], t.world.log[|t.world.log| - 1]))
  }

  /** The announcement and the reading leave one or two marks, none of them a phase. */
  lemma DoReads(radio: Radio, t: Turn, a: Action)
    requires t.exit.None? && (a.AnnounceAppProtocol? || a.ReadProtocolInfo?)
    requires Marks(t.world.log) >= 0
    ensures Do(radio, t, a).exit.None? && Marks(Do(radio, t, a).world.log) == Marks(t.world.log)
  {
    hide Marks;
    var w, log := t.world, Do(radio, t, a).world.log;
    var first := log[|w.log|];
    MarksPush(w.log, first);
    if |log| == |w.log| + 2 {
      assert log == w.log + [first] + [log[|w.log| + 1]];
      MarksPush(w.log + [first], log[|w.log| + 1]);
    }
  }

  lemma DoCalls(radio: Radio, t: Turn, a: Action)
    requires t.exit.None? && (a.Write? || a.Subscribe?) && 0 <= Marks(t.world.log) < 7
    ensures var t' := Do(radio, t, a);
      && Marks(t'.world.log) == Marks(t.world.log)
      && (t'.exit.Some? ==> LeftProperly(t', [a]))
  {
    hide Marks;
    var t' := Do(radio, t, a);
    MarksPush(t.world.log, t'.world.log[|t.world.log|]);
    assert Calls([a][0], t'.world.log[|t'.world.log| - 1]);
  }

  /** Notes, pauses and phases leave one mark; only the finished phase takes the monitor to its end. */
  lemma DoTells(radio: Radio, t: Turn, a: Action, level: int)
    requires t.exit.None? && (a.Note? || a.Pause? || a.Report?)
    requires Watch(level, a) >= 0 && Follows(t.world.log, level) && level < 7
    ensures var t' := Do(radio, t, a); t'.exit.None? && Follows(t'.world.log, Watch(level, a))
  {
    hide Marks;
    var log := t.world.log;
    var e := Do(radio, t, a).world.log[|log|];
    MarksPush(log, e);
  }

  lemma DoEnds(radio: Radio, t: Turn, a: Action, level: int)
    requires t.exit.None? && a.Done? && Watch(level, a) >= 0 && Follows(t.world.log, level)
    ensures var t' := Do(radio, t, a); t'.exit.Some? && LeftProperly(t', [a])
  {
    hide Marks;
  }

  /** At the finished phase only the end may follow. */
  lemma LevelAllows(level: int, a: Action)
    requires Watch(level, a) >= 0 && level < 8
    ensures a.Done? <==> level == 7
    ensures !a.Done? && !a.Report? ==> 0 <= Watch(level, a) < 7
    ensures a.Write? || a.SetTimer? || a.Note? || a.Pause? ==> Watch(level, a) == level
    ensures level <= Watch(level, a)
  {
  }

  lemma DoFollows(radio: Radio, t: Turn, a: Action, level: int)
    requires t.exit.None? && Watch(level, a) >= 0 && Follows(t.world.log, level) && level < 8
    ensures var t' := Do(radio, t, a);
      && (t'.exit.None? ==> Follows(t'.world.log, Watch(level, a)) && !a.Done?)
      && (t'.exit.Some? ==> LeftProperly(t', [a]))
  {
    hide Marks, Watch, LeftProperly, JustFinished;
    LevelAllows(level, a);
    if a.AnnounceAppProtocol? || a.ReadProtocolInfo? {
      DoReads(radio, t, a);
    } else if a.Write? || a.Subscribe? {
      DoCalls(radio, t, a);
    } else if a.Note? || a.Pause? || a.Report? {
      DoTells(radio, t, a, level);
    } else if a.Done? {
      DoEnds(radio, t, a, level);
    }
  }

  lemma {:induction false} DoAllFollows(radio: Radio, t: Turn, a: seq<Action>, level: int)
    requires t.exit.None? && WatchAll(level, a) >= 0 && Follows(t.world.log, level) && level < 8
    ensures var t' := DoAll(radio, t, a);
      && (t'.exit.None? ==> Follows(t'.world.log, WatchAll(level, a)) && WatchAll(level, a) < 8)
      && (t'.exit.Some? ==> LeftProperly(t', a))
      && (t'.exit.Some? && t'.exit.value.Ended? ==> DoAll(radio, t, a[..|a| - 1]).exit.None?)
  {
    hide Follows, LeftProperly;
    if a != [] {
      var before, last := a[..|a| - 1], a[|a| - 1];
      assert a == before + [last];
      WatchJoin(level, before, [last]);
      WatchOne(WatchAll(level, before), last);
      DoAllFollows(radio, t, before, level);
      var now := DoAll(radio, t, before);
      if now.exit.None? {
        DoFollows(radio, now, last, WatchAll(level, before));
        LeftLast(DoAll(radio, t, a), before, last);
      } else if now.exit.value.Ended? {
        WatchEnded(level, before);
        assert false;
      } else {
        FailedStays(now, before, last);
      }
    }
  }

  lemma LeftLast(t: Turn, a: seq<Action>, last: Action)
    ensures t.exit.Some? && LeftProperly(t, [last]) ==> LeftProperly(t, a + [last])
  {
    hide Marks, JustFinished;
    if t.exit.Some? && LeftProperly(t, [last]) && t.exit.value.Failed? {
      var i :| 0 <= i < 1 && Calls([last][i], t.world.log[|t.world.log| - 1]);
      assert (a + [last])[|a|] == last;
    }
  }

  lemma FailedStays(t: Turn, a: seq<Action>, next: Action)
    requires t.exit.Some? && t.exit.value.Failed? && LeftProperly(t, a)
    ensures LeftProperly(t, a + [next])
  {
    var i :| 0 <= i < |a| && Calls(a[i], t.world.log[|t.world.log| - 1]);
    assert (a + [next])[i] == a[i];
  }

  lemma WatchEnded(level: int, a: seq<Action>)
    requires a != [] && a[|a| - 1].Done? && WatchAll(level, a) >= 0
    ensures WatchAll(level, a) == 8
  {
    var before := a[..|a| - 1];
    assert a == before + [a[|a| - 1]];
    WatchJoin(level, before, [a[|a| - 1]]);
    WatchOne(WatchAll(level, before), a[|a| - 1]);
  }

  lemma DoDeadline(radio: Radio, t: Turn, a: Action, l: SessionLedger.Ledger)
    requires Do(radio, t, a).exit.None? && t.deadline == l.armed
    ensures t.exit.None? && Do(radio, t, a).deadline == SessionLedger.Tally(l, a).armed
  {
  }

  /** The bytes the radio was asked to write, in order. */
  function SentOver(log: seq<Effect>): seq<bytes> {
    if log == [] then []
    else SentOver(log[..|log| - 1]) + if log[|log| - 1].Wrote? then [log[|log| - 1].data] else []
  }

  lemma SentPush(log: seq<Effect>, e: Effect)
    ensures SentOver(log + [e]) == SentOver(log) + if e.Wrote? then [e.data] else []
  {
    assert (log + [e])[..|log|] == log;
  }

  /** The bytes the session asked to have written, the announcement included, in order. */
  function Wire(a: seq<Action>): seq<bytes> {
    if a == [] then [] else Wire(a[..|a| - 1]) + WireOne(a[|a| - 1])
  }

  function WireOne(a: Action): seq<bytes> {
    if a.Write? then [a.data] else if a.AnnounceAppProtocol? then [[0xC0, 0x01, 0x01]] else []
  }

  lemma {:induction false} WireJoin(a: seq<Action>, b: seq<Action>)
    ensures Wire(a + b) == Wire(a) + Wire(b)
  {
    if b == [] {
      assert a + b == a;
    } else {
      assert (a + b)[..|a + b| - 1] == a + b[..|b| - 1];
      WireJoin(a, b[..|b| - 1]);
    }
  }

  /** What was seen of the session's requests, in order; failures and the pump's own remarks aside. */
  function Seen(log: seq<Effect>): seq<Effect> {
    if log == [] then [] else Seen(log[..|log| - 1]) + SeenOne(log[|log| - 1])
  }

  function SeenOne(e: Effect): seq<Effect> {
    match e
    case Wrote(data, _) => [Wrote(data, None)]
    case Subscribed(_) => [Subscribed(None)]
    case Traced(remark) => if remark.FromSession? then [e] else []
    case _ => [e]
  }

  /** What some actions are to show. */
  function Asks(a: seq<Action>): seq<Effect> {
    if a == [] then [] else Asks(a[..|a| - 1]) + AsksOne(a[|a| - 1])
  }

  function AsksOne(a: Action): seq<Effect> {
    match a
    case AnnounceAppProtocol => [Wrote([0xC0, 0x01, 0x01], None)]
    case ReadProtocolInfo(ms) => [ReadNotify(ms)]
    case Subscribe => [Subscribed(None)]
    case Write(data) => [Wrote(data, None)]
    case Pause(ms) => [Slept(ms)]
    case Report(phase) => [Phased(phase)]
    case Note(trace) => [Traced(FromSession(trace))]
    case SetTimer(_, _) => []
    case Done(_) => []
  }

  lemma {:induction false} AsksJoin(a: seq<Action>, b: seq<Action>)
    ensures Asks(a + b) == Asks(a) + Asks(b)
  {
    hide AsksOne;
    if b == [] {
      assert a + b == a;
    } else {
      assert (a + b)[..|a + b| - 1] == a + b[..|b| - 1];
      AsksJoin(a, b[..|b| - 1]);
    }
  }

  lemma SeenPush(log: seq<Effect>, e: Effect)
    ensures Seen(log + [e]) == Seen(log) + SeenOne(e)
  {
    assert (log + [e])[..|log|] == log;
  }

  lemma SentOne(log: seq<Effect>, more: seq<Effect>)
    requires |more| <= 1
    ensures SentOver(log + more) == SentOver(log) + if more != [] && more[0].Wrote? then [more[0].data] else []
  {
    if more == [] {
      assert log + more == log;
    } else {
      assert more == [more[0]];
      SentPush(log, more[0]);
    }
  }

  lemma SeenOneBytes(e: Effect)
    ensures |SeenOne(e)| <= 1
    ensures (if SeenOne(e) != [] && SeenOne(e)[0].Wrote? then [SeenOne(e)[0].data] else [])
         == if e.Wrote? then [e.data] else []
  {
  }

  /** The bytes among what was seen and what was asked for are the bytes sent and the wire. */
  lemma {:induction false} SeenBytes(log: seq<Effect>)
    ensures SentOver(Seen(log)) == SentOver(log)
  {
    hide SeenOne;
    if log != [] {
      SeenBytes(log[..|log| - 1]);
      SeenOneBytes(log[|log| - 1]);
      SentOne(Seen(log[..|log| - 1]), SeenOne(log[|log| - 1]));
    }
  }

  lemma AskedOne(a: Action)
    ensures |AsksOne(a)| <= 1
    ensures WireOne(a) == if AsksOne(a) != [] && AsksOne(a)[0].Wrote? then [AsksOne(a)[0].data] else []
  {
  }

  lemma {:induction false} AskedBytes(a: seq<Action>)
    ensures SentOver(Asks(a)) == Wire(a)
  {
    hide AsksOne, WireOne;
    if a != [] {
      AskedBytes(a[..|a| - 1]);
      AskedOne(a[|a| - 1]);
      SentOne(Asks(a[..|a| - 1]), AsksOne(a[|a| - 1]));
    }
  }

  lemma {:induction false} SentPrefix(log: seq<Effect>, n: nat)
    requires n <= |log|
    ensures SentOver(log[..n]) <= SentOver(log)
  {
    if n < |log| {
      assert log[..|log| - 1][..n] == log[..n];
      SentPrefix(log[..|log| - 1], n);
    } else {
      assert log[..n] == log;
    }
  }

  lemma DoSeen(radio: Radio, t: Turn, a: Action)
    requires t.exit.None?
    ensures Seen(Do(radio, t, a).world.log) == Seen(t.world.log) + AsksOne(a)
  {
    hide Seen;
    var was, log := t.world.log, Do(radio, t, a).world.log;
    if |log| > |was| {
      SeenPush(was, log[|was|]);
      if |log| == |was| + 2 {
        assert log == was + [log[|was|]] + [log[|was| + 1]];
        SeenPush(was + [log[|was|]], log[|was| + 1]);
      }
    }
  }

  /** A prefix of what the batch asks for is seen, and all of it unless a call fails. */
  lemma {:induction false} DoAllSeen(radio: Radio, t: Turn, a: seq<Action>)
    requires t.exit.None?
    ensures var t' := DoAll(radio, t, a);
      && Seen(t'.world.log) <= Seen(t.world.log) + Asks(a)
      && (t'.exit.None? || (t'.exit.value.Ended? && a != [] && DoAll(radio, t, a[..|a| - 1]).exit.None?) ==>
        Seen(t'.world.log) == Seen(t.world.log) + Asks(a))
  {
    hide Do, Seen, AsksOne;
    if a != [] {
      var before, last := a[..|a| - 1], a[|a| - 1];
      DoAllSeen(radio, t, before);
      var now := DoAll(radio, t, before);
      var seen, asks := Seen(t.world.log), Asks(before);
      assert seen + (asks + AsksOne(last)) == seen + asks + AsksOne(last);
      if now.exit.None? {
        DoSeen(radio, now, last);
      } else {
        LeftStays(radio, now, last);
      }
    } else {
      assert Seen(t.world.log) + Asks(a) == Seen(t.world.log);
    }
  }

  /** Nothing happens once the loop is left. */
  lemma LeftStays(radio: Radio, t: Turn, a: Action)
    requires t.exit.Some?
    ensures Do(radio, t, a) == t
  {
  }

  // ------------------------------------------------- what failed calls do

  function WritesIn(log: seq<Effect>): nat {
    if log == [] then 0 else WritesIn(log[..|log| - 1]) + if log[|log| - 1].Wrote? then 1 else 0
  }

  function SubscribesIn(log: seq<Effect>): nat {
    if log == [] then 0 else SubscribesIn(log[..|log| - 1]) + if log[|log| - 1].Subscribed? then 1 else 0
  }

  /** Each call got the answer the radio had for it. */
  ghost predicate Truthful(radio: Radio, log: seq<Effect>) {
    forall i :: 0 <= i < |log| ==>
      && (log[i].Wrote? ==> log[i].failure == radio.write(WritesIn(log[..i])))
      && (log[i].Subscribed? ==> log[i].failure == radio.subscribe(SubscribesIn(log[..i])))
  }

  /** The only failed calls are announcements, and each is remarked on. */
  ghost predicate Tolerated(log: seq<Effect>) {
    forall i :: 0 <= i < |log| && FailedCall(log[i]) ==>
      log[i].Wrote? && log[i].data == [0xC0, 0x01, 0x01] && i + 1 < |log| && log[i + 1] == Traced(AnnounceFailed)
  }

  /** The calls made so far, as counted and as logged. */
  ghost predicate Recorded(radio: Radio, w: World) {
    w.writes == WritesIn(w.log) && w.subscribes == SubscribesIn(w.log) && Truthful(radio, w.log)
  }

  /** No failed call so far, but for tolerated ones and the one that ended the loop, if it did. */
  ghost predicate FailedLast(log: seq<Effect>, exit: Option<Exit>) {
    if exit.Some? && exit.value.Failed? then
      && log != [] && FailedCall(log[|log| - 1]) && log[|log| - 1].failure == Some(exit.value.error)
      && Tolerated(log[..|log| - 1])
    else Tolerated(log)
  }

  lemma RecordedPush(radio: Radio, log: seq<Effect>, e: Effect)
    requires Truthful(radio, log)
    requires e.Wrote? ==> e.failure == radio.write(WritesIn(log))
    requires e.Subscribed? ==> e.failure == radio.subscribe(SubscribesIn(log))
    ensures Truthful(radio, log + [e])
    ensures WritesIn(log + [e]) == WritesIn(log) + if e.Wrote? then 1 else 0
    ensures SubscribesIn(log + [e]) == SubscribesIn(log) + if e.Subscribed? then 1 else 0
  {
    var all := log + [e];
    assert all[..|log|] == log;
    forall i | 0 <= i < |all|
      ensures all[i].Wrote? ==> all[i].failure == radio.write(WritesIn(all[..i]))
      ensures all[i].Subscribed? ==> all[i].failure == radio.subscribe(SubscribesIn(all[..i]))
    {
      if i < |log| {
        assert all[..i] == log[..i];
      }
    }
  }

  lemma DoRecords(radio: Radio, t: Turn, a: Action)
    requires t.exit.None? && Recorded(radio, t.world) && Tolerated(t.world.log)
    ensures var t' := Do(radio, t, a); Recorded(radio, t'.world) && FailedLast(t'.world.log, t'.exit)
  {
    hide WritesIn, SubscribesIn, Truthful;
    var was, log := t.world.log, Do(radio, t, a).world.log;
    if |log| > |was| {
      RecordedPush(radio, was, log[|was|]);
      if |log| == |was| + 2 {
        assert log == was + [log[|was|]] + [log[|was| + 1]];
        RecordedPush(radio, was + [log[|was|]], log[|was| + 1]);
      } else {
        assert log[..|was|] == was;
      }
    }
  }

  lemma {:induction false} DoAllRecords(radio: Radio, t: Turn, a: seq<Action>)
    requires t.exit.None? && Recorded(radio, t.world) && Tolerated(t.world.log)
    ensures var t' := DoAll(radio, t, a); Recorded(radio, t'.world) && FailedLast(t'.world.log, t'.exit)
  {
    hide Do, Recorded, Tolerated;
    if a != [] {
      var before := a[..|a| - 1];
      DoAllRecords(radio, t, before);
      var now := DoAll(radio, t, before);
      if now.exit.None? {
        DoRecords(radio, now, a[|a| - 1]);
      } else {
        LeftStays(radio, now, a[|a| - 1]);
      }
    }
  }

  /** While the loop is not left, the remembered deadline is the last timer the session set. */
  lemma {:induction false} DoAllDeadline(radio: Radio, t: Turn, a: seq<Action>, l: SessionLedger.Ledger)
    requires DoAll(radio, t, a).exit.None? && t.deadline == l.armed
    ensures DoAll(radio, t, a).deadline == SessionLedger.TallyAll(l, a).armed
  {
    if a != [] {
      var before, last := a[..|a| - 1], a[|a| - 1];
      assert a == before + [last];
      SessionLedger.TallyJoin(l, before, [last]);
      SessionLedger.TallyTwo(SessionLedger.TallyAll(l, before), last, last);
      assert DoAll(radio, t, before).exit.None?;
      DoAllDeadline(radio, t, before, l);
      DoDeadline(radio, DoAll(radio, t, before), last, SessionLedger.TallyAll(l, before));
    }
  }

  // ------------------------------------------------- the closed loop

  /** The event the loop holds is one the session's state expects. */
  predicate Fits(s: Session, e: Event) {
    match s.state
    case Idle => e.Started?
    case Detecting => e.ProtocolInfo?
    case V0200(_) => e.Notification? || e.Timer? || e.LinkClosed?
    case V0100(_, _) => e.Notification? || e.Timer? || e.LinkClosed?
  }

  /** Between rounds: the session is where the events fed so far lead, and waits for what the loop holds. */
  ghost predicate Steady(env: Ssp.Env, radio: Radio, key: MobileKey.Key, options: Options, l: Loop) {
    && l.session == Reached(env, New(key, options), l.fed) && !l.session.finished
    && l.deadline == SessionLedger.Totals(env, key, options, l.fed).armed
    && Follows(l.world.log, Level(l.session))
    && Seen(l.world.log) == Asks(Emitted(env, New(key, options), l.fed))
    && Recorded(radio, l.world) && Tolerated(l.world.log)
  }

  /** A timer event names the timer that is armed. */
  predicate Timely(l: Loop) {
    l.pending.Timer? ==> l.deadline.Some? && l.pending.id == l.deadline.value.0
  }

  function Batch(env: Ssp.Env, radio: Radio, l: Loop): Turn {
    DoAll(radio, Turn(l.world, None, l.deadline, None), Poll(env, l.session, l.pending).1)
  }

  /** The loop has nothing to wait for: the branch the source calls asked for nothing and did not finish. */
  predicate Stuck(env: Ssp.Env, radio: Radio, l: Loop) {
    var t := Batch(env, radio, l);
    t.exit.None? && t.info.None? && t.deadline.None?
  }

  /** The session answers this event with its complaint about the shell. */
  predicate Complains(env: Ssp.Env, s: Session, e: Event) {
    Done(Err(InvalidState(UnexpectedEvent))) in Poll(env, s, e).1
  }

  /** The rounds a pump makes, each as the loop enters it. */
  function Rounds(env: Ssp.Env, radio: Radio, l: Loop): seq<Loop>
    decreases Budget(radio, l)
  {
    var p := Iterate(env, radio, l);
    if p.Going? then
      BudgetFalls(env, radio, l);
      [l] + Rounds(env, radio, p.loop)
    else [l]
  }

  /** One batch against the session's history. */
  lemma BatchKeeps(env: Ssp.Env, radio: Radio, key: MobileKey.Key, options: Options, l: Loop)
    requires Steady(env, radio, key, options, l)
    ensures var (s, t, fed) := (Poll(env, l.session, l.pending).0, Batch(env, radio, l), l.fed + [l.pending]);
      && s == Reached(env, New(key, options), fed)
      && (t.exit.None? ==>
        && !s.finished && t.deadline == SessionLedger.Totals(env, key, options, fed).armed
        && Follows(t.world.log, Level(s)))
      && (t.exit.Some? ==> LeftProperly(t, Poll(env, l.session, l.pending).1))
      && Seen(t.world.log) <= Asks(Emitted(env, New(key, options), fed))
      && (t.exit.None? || t.exit.value.Ended? ==> Seen(t.world.log) == Asks(Emitted(env, New(key, options), fed)))
      && Recorded(radio, t.world) && FailedLast(t.world.log, t.exit)
  {
    hide Poll, Do;
    var fed, out := l.fed + [l.pending], Poll(env, l.session, l.pending).1;
    assert fed[..|fed| - 1] == l.fed;
    WatchPoll(env, l.session, l.pending);
    DoAllFollows(radio, Turn(l.world, None, l.deadline, None), out, Level(l.session));
    DoAllSeen(radio, Turn(l.world, None, l.deadline, None), out);
    DoAllRecords(radio, Turn(l.world, None, l.deadline, None), out);
    AsksJoin(Emitted(env, New(key, options), l.fed), out);
    if Batch(env, radio, l).exit.None? {
      SessionLedger.TallyJoin(SessionLedger.BLANK, Emitted(env, New(key, options), l.fed), out);
      DoAllDeadline(radio, Turn(l.world, None, l.deadline, None), out,
                    SessionLedger.Totals(env, key, options, l.fed));
    }
  }

  lemma BeginReadsNothing(s: Session, major: Option<byte>)
    ensures forall i :: 0 <= i < |Begin(s, major).1| ==> !Begin(s, major).1[i].ReadProtocolInfo?
  {
  }

  /** After a batch that stays in the loop there is protocol info to hand in exactly while detecting. */
  lemma InfoWhileDetecting(env: Ssp.Env, radio: Radio, l: Loop)
    requires !l.session.finished && Fits(l.session, l.pending) && Batch(env, radio, l).exit.None?
    ensures var s := Poll(env, l.session, l.pending).0;
      Batch(env, radio, l).info.Some? <==> !s.finished && s.state.Detecting?
  {
    hide PollV0200, PollV0100, KeyFor, StartFlow;
    var s, t, out := l.session, Turn(l.world, None, l.deadline, None), Poll(env, l.session, l.pending).1;
    MovesOn(env, s, l.pending);
    if !l.pending.Started? {
      ReadsOnlyAtStart(env, s, l.pending);
      DoAllReads(radio, t, out);
    } else if s.options.detection == NoDetection || !s.options.notifyReadable {
      BeginReadsNothing(s, None);
      var note := if s.options.detection == NoDetection then DetectionSkipped else NotReadable;
      assert out == [Report(DetectingVersion), Note(Info(note))] + Begin(s, None).1;
      DoAllReads(radio, t, out);
    } else {
      assert out[|out| - 1].ReadProtocolInfo?;
    }
  }

  lemma StackComplaints(env: Ssp.Env, store: Justin.KeyStore, stack: Stack.Stack, packet: bytes)
    ensures Stack.HandlePacket(env, store, stack, packet).1 != Err(InvalidState(UnexpectedEvent))
  {
    hide Cbc.Decrypt, Cbc.LastBlock, Ssp.Seal, Justin.ReadTag, Justin.WriteTag;
  }

  lemma NeverUnexpected(env: Ssp.Env, s: Session, e: Event)
    requires !s.finished && Fits(s, e)
    ensures !Complains(env, s, e)
  {
    hide PollV0200;
    if s.state.V0200? {
      NeverUnexpectedV0200(env, s, e);
    }
  }

  lemma NeverUnexpectedV0200(env: Ssp.Env, s: Session, e: Event)
    requires !s.finished && s.state.V0200? && Fits(s, e)
    ensures !Complains(env, s, e)
  {
    if e.Notification? {
      StackComplaints(env, Justin.NoopStore(), s.state.flow.stack, e.packet);
    }
  }

  /** An attempt leaves the idle state at once, and detection when the reading is handed in. */
  lemma MovesOn(env: Ssp.Env, s: Session, e: Event)
    requires !s.finished && Fits(s, e)
    ensures var s' := Poll(env, s, e).0;
      s'.finished || s'.state.V0200? || s'.state.V0100? || (s'.state.Detecting? && s.state.Idle?)
  {
    hide Stack.HandlePacket, KeyFor, StartFlow, Answered;
  }

  /** Only the reply to an accepted CLOSE is written in a batch that also ends the session. */
  lemma FinishingBatch(env: Ssp.Env, s: Session, e: Event)
    requires !s.finished && Poll(env, s, e).0.finished
    ensures var (s', out) := Poll(env, s, e);
      forall i :: 0 <= i < |out| && (out[i].Write? || out[i].Subscribe?) ==>
        && out[i].Write? && e.Notification? && s.state.V0200?
        && var (stack, reply) := Stack.HandlePacket(env, Justin.NoopStore(), s.state.flow.stack, e.packet);
        reply.Ok? && stack.justin.state == Justin.Ready
  {
    hide KeyFor, StartFlow;
    hide Stack.HandlePacket, Cbc.Encrypt;
  }

  /** How the loop stands once it is left. */
  ghost predicate Finale(env: Ssp.Env, radio: Radio, key: MobileKey.Key, options: Options, l: Loop, exit: Exit) {
    && l.session == Reached(env, New(key, options), l.fed)
    && Seen(l.world.log) <= Asks(Emitted(env, New(key, options), l.fed))
    && (exit.Ended? ==> Seen(l.world.log) == Asks(Emitted(env, New(key, options), l.fed)))
    && Recorded(radio, l.world) && FailedLast(l.world.log, Some(exit))
    && match exit
       case Ended(result) =>
         && l.session.finished && Marks(l.world.log) == 7 && JustFinished(l.world.log)
         && SessionLedger.Totals(env, key, options, l.fed).result == Some(result)
       case Failed(_) =>
         && 0 <= Marks(l.world.log) < 7
         && l.world.log != [] && FailedCall(l.world.log[|l.world.log| - 1])
  }

  lemma AwaitKeeps(env: Ssp.Env, radio: Radio, key: MobileKey.Key, options: Options, l: Loop)
    requires Steady(env, radio, key, options, l) && (l.session.state.V0200? || l.session.state.V0100?)
    ensures l.deadline.Some? && !Await(radio, l).Left?
    ensures Await(radio, l).Going? ==>
      var n := Await(radio, l).loop; Steady(env, radio, key, options, n) && Fits(n.session, n.pending) && Timely(n)
  {
    hide Poll, Seen, Asks, Emitted, Reached, Marks, WritesIn, SubscribesIn, Truthful, Tolerated, EventOf;
    hide SessionLedger.TallyAll, Stack.HandlePacket;
    SessionLedger.TimerAgreement(env, key, options, l.fed);
    if Await(radio, l).Going? {
      AwaitFollows(radio, l);
    }
  }

  /** The event a reception becomes while this timer is armed. */
  function EventOf(r: Reception, armed: TimerId): Event {
    match r
    case Packet(data) => Notification(data)
    case Closed => LinkClosed
    case Broken => LinkClosed
    case Expired => Timer(armed)
  }

  /** Remarking on a broken link changes nothing else. */
  lemma Broke(radio: Radio, log: seq<Effect>)
    ensures var log' := log + [Traced(LinkBroken)];
      && Marks(log') == Marks(log) && Seen(log') == Seen(log)
      && (Tolerated(log) ==> Tolerated(log'))
      && (Truthful(radio, log) ==>
        Truthful(radio, log') && WritesIn(log') == WritesIn(log) && SubscribesIn(log') == SubscribesIn(log))
  {
    hide Seen, Truthful, WritesIn, SubscribesIn;
    MarksPush(log, Traced(LinkBroken));
    SeenPush(log, Traced(LinkBroken));
    assert Seen(log) + [] == Seen(log);
    if Truthful(radio, log) {
      RecordedPush(radio, log, Traced(LinkBroken));
    }
  }

  lemma AwaitFollows(radio: Radio, l: Loop)
    requires l.deadline.Some? && Await(radio, l).Going?
    ensures var n := Await(radio, l).loop;
      && n == l.(world := n.world, pending := n.pending) && Marks(n.world.log) == Marks(l.world.log)
      && Seen(n.world.log) == Seen(l.world.log)
      && (Recorded(radio, l.world) ==> Recorded(radio, n.world))
      && (Tolerated(l.world.log) ==> Tolerated(n.world.log))
      && (n.pending.Notification? || n.pending.Timer? || n.pending.LinkClosed?)
      && (n.pending.Timer? ==> n.pending.id == l.deadline.value.0)
      && n.world.received == l.world.received + 1 && l.world.received < |radio.receptions|
      && n.pending == EventOf(radio.receptions[l.world.received], l.deadline.value.0)
  {
    hide Marks, Seen, Truthful, Tolerated, WritesIn, SubscribesIn;
    Broke(radio, l.world.log);
  }

  lemma EndedResult(
    env: Ssp.Env, key: MobileKey.Key, options: Options, fed: seq<Event>, e: Event, result: Result<Outcome>)
    requires var out := Poll(env, Reached(env, New(key, options), fed), e).1;
      out != [] && out[|out| - 1] == Done(result)
    ensures Reached(env, New(key, options), fed + [e]).finished
    ensures SessionLedger.Totals(env, key, options, fed + [e]).result == Some(result)
  {
    hide Poll;
    SessionLedger.TallyDone(SessionLedger.Totals(env, key, options, fed),
                            Poll(env, Reached(env, New(key, options), fed), e).1, result);
    SessionLedger.TotalsStep(env, key, options, fed, e);
    SessionLedger.LedgerRun(env, key, options, fed + [e]);
  }

  /** One round from a steady loop: steady again, or properly left; never stuck. */
  lemma RoundKeeps(env: Ssp.Env, radio: Radio, key: MobileKey.Key, options: Options, l: Loop)
    requires Steady(env, radio, key, options, l) && Fits(l.session, l.pending)
    ensures !Stuck(env, radio, l)
    ensures var p := Iterate(env, radio, l);
      && (p.Going? ==>
        Steady(env, radio, key, options, p.loop) && Fits(p.loop.session, p.loop.pending) && Timely(p.loop))
      && (p.Left? ==> Finale(env, radio, key, options, p.loop, p.exit))
  {
    if Batch(env, radio, l).exit.Some? {
      RoundLeft(env, radio, key, options, l);
    } else {
      var s, t := Poll(env, l.session, l.pending).0, Batch(env, radio, l);
      BatchKeeps(env, radio, key, options, l);
      InfoWhileDetecting(env, radio, l);
      MovesOn(env, l.session, l.pending);
      if t.info.None? {
        AwaitKeeps(env, radio, key, options, Loop(s, l.pending, t.deadline, t.world, l.fed + [l.pending]));
      }
    }
  }

  lemma RoundLeft(env: Ssp.Env, radio: Radio, key: MobileKey.Key, options: Options, l: Loop)
    requires Steady(env, radio, key, options, l) && Batch(env, radio, l).exit.Some?
    ensures var p := Iterate(env, radio, l); p.Left? && Finale(env, radio, key, options, p.loop, p.exit)
  {
    hide Poll, Do;
    var s, t := Poll(env, l.session, l.pending).0, Batch(env, radio, l);
    BatchKeeps(env, radio, key, options, l);
    if t.exit.value.Ended? {
      EndedResult(env, key, options, l.fed, l.pending, t.exit.value.result);
    }
  }

  /** The loop a pump starts with. */
  function Start(key: MobileKey.Key, options: Options): Loop {
    Loop(New(key, options), Started, None, World(0, 0, 0, 0, []), [])
  }

  lemma StartSteady(env: Ssp.Env, radio: Radio, key: MobileKey.Key, options: Options)
    ensures var l := Start(key, options); Steady(env, radio, key, options, l) && Fits(l.session, l.pending) && Timely(l)
  {
  }

  lemma {:induction false} RoundsAreSound(env: Ssp.Env, radio: Radio, key: MobileKey.Key, options: Options, l: Loop)
    requires Steady(env, radio, key, options, l) && Fits(l.session, l.pending) && Timely(l)
    ensures forall r :: r in Rounds(env, radio, l) ==>
      Steady(env, radio, key, options, r) && Fits(r.session, r.pending) && Timely(r) && !Stuck(env, radio, r)
    decreases Budget(radio, l)
  {
    hide Iterate, Steady, Fits, Timely, Stuck;
    RoundKeeps(env, radio, key, options, l);
    var p := Iterate(env, radio, l);
    if p.Going? {
      BudgetFalls(env, radio, l);
      RoundsAreSound(env, radio, key, options, p.loop);
    }
  }

  /**
   * The closed system: from a fresh session, over any radio, no round hands the session an event it complains
   * about, no round ends with nothing to wait for, and a timer is handed in only as the one the session set last.
   */
  lemma ClosedSystem(env: Ssp.Env, radio: Radio, key: MobileKey.Key, options: Options)
    ensures forall r :: r in Rounds(env, radio, Start(key, options)) ==>
      && !Complains(env, r.session, r.pending) && !Stuck(env, radio, r)
      && (r.pending.Timer? ==>
        exists ms: u32 :: SessionLedger.Totals(env, key, options, r.fed).armed == Some((r.pending.id, ms)))
  {
    hide Rounds, Stuck, Complains, Fits;
    StartSteady(env, radio, key, options);
    RoundsAreSound(env, radio, key, options, Start(key, options));
    forall r | r in Rounds(env, radio, Start(key, options))
      ensures !Complains(env, r.session, r.pending)
      ensures r.pending.Timer? ==>
        exists ms: u32 :: SessionLedger.Totals(env, key, options, r.fed).armed == Some((r.pending.id, ms))
    {
      NeverUnexpected(env, r.session, r.pending);
      if r.pending.Timer? {
        assert SessionLedger.Totals(env, key, options, r.fed).armed == Some((r.pending.id, r.deadline.value.1));
      }
    }
  }

  lemma {:induction false} PumpEnds(env: Ssp.Env, radio: Radio, key: MobileKey.Key, options: Options, l: Loop)
    requires Steady(env, radio, key, options, l) && Fits(l.session, l.pending)
    ensures var p := Drive(env, radio, l); p.Left? ==> Finale(env, radio, key, options, p.loop, p.exit)
    decreases Budget(radio, l)
  {
    hide Iterate, Finale;
    RoundKeeps(env, radio, key, options, l);
    var p := Iterate(env, radio, l);
    if p.Going? {
      BudgetFalls(env, radio, l);
      PumpEnds(env, radio, key, options, p.loop);
    }
  }

  lemma TornDown(before: seq<Effect>, finished: bool)
    requires 0 <= Marks(before) <= 7 && (!finished ==> Marks(before) < 7)
    ensures var log := (if finished then before else before + [Phased(Finished)]) + [Disconnect];
      && Disconnect !in log[..|log| - 1] && PhasesInOrder(log)
      && (Phased(Finished) in log <==> !finished || Marks(before) == 7)
      && (!finished || JustFinished(before) ==> JustFinished(log[..|log| - 1]))
  {
    hide Marks;
    if finished {
      MarksMean(before);
      Disconnected(before);
    } else {
      MarksPush(before, Phased(Finished));
      MarksMean(before + [Phased(Finished)]);
      Disconnected(before + [Phased(Finished)]);
    }
  }

  lemma Disconnected(body: seq<Effect>)
    requires PhasesInOrder(body) && Disconnect !in body
    ensures PhasesInOrder(body + [Disconnect])
    ensures (body + [Disconnect])[..|body + [Disconnect]| - 1] == body
    ensures Phased(Finished) in body + [Disconnect] <==> Phased(Finished) in body
  {
  }

  // ------------------------------------------------- which events are handed in

  /** What the reading becomes. */
  function InfoOf(r: Reading): Option<bytes> {
    if r.Answer? then Some(r.info) else None
  }

  /** The attempt looks for the version first. */
  predicate Looks(options: Options) {
    options.detection != NoDetection && options.notifyReadable
  }

  lemma {:induction false} DoAllJoin(radio: Radio, t: Turn, a: seq<Action>, b: seq<Action>)
    ensures DoAll(radio, t, a + b) == DoAll(radio, DoAll(radio, t, a), b)
  {
    hide Do;
    if b == [] {
      assert a + b == a;
    } else {
      assert (a + b)[..|a + b| - 1] == a + b[..|b| - 1];
      DoAllJoin(radio, t, a, b[..|b| - 1]);
    }
  }

  lemma DoTwo(radio: Radio, t: Turn, a: Action, b: Action)
    ensures DoAll(radio, t, [a]) == Do(radio, t, a)
    ensures DoAll(radio, t, [a, b]) == Do(radio, Do(radio, t, a), b)
  {
    hide Do;
    assert [a][..0] == [] && [a, b][..1] == [a];
  }

  lemma DetectionRead(radio: Radio, t: Turn, announce: seq<Action>, read: Action)
    requires t.exit.None? && read.ReadProtocolInfo?
    requires announce == [] || announce == [AnnounceAppProtocol]
    ensures var t' := DoAll(radio, t, [Report(DetectingVersion)] + announce + [read]);
      && t'.exit.None? && t'.world.received == t.world.received
      && t'.info == Some(InfoOf(radio.read(t.world.readings)))
  {
    var first := [Report(DetectingVersion)];
    DoAllJoin(radio, t, first + announce, [read]);
    DoAllJoin(radio, t, first, announce);
    DoTwo(radio, t, Report(DetectingVersion), read);
    DoTwo(radio, DoAll(radio, t, first), AnnounceAppProtocol, read);
    DoTwo(radio, DoAll(radio, t, first + announce), read, read);
  }

  /** The reading becomes the protocol info. */
  lemma ReadingFollows(env: Ssp.Env, radio: Radio, l: Loop)
    requires !l.session.finished && Fits(l.session, l.pending) && Poll(env, l.session, l.pending).0.state.Detecting?
    requires !Poll(env, l.session, l.pending).0.finished
    ensures l.session.state.Idle?
    ensures var t := Batch(env, radio, l);
      t.exit.None? && t.world.received == l.world.received && t.info == Some(InfoOf(radio.read(l.world.readings)))
  {
    hide PollV0200, PollV0100, KeyFor, StartFlow, Do, DoAll;
    MovesOn(env, l.session, l.pending);
    var read := ReadProtocolInfo(l.session.options.timeouts.protocolInfoReadMs);
    var announce := if l.session.options.detection == AppProtocol then [AnnounceAppProtocol] else [];
    assert Poll(env, l.session, l.pending).1 == [Report(DetectingVersion)] + announce + [read];
    DetectionRead(radio, Turn(l.world, None, l.deadline, None), announce, read);
  }

  /** From one round to the next: the event is appended to the history, and the next is what the radio gave. */
  ghost predicate HandsIn(env: Ssp.Env, radio: Radio, key: MobileKey.Key, options: Options, r: Loop, n: Loop) {
    && n.fed == r.fed + [r.pending] && !n.session.finished && !n.session.state.Idle?
    && if n.session.state.Detecting? then
         && r.session.state.Idle? && n.world.received == r.world.received
         && n.pending == ProtocolInfo(InfoOf(radio.read(r.world.readings)))
       else
         var armed := SessionLedger.Totals(env, key, options, n.fed).armed;
         && armed.Some? && r.world.received < |radio.receptions| && n.world.received == r.world.received + 1
         && n.pending == EventOf(radio.receptions[r.world.received], armed.value.0)
  }

  lemma RoundHandsIn(env: Ssp.Env, radio: Radio, key: MobileKey.Key, options: Options, l: Loop)
    requires Steady(env, radio, key, options, l) && Fits(l.session, l.pending) && Iterate(env, radio, l).Going?
    ensures HandsIn(env, radio, key, options, l, Iterate(env, radio, l).loop)
  {
    hide Poll, Do, DoAll, Fits;
    var s, t := Poll(env, l.session, l.pending).0, Batch(env, radio, l);
    BatchKeeps(env, radio, key, options, l);
    InfoWhileDetecting(env, radio, l);
    MovesOn(env, l.session, l.pending);
    DoAllReceived(radio, Turn(l.world, None, l.deadline, None), Poll(env, l.session, l.pending).1);
    if s.state.Detecting? {
      ReadingFollows(env, radio, l);
    } else {
      AwaitFollows(radio, Loop(s, l.pending, t.deadline, t.world, l.fed + [l.pending]));
    }
  }

  /** Rounds follow each other. */
  lemma {:induction false} NextRound(env: Ssp.Env, radio: Radio, l: Loop, i: nat)
    requires i + 1 < |Rounds(env, radio, l)|
    ensures var p := Iterate(env, radio, Rounds(env, radio, l)[i]);
      p.Going? && p.loop == Rounds(env, radio, l)[i + 1] && Rounds(env, radio, l)[0] == l
    decreases i
  {
    hide Iterate;
    var p := Iterate(env, radio, l);
    BudgetFalls(env, radio, l);
    if i > 0 {
      NextRound(env, radio, p.loop, i - 1);
    }
  }

  /**
   * What the session is handed, round by round: the start, then the protocol info if it looks for the version, and
   * from then on the receptions in order, an expired wait as the timer armed last. Nothing is skipped or repeated.
   */
  lemma {:induction false} EventsHandedIn(
    env: Ssp.Env, radio: Radio, key: MobileKey.Key, options: Options, i: nat)
    requires i < |Rounds(env, radio, Start(key, options))|
    ensures var (rounds, looking) := (Rounds(env, radio, Start(key, options)), if Looks(options) then 1 else 0);
      var r := rounds[i];
      && |r.fed| == i && (i > 0 ==> r.fed == rounds[i - 1].fed + [rounds[i - 1].pending])
      && r.world.received == (if i > looking then i - looking else 0)
      && if i == 0 then r.pending == Started
         else if Looks(options) && i == 1 then r.pending == ProtocolInfo(InfoOf(radio.read(0)))
         else
           var armed := SessionLedger.Totals(env, key, options, r.fed).armed;
           && armed.Some? && i - 1 - looking < |radio.receptions|
           && r.pending == EventOf(radio.receptions[i - 1 - looking], armed.value.0)
  {
    hide Iterate, Steady, Fits, Timely, Stuck, SessionLedger.Totals;
    var rounds := Rounds(env, radio, Start(key, options));
    if i > 0 {
      EventsHandedIn(env, radio, key, options, i - 1);
      StartSteady(env, radio, key, options);
      RoundsAreSound(env, radio, key, options, Start(key, options));
      NextRound(env, radio, Start(key, options), i - 1);
      assert rounds[i - 1] in rounds && rounds[i] in rounds;
      RoundHandsIn(env, radio, key, options, rounds[i - 1]);
      DetectingIsSecond(env, radio, key, options, rounds[i]);
    }
  }

  /** A session in the loop is detecting exactly after the start, if it looks for the version. */
  lemma DetectingIsSecond(env: Ssp.Env, radio: Radio, key: MobileKey.Key, options: Options, l: Loop)
    requires Steady(env, radio, key, options, l)
    ensures l.session.state.Detecting? <==> |l.fed| == 1 && Looks(options)
  {
    hide Poll, SessionLedger.TallyAll, SessionHistory.ResultOf, SessionHistory.PacketsIn;
    SessionHistory.RunOnTrack(env, key, options, l.fed);
  }

  // ------------------------------------------------- the farewell

  /** The packet brings Justin a CLOSE, and is answered. */
  predicate AnswersClose(env: Ssp.Env, stack: Stack.Stack, packet: bytes) {
    var c := SessionLedger.Delivered(env, stack, packet);
    && c.Some? && c.value.data != [] && c.value.data[0] == 0x01
    && Stack.HandlePacket(env, Justin.NoopStore(), stack, packet).1.Ok?
  }

  /** In this round the lock's CLOSE is accepted, and the radio refuses the write that answers it. */
  predicate LosesFarewell(env: Ssp.Env, radio: Radio, r: Loop) {
    && r.session.state.V0200? && r.pending.Notification?
    && AnswersClose(env, r.session.state.flow.stack, r.pending.packet)
    && radio.write(r.world.writes).Some?
  }

  /** Leaving the loop in this round, with the refused write of the stack's reply as the last effect. */
  predicate EndsWithReply(env: Ssp.Env, radio: Radio, r: Loop, p: Progress)
    requires r.session.state.V0200? && r.pending.Notification?
  {
    var reply := Stack.HandlePacket(env, Justin.NoopStore(), r.session.state.flow.stack, r.pending.packet).1;
    var failure := radio.write(r.world.writes);
    && reply.Ok? && failure.Some? && p.Left? && p.exit == Failed(failure.value)
    && p.loop.world.log != [] && p.loop.world.log[|p.loop.world.log| - 1] == Wrote(reply.value, failure)
  }

  /** Somewhere along the rounds the answer to an accepted CLOSE cannot be written. */
  ghost predicate CloseReplyFails(env: Ssp.Env, radio: Radio, key: MobileKey.Key, options: Options) {
    exists r :: r in Rounds(env, radio, Start(key, options)) && LosesFarewell(env, radio, r)
  }

  /** A connected Justin is left ready exactly by an accepted CLOSE. */
  lemma ReadyByClose(env: Ssp.Env, stack: Stack.Stack, packet: bytes)
    requires stack.justin.state == Justin.Connected
    ensures var (stack', r) := Stack.HandlePacket(env, Justin.NoopStore(), stack, packet);
      AnswersClose(env, stack, packet) <==> r.Ok? && stack'.justin.state == Justin.Ready
  {
    hide Ssp.ProcessPacket, Ssp.WrapData, Ssp.IsControl, Ssp.IsEncrypted;
    SessionLedger.DeliveredStep(env, stack, stack.justin, packet);
  }

  /** Notes and phases make no calls. */
  lemma {:induction false} DoAllTold(radio: Radio, t: Turn, a: seq<Action>)
    requires t.exit.None? && forall i :: 0 <= i < |a| ==> a[i].Note? || a[i].Report?
    ensures var t' := DoAll(radio, t, a); t'.exit.None? && t'.world.writes == t.world.writes
  {
    if a != [] {
      DoAllTold(radio, t, a[..|a| - 1]);
    }
  }

  /** A batch with a single write, the rest telling and an end: it fails exactly when the write does. */
  lemma OneWrite(radio: Radio, t: Turn, front: seq<Action>, reply: bytes, told: seq<Action>, result: Result<Outcome>)
    requires t.exit.None?
    requires forall i :: 0 <= i < |front| ==> front[i].Note? || front[i].Report?
    requires forall i :: 0 <= i < |told| ==> told[i].Note? || told[i].Report?
    ensures var t' := DoAll(radio, t, front + [Write(reply)] + (told + [Done(result)]));
      var failure := radio.write(t.world.writes);
      if failure.Some? then
        && t'.exit == Some(Failed(failure.value))
        && t'.world.log != [] && t'.world.log[|t'.world.log| - 1] == Wrote(reply, failure)
      else t'.exit == Some(Ended(result))
  {
    hide Marks;
    var back := told + [Done(result)];
    var all := front + [Write(reply)] + back;
    DoAllTold(radio, t, front);
    DoAllJoin(radio, t, front, [Write(reply)]);
    DoAllJoin(radio, t, front + [Write(reply)], back);
    var written := DoAll(radio, t, front + [Write(reply)]);
    if written.exit.Some? {
      assert back[..0] == [];
      DoAllStays(radio, written, back, 0);
    } else {
      DoAllTold(radio, written, told);
      assert back[..|told|] == told;
    }
  }

  /** The batch that answers an accepted CLOSE. */
  lemma ClosingBatch(env: Ssp.Env, radio: Radio, r: Loop)
    requires r.session.state.V0200? && !r.session.finished && r.pending.Notification?
    requires var (stack, reply) :=
        Stack.HandlePacket(env, Justin.NoopStore(), r.session.state.flow.stack, r.pending.packet);
      reply.Ok? && stack.justin.state == Justin.Ready
    ensures var reply := Stack.HandlePacket(env, Justin.NoopStore(), r.session.state.flow.stack, r.pending.packet).1;
      var (t, failure) := (Batch(env, radio, r), radio.write(r.world.writes));
      && Poll(env, r.session, r.pending).0.finished
      && if failure.Some? then
           && t.exit == Some(Failed(failure.value))
           && t.world.log != [] && t.world.log[|t.world.log| - 1] == Wrote(reply.value, failure)
         else t.exit.Some? && t.exit.value.Ended?
  {
    hide KeyFor, StartFlow;
    hide Stack.HandlePacket;
    var s, packet := r.session, r.pending.packet;
    var (stack, reply) := Stack.HandlePacket(env, Justin.NoopStore(), s.state.flow.stack, packet);
    var f := s.state.flow.(stack := stack);
    var refused := if stack.justin.knReadRefusals > f.tracedKnRefusals then [Note(Info(RefusedKnKey))] else [];
    var report := if !f.exchanging && stack.ssp.state == Ssp.InSession then [Report(Exchanging)] else [];
    var front := [Note(Rx(packet)), Note(Tx(reply.value))] + refused;
    var result := Ok(NewOutcome(2, Answered(f, reply.value).0.finalOpResult));
    var told := report + [Report(Finished)];
    assert Poll(env, s, r.pending).1 == front + [Write(reply.value)] + (told + [Done(result)]);
    OneWrite(radio, Turn(r.world, None, r.deadline, None), front, reply.value, told, result);
  }

  /** Leaving by a failed call with the session finished takes the answer to an accepted CLOSE. */
  lemma LostRound(env: Ssp.Env, radio: Radio, key: MobileKey.Key, options: Options, r: Loop)
    requires Steady(env, radio, key, options, r)
    ensures var (s, t) := (Poll(env, r.session, r.pending).0, Batch(env, radio, r));
      s.finished && t.exit.Some? && t.exit.value.Failed? ==>
        && r.session.state.V0200? && r.pending.Notification?
        && var (stack, reply) :=
          Stack.HandlePacket(env, Justin.NoopStore(), r.session.state.flow.stack, r.pending.packet);
        reply.Ok? && stack.justin.state == Justin.Ready
  {
    hide Stack.HandlePacket, Poll;
    BatchKeeps(env, radio, key, options, r);
    if Poll(env, r.session, r.pending).0.finished {
      FinishingBatch(env, r.session, r.pending);
    }
  }

  /** A steady round loses the farewell exactly when it leaves the loop by a failed call with the session finished. */
  lemma RoundLosesFarewell(env: Ssp.Env, radio: Radio, key: MobileKey.Key, options: Options, r: Loop)
    requires Steady(env, radio, key, options, r) && Fits(r.session, r.pending)
    ensures var p := Iterate(env, radio, r);
      LosesFarewell(env, radio, r) <==> p.Left? && FarewellLost(p.loop, p.exit)
    ensures LosesFarewell(env, radio, r) ==> EndsWithReply(env, radio, r, Iterate(env, radio, r))
  {
    hide Stack.HandlePacket, SessionLedger.Delivered, Poll;
    RoundKeeps(env, radio, key, options, r);
    if r.session.state.V0200? && r.pending.Notification? {
      var (stack, packet) := (r.session.state.flow.stack, r.pending.packet);
      SessionLedger.StillConnected(env, key, options, r.fed);
      ReadyByClose(env, stack, packet);
      var (stack', reply) := Stack.HandlePacket(env, Justin.NoopStore(), stack, packet);
      if reply.Ok? && stack'.justin.state == Justin.Ready {
        ClosingBatch(env, radio, r);
      }
    }
    LostRound(env, radio, key, options, r);
  }

  /** A pump ends as its last round does; only that round leaves the loop. */
  lemma {:induction false} LastRound(env: Ssp.Env, radio: Radio, l: Loop)
    ensures var rounds := Rounds(env, radio, l);
      && rounds != [] && Drive(env, radio, l) == Iterate(env, radio, rounds[|rounds| - 1])
      && forall r :: r in rounds && Iterate(env, radio, r).Left? ==> Iterate(env, radio, r) == Drive(env, radio, l)
    decreases Budget(radio, l)
  {
    hide Iterate;
    var p := Iterate(env, radio, l);
    DriveStep(env, radio, l, p);
    if p.Going? {
      LastRound(env, radio, p.loop);
    }
  }

  /** The session reported the end but the farewell could not be written. */
  predicate FarewellLost(l: Loop, exit: Exit) {
    l.session.finished && exit.Failed?
  }

  /** The farewell is lost exactly when the answer to an accepted CLOSE cannot be written; that answer comes last. */
  lemma FarewellLostExactly(env: Ssp.Env, radio: Radio, key: MobileKey.Key, options: Options)
    ensures var p := Drive(env, radio, Start(key, options));
      CloseReplyFails(env, radio, key, options) <==> p.Left? && FarewellLost(p.loop, p.exit)
    ensures forall r :: r in Rounds(env, radio, Start(key, options)) && LosesFarewell(env, radio, r) ==>
      EndsWithReply(env, radio, r, Drive(env, radio, Start(key, options)))
  {
    hide Iterate, Drive, Rounds, Steady, Fits, Timely, EndsWithReply;
    var l := Start(key, options);
    var rounds := Rounds(env, radio, l);
    StartSteady(env, radio, key, options);
    RoundsAreSound(env, radio, key, options, l);
    LastRound(env, radio, l);
    RoundLosesFarewell(env, radio, key, options, rounds[|rounds| - 1]);
    forall r | r in rounds && LosesFarewell(env, radio, r)
      ensures EndsWithReply(env, radio, r, Drive(env, radio, l))
      ensures var p := Drive(env, radio, l); p.Left? && FarewellLost(p.loop, p.exit)
    {
      RoundLosesFarewell(env, radio, key, options, r);
    }
  }

  /**
   * Teardown: whenever `run_session` returns, the link is dropped once and after everything else, and the observer
   * saw phases in order. The finished phase came just before the teardown, except if and only if the answer to an
   * accepted CLOSE could not be written: then that write came last, and the finished phase never.
   */
  lemma Teardown(env: Ssp.Env, radio: Radio, key: MobileKey.Key, options: Options)
    requires RunSession(env, radio, New(key, options), World(0, 0, 0, 0, [])).Left?
    ensures var p := RunSession(env, radio, New(key, options), World(0, 0, 0, 0, []));
      var log := p.loop.world.log;
      && log != [] && log[|log| - 1] == Disconnect && Disconnect !in log[..|log| - 1]
      && PhasesInOrder(log)
      && (Phased(Finished) in log <==> !CloseReplyFails(env, radio, key, options))
      && (!CloseReplyFails(env, radio, key, options) ==> JustFinished(log[..|log| - 1]))
  {
    hide Drive, CloseReplyFails;
    var p := Drive(env, radio, Start(key, options));
    StartSteady(env, radio, key, options);
    PumpEnds(env, radio, key, options, Start(key, options));
    FarewellLostExactly(env, radio, key, options);
    TornDown(p.loop.world.log, p.loop.session.finished);
  }

  /** A radio that refuses every write, with a lock that sends a plaintext CLOSE at once. */
  function RefusingRadio(): Radio {
    Radio(_ => Some(TransportFailed), _ => None, _ => NoAnswer, [Reception.Packet([0x00, 0x01])])
  }

  /** It does happen: any key, detection off, a plaintext CLOSE first, and a radio that cannot write the answer. */
  lemma FarewellCanBeLost(env: Ssp.Env, key: MobileKey.Key, options: Options)
    requires options.detection == NoDetection
    ensures var p := RunSession(env, RefusingRadio(), New(key, options), World(0, 0, 0, 0, []));
      p.Left? && p.loop.session.finished && Phased(Finished) !in p.loop.world.log
  {
    var radio, l := RefusingRadio(), Start(key, options);
    var p := Iterate(env, radio, l);
    FirstRound(env, radio, key, options);
    BudgetFalls(env, radio, l);
    var r := p.loop;
    assert Rounds(env, radio, l) == [l] + Rounds(env, radio, r);
    assert r in Rounds(env, radio, r);
    PlainClose(env, r.session.state.flow.stack);
    assert LosesFarewell(env, radio, r);
    FarewellLostExactly(env, radio, key, options);
    Teardown(env, radio, key, options);
  }

  /** With detection off, the first round subscribes and waits for the first reception. */
  lemma FirstRound(env: Ssp.Env, radio: Radio, key: MobileKey.Key, options: Options)
    requires options.detection == NoDetection || !options.notifyReadable
    requires radio.subscribe(0).None? && radio.receptions != [] && radio.receptions[0].Packet?
    ensures var p := Iterate(env, radio, Start(key, options));
      && p.Going? && p.loop.pending == Notification(radio.receptions[0].data)
      && p.loop.world.writes == 0 && p.loop.world.received == 1 && p.loop.fed == [Started]
      && p.loop.session == New(key, options).(state := V0200(StartFlow(KeyFor(key, options.mode))))
  {
    hide KeyFor, StartFlow, PollV0200, PollV0100, PollDetecting;
    var note := if options.detection == NoDetection then DetectionSkipped else NotReadable;
    var front := [Report(DetectingVersion), Note(Info(note))];
    var t := Turn(World(0, 0, 0, 0, []), None, None, None);
    var timer := SetTimer(FirstPacket, options.timeouts.firstPacketMs);
    var out := Poll(env, New(key, options), Started).1;
    assert out == front + [Subscribe, Report(Authenticating)] + [timer];
    DoTwo(radio, t, front[0], front[1]);
    DoAllJoin(radio, t, front, [Subscribe, Report(Authenticating)]);
    DoTwo(radio, DoAll(radio, t, front), Subscribe, Report(Authenticating));
    DoAllJoin(radio, t, front + [Subscribe, Report(Authenticating)], [timer]);
    DoTwo(radio, DoAll(radio, t, front + [Subscribe, Report(Authenticating)]), timer, timer);
  }

  lemma PlainClose(env: Ssp.Env, stack: Stack.Stack)
    requires stack.justin.state == Justin.Connected
    ensures AnswersClose(env, stack, [0x00, 0x01])
  {
    hide Ssp.ProcessPacket, Ssp.WrapData;
    var packet: bytes := [0x00, 0x01];
    assert packet[1..] == [0x01];
  }

  /**
   * Everything the session asks for is seen, in order: writes, the reading, the subscription, pauses, phases and
   * traces; all of it unless a call failed, and nothing else.
   */
  lemma ObserverSeesAll(env: Ssp.Env, radio: Radio, key: MobileKey.Key, options: Options)
    requires Drive(env, radio, Start(key, options)).Left?
    ensures var p := Drive(env, radio, Start(key, options));
      var asked := Asks(Emitted(env, New(key, options), p.loop.fed));
      && Seen(p.loop.world.log) <= asked
      && (p.exit.Ended? ==> Seen(p.loop.world.log) == asked)
  {
    hide Drive, Steady, Fits;
    StartSteady(env, radio, key, options);
    PumpEnds(env, radio, key, options, Start(key, options));
  }

  /**
   * Every call gets the radio's answer to it, and a refused one is the last thing that happens and the error that is
   * returned, except that a refused announcement is remarked on and tolerated.
   */
  lemma FailuresEnd(env: Ssp.Env, radio: Radio, key: MobileKey.Key, options: Options)
    requires Drive(env, radio, Start(key, options)).Left?
    ensures var p := Drive(env, radio, Start(key, options));
      Truthful(radio, p.loop.world.log) && FailedLast(p.loop.world.log, Some(p.exit))
  {
    hide Drive, Steady, Fits, FailedLast, Truthful;
    StartSteady(env, radio, key, options);
    PumpEnds(env, radio, key, options, Start(key, options));
  }

  /** The radio is asked to write what the session wrote, in order: all of it unless a call failed. */
  lemma RadioSeesTheWire(env: Ssp.Env, radio: Radio, key: MobileKey.Key, options: Options)
    requires Drive(env, radio, Start(key, options)).Left?
    ensures var p := Drive(env, radio, Start(key, options));
      var wire := Wire(Emitted(env, New(key, options), p.loop.fed));
      && SentOver(p.loop.world.log) <= wire
      && (p.exit.Ended? ==> SentOver(p.loop.world.log) == wire)
  {
    hide Drive, Emitted, Steady, Fits, Seen, Asks;
    var p := Drive(env, radio, Start(key, options));
    var log, out := p.loop.world.log, Emitted(env, New(key, options), p.loop.fed);
    ObserverSeesAll(env, radio, key, options);
    SeenBytes(log);
    AskedBytes(out);
    assert Asks(out)[..|Seen(log)|] == Seen(log);
    SentPrefix(Asks(out), |Seen(log)|);
  }

  /** What `run_session` returns is the session's own result, unless a call failed. */
  lemma ReturnsTheResult(env: Ssp.Env, radio: Radio, key: MobileKey.Key, options: Options)
    requires var p := Drive(env, radio, Start(key, options)); p.Left? && p.exit.Ended?
    ensures var p := Drive(env, radio, Start(key, options));
      SessionLedger.Totals(env, key, options, p.loop.fed).result == Some(p.exit.result)
  {
    PumpEnds(env, radio, key, options, Start(key, options));
  }
}
