/** The opening attempt over whole runs of events: what every sequence of polls emits. */
module SessionRuns {
  import opened Bytes
  import opened Session
  import MobileKey
  import Justin
  import Ssp
  import Stack

  /** The session after some events. */
  function Reached(env: Ssp.Env, s: Session, events: seq<Event>): Session {
    if events == [] then s
    else Poll(env, Reached(env, s, events[..|events| - 1]), events[|events| - 1]).0
  }

  /** Everything it asked for on the way. */
  function Emitted(env: Ssp.Env, s: Session, events: seq<Event>): seq<Action> {
    if events == [] then []
    else
      Emitted(env, s, events[..|events| - 1])
      + Poll(env, Reached(env, s, events[..|events| - 1]), events[|events| - 1]).1
  }

  // ------------------------------------------------- the shape of a run

  /** The milestones of an attempt, in the order they must come; 0 is no milestone. */
  function Rank(a: Action): nat {
    match a
    case Report(DetectingVersion) => 1
    case AnnounceAppProtocol => 2
    case ReadProtocolInfo(_) => 3
    case Subscribe => 4
    case Report(Authenticating) => 5
    case Report(Exchanging) => 6
    case Report(Finished) => 7
    case Done(_) => 8
    case _ => 0
  }

  /** Actions that need notifications enabled. */
  predicate NeedsSubscription(a: Action) {
    a.Write? || a.SetTimer? || a.Pause?
  }

  /** A monitor holding the last milestone passed, or -1 once the order is broken. */
  function Watch(level: int, a: Action): int {
    if level < 0 || level == 8 then -1
    else if level == 7 then (if a.Done? then 8 else -1)
    else if Rank(a) == 0 then (if NeedsSubscription(a) && level < 4 then -1 else level)
    else if a.Done? || Rank(a) <= level || (level < 4 && 4 < Rank(a) < 7) then -1
    else Rank(a)
  }

  function WatchAll(level: int, a: seq<Action>): int
    decreases a
  {
    if a == [] then level else WatchAll(Watch(level, a[0]), a[1..])
  }

  /** The last milestone a session in this state has passed. */
  function Level(s: Session): int {
    if s.finished then 8
    else
      match s.state
      case Idle => 0
      case Detecting => 3
      case V0200(flow) => if flow.exchanging then 6 else 5
      case V0100(_, step) => if step == AwaitingResult then 6 else 5
  }

  lemma {:induction false} WatchJoin(level: int, a: seq<Action>, b: seq<Action>)
    ensures WatchAll(level, a + b) == WatchAll(WatchAll(level, a), b)
    decreases a
  {
    if a == [] {
      assert a + b == b;
    } else {
      assert (a + b)[1..] == a[1..] + b;
      WatchJoin(Watch(level, a[0]), a[1..], b);
    }
  }

  lemma {:induction false} WatchBroken(level: int, a: seq<Action>)
    requires level < 0
    ensures WatchAll(level, a) < 0
    decreases a
  {
    if a != [] {
      WatchBroken(Watch(level, a[0]), a[1..]);
    }
  }

  lemma WatchOne(level: int, a: Action)
    ensures WatchAll(level, [a]) == Watch(level, a)
  {
  }

  lemma WatchTwo(level: int, a: Action, b: Action)
    ensures WatchAll(level, [a, b]) == Watch(Watch(level, a), b)
  {
    assert [a, b][1..] == [b];
    WatchOne(Watch(level, a), b);
  }

  lemma WatchFour(level: int, a: Action, b: Action, c: Action, d: Action)
    ensures WatchAll(level, [a, b, c, d]) == Watch(Watch(Watch(Watch(level, a), b), c), d)
  {
    assert [a, b, c, d] == [a, b] + [c, d];
    WatchJoin(level, [a, b], [c, d]);
    WatchTwo(level, a, b);
    WatchTwo(WatchAll(level, [a, b]), c, d);
  }

  lemma WatchFinish(level: int, s: Session, result: Result<Outcome>)
    requires 0 <= level < 7
    ensures WatchAll(level, Finish(s, result).1) == 8
  {
    WatchTwo(level, Report(Finished), Done(result));
  }

  lemma WatchBegin(level: int, s: Session, major: Option<byte>)
    requires 0 <= level <= 3 && !s.finished
    ensures WatchAll(level, Begin(s, major).1) == Level(Begin(s, major).0)
  {
    if major.Some? && major.value != 1 && major.value != 2 {
      WatchFinish(level, s, Err(InvalidProtocolVersion(major.value)));
    } else {
      var (s', rest) := if major == Some(1) then BeginV0100(s) else BeginV0200(s);
      WatchJoin(level, [Subscribe, Report(Authenticating)], rest);
      WatchTwo(level, Subscribe, Report(Authenticating));
      if major == Some(1) {
        WatchFour(5, rest[0], rest[1], rest[2], rest[3]);
      } else {
        WatchOne(5, rest[0]);
      }
    }
  }

  lemma WatchIdle(s: Session, e: Event)
    requires s.state.Idle? && !s.finished
    ensures WatchAll(0, PollIdle(s, e).1) == Level(PollIdle(s, e).0)
  {
    match e
    case Started =>
      if s.options.detection == NoDetection || !s.options.notifyReadable {
        var note := if s.options.detection == NoDetection then DetectionSkipped else NotReadable;
        WatchJoin(0, [Report(DetectingVersion), Note(Info(note))], Begin(s, None).1);
        WatchTwo(0, Report(DetectingVersion), Note(Info(note)));
        WatchBegin(1, s, None);
      } else {
        var read := ReadProtocolInfo(s.options.timeouts.protocolInfoReadMs);
        var announce := if s.options.detection == AppProtocol then [AnnounceAppProtocol] else [];
        WatchJoin(0, [Report(DetectingVersion)] + announce, [read]);
        WatchJoin(0, [Report(DetectingVersion)], announce);
        WatchOne(1, AnnounceAppProtocol);
        WatchOne(1, read);
        WatchOne(2, read);
      }
    case LinkClosed => WatchFinish(0, s, Err(Disconnected));
    case _ => WatchFinish(0, s, Err(InvalidState(UnexpectedEvent)));
  }

  lemma WatchDetecting(s: Session, e: Event)
    requires s.state.Detecting? && !s.finished
    ensures WatchAll(3, PollDetecting(s, e).1) == Level(PollDetecting(s, e).0)
  {
    match e
    case ProtocolInfo(Some(info)) =>
      if |info| >= 3 && info[0] == 0x01 {
        WatchBegin(3, s, Some(info[2]));
        WatchJoin(3, [Note(ReadBack(info))], Begin(s, Some(info[2])).1);
        WatchOne(3, Note(ReadBack(info)));
      } else {
        WatchBegin(3, s, None);
        WatchJoin(3, [Note(ReadBack(info)), Note(Info(OddProtocolInfo))], Begin(s, None).1);
        WatchTwo(3, Note(ReadBack(info)), Note(Info(OddProtocolInfo)));
      }
    case ProtocolInfo(None) =>
      WatchBegin(3, s, None);
      WatchJoin(3, [Note(Info(ReadFailed))], Begin(s, None).1);
      WatchOne(3, Note(Info(ReadFailed)));
    case LinkClosed => WatchFinish(3, s, Err(Disconnected));
    case _ => WatchFinish(3, s, Err(InvalidState(UnexpectedEvent)));
  }

  lemma WatchAnswered(level: int, f: Flow, response: bytes)
    requires level == if f.exchanging then 6 else 5
    ensures WatchAll(level, Answered(f, response).1) == if Answered(f, response).0.exchanging then 6 else 5
  {
    var enters := !f.exchanging && f.stack.ssp.state == Ssp.InSession;
    var refused := if f.stack.justin.knReadRefusals > f.tracedKnRefusals then [Note(Info(RefusedKnKey))] else [];
    var report := if enters then [Report(Exchanging)] else [];
    WatchJoin(level, [Note(Tx(response))] + refused + [Write(response)], report);
    WatchJoin(level, [Note(Tx(response))] + refused, [Write(response)]);
    WatchJoin(level, [Note(Tx(response))], refused);
    WatchOne(level, Note(Tx(response)));
    WatchOne(level, Note(Info(RefusedKnKey)));
    WatchOne(level, Write(response));
    WatchOne(level, Report(Exchanging));
  }

  /** A note in front of an ending. */
  lemma WatchNotedEnd(level: int, note: Trace, s: Session, result: Result<Outcome>)
    requires 0 <= level < 7
    ensures WatchAll(level, After([Note(note)], Finish(s, result)).1) == 8
  {
    WatchJoin(level, [Note(note)], Finish(s, result).1);
    WatchOne(level, Note(note));
    WatchFinish(level, s, result);
  }

  lemma WatchV0200Packet(env: Ssp.Env, s: Session, packet: bytes)
    requires s.state.V0200? && !s.finished
    ensures var (s', out) := PollV0200(env, s, s.state.flow, Notification(packet));
      WatchAll(Level(s), out) == Level(s')
  {
    var f := s.state.flow;
    var (stack, r) := Stack.HandlePacket(env, Justin.NoopStore(), f.stack, packet);
    var received := f.(stack := stack);
    if r.Err? {
      WatchNotedEnd(Level(s), Rx(packet), s.(state := V0200(received)), Err(r.error));
    } else {
      var (answered, out) := Answered(received, r.value);
      var level := if answered.exchanging then 6 else 5;
      WatchAnswered(Level(s), received, r.value);
      WatchJoin(Level(s), [Note(Rx(packet))], out);
      WatchOne(Level(s), Note(Rx(packet)));
      if stack.justin.state == Justin.Ready {
        var result := Ok(NewOutcome(2, answered.finalOpResult));
        WatchFinish(level, s.(state := V0200(answered)), result);
        WatchJoin(Level(s), [Note(Rx(packet))] + out, Finish(s.(state := V0200(answered)), result).1);
      } else {
        var (id, ms) := NextWait(s.options.timeouts, answered.(firstPacket := false));
        WatchJoin(Level(s), [Note(Rx(packet))] + out, [SetTimer(id, ms)]);
        WatchOne(level, SetTimer(id, ms));
      }
    }
  }

  lemma WatchV0200(env: Ssp.Env, s: Session, e: Event)
    requires s.state.V0200? && !s.finished
    ensures var (s', out) := PollV0200(env, s, s.state.flow, e); WatchAll(Level(s), out) == Level(s')
  {
    var f := s.state.flow;
    match e
    case Notification(packet) => WatchV0200Packet(env, s, packet);
    case Timer(_) =>
      WatchNotedEnd(Level(s), Info(SilentAfterResult), s, Ok(NewOutcome(2, f.finalOpResult)));
      WatchNotedEnd(Level(s), Info(NoPacket), s, Err(Timeout(NextWait(s.options.timeouts, f).1)));
    case LinkClosed => WatchNotedEnd(Level(s), Info(LockDisconnected), s, Ok(NewOutcome(2, f.finalOpResult)));
    case _ => WatchFinish(Level(s), s, Err(InvalidState(UnexpectedEvent)));
  }

  lemma WatchV0100Packet(env: Ssp.Env, s: Session, packet: bytes)
    requires s.state.V0100? && !s.finished
    ensures var (s', out) := PollV0100(env, s, s.state.knKey, s.state.step, Notification(packet));
      WatchAll(Level(s), out) == Level(s')
  {
    var step := s.state.step;
    if packet == [] || packet[0] != ExpectedPrefix(step) {
      WatchTwo(Level(s), Note(Rx(packet)), Note(Info(UnexpectedPacket)));
    } else if step == AwaitingNonce && |packet| >= 17 {
      var (s', out) := PollV0100(env, s, s.state.knKey, step, Notification(packet));
      assert out == [out[0], out[1], out[2], out[3]] + [out[4]];
      WatchJoin(5, [out[0], out[1], out[2], out[3]], [out[4]]);
      WatchFour(5, out[0], out[1], out[2], out[3]);
      WatchOne(6, out[4]);
    } else {
      WatchNotedEnd(Level(s), Rx(packet), s, Err(InvalidData(NonceTooShort)));
      WatchNotedEnd(Level(s), Rx(packet), s, Err(InvalidData(ResultTooShort)));
      if |packet| >= 2 {
        WatchNotedEnd(Level(s), Rx(packet), s, Ok(NewOutcome(1, Some(packet[1]))));
      }
    }
  }

  lemma WatchV0100(env: Ssp.Env, s: Session, e: Event)
    requires s.state.V0100? && !s.finished
    ensures var (s', out) := PollV0100(env, s, s.state.knKey, s.state.step, e); WatchAll(Level(s), out) == Level(s')
  {
    match e
    case Notification(packet) => WatchV0100Packet(env, s, packet);
    case Timer(_) =>
      WatchNotedEnd(Level(s), Info(NoPacket), s, Err(Timeout(StepWait(s.options.timeouts, s.state.step).1)));
    case LinkClosed => WatchFinish(Level(s), s, Err(Disconnected));
    case _ => WatchFinish(Level(s), s, Err(InvalidState(UnexpectedEvent)));
  }

  /** Every poll moves the monitor to the level of the state it leaves. */
  lemma WatchPoll(env: Ssp.Env, s: Session, e: Event)
    ensures WatchAll(Level(s), Poll(env, s, e).1) == Level(Poll(env, s, e).0)
  {
    if s.finished {
    } else if e.Aborted? {
      WatchFinish(Level(s), s, Err(Cancelled));
    } else {
      match s.state
      case Idle => WatchIdle(s, e);
      case Detecting => WatchDetecting(s, e);
      case V0200(_) => WatchV0200(env, s, e);
      case V0100(_, _) => WatchV0100(env, s, e);
    }
  }

  lemma {:induction false} WatchRun(env: Ssp.Env, key: MobileKey.Key, options: Options, events: seq<Event>)
    ensures WatchAll(0, Emitted(env, New(key, options), events)) == Level(Reached(env, New(key, options), events))
  {
    if events != [] {
      var before, last := events[..|events| - 1], events[|events| - 1];
      WatchRun(env, key, options, before);
      var s := Reached(env, New(key, options), before);
      WatchJoin(0, Emitted(env, New(key, options), before), Poll(env, s, last).1);
      WatchPoll(env, s, last);
    }
  }

  /** Each milestone at most once, in order. */
  ghost predicate InOrder(out: seq<Action>) {
    forall i, j :: 0 <= i < j < |out| && Rank(out[i]) > 0 && Rank(out[j]) > 0 ==> Rank(out[i]) < Rank(out[j])
  }

  /** The link is used only after the subscription. */
  ghost predicate Guarded(out: seq<Action>) {
    forall i :: 0 <= i < |out| && NeedsSubscription(out[i]) ==> Subscribe in out[..i]
  }

  /** `Done` only as the last action, directly after the finished phase. */
  ghost predicate DoneLast(out: seq<Action>) {
    forall i :: 0 <= i < |out| && out[i].Done? ==> i == |out| - 1 && i > 0 && out[i - 1] == Report(Finished)
  }

  ghost predicate UpTo(out: seq<Action>, level: int) {
    forall i :: 0 <= i < |out| ==> Rank(out[i]) <= level
  }

  lemma ExtendInOrder(out: seq<Action>, level: int, last: Action)
    requires InOrder(out) && UpTo(out, level) && (Rank(last) == 0 || Rank(last) > level) && level >= 0
    ensures InOrder(out + [last]) && UpTo(out + [last], if Rank(last) == 0 then level else Rank(last))
  {
  }

  lemma ExtendGuarded(out: seq<Action>, last: Action)
    requires Guarded(out) && (NeedsSubscription(last) ==> Subscribe in out)
    ensures Guarded(out + [last])
  {
    var all := out + [last];
    forall i | 0 <= i < |all| && NeedsSubscription(all[i]) ensures Subscribe in all[..i] {
      assert all[..i] == out[..i];
      assert out[..|out|] == out;
    }
  }

  lemma ExtendDoneLast(out: seq<Action>, last: Action)
    requires DoneLast(out) && (out == [] || !out[|out| - 1].Done?)
    requires last.Done? ==> out != [] && out[|out| - 1] == Report(Finished)
    ensures DoneLast(out + [last])
  {
  }

  lemma WatchSteps(level: int, a: Action)
    requires Watch(level, a) >= 0 && level <= 8
    ensures level >= 0 && level != 8 && Watch(level, a) == if Rank(a) == 0 then level else Rank(a)
    ensures Rank(a) == 0 || Rank(a) > level
    ensures NeedsSubscription(a) ==> 4 <= level < 7
    ensures a.Done? <==> level == 7
    ensures a.Done? <==> Watch(level, a) == 8
    ensures Watch(level, a) == 7 ==> a == Report(Finished)
    ensures 4 <= Watch(level, a) < 7 ==> a == Subscribe || 4 <= level < 7
  {
  }

  /** What an unbroken monitor says about the actions it saw. */
  lemma {:induction false} WatchMeans(a: seq<Action>)
    requires WatchAll(0, a) >= 0
    ensures InOrder(a) && Guarded(a) && DoneLast(a) && UpTo(a, WatchAll(0, a))
    ensures WatchAll(0, a) <= 8 && (4 <= WatchAll(0, a) < 7 ==> Subscribe in a)
    ensures WatchAll(0, a) == 7 ==> a != [] && a[|a| - 1] == Report(Finished)
    ensures WatchAll(0, a) == 8 <==> a != [] && a[|a| - 1].Done?
  {
    if a != [] {
      var before, last := a[..|a| - 1], a[|a| - 1];
      assert a == before + [last];
      var level := WatchAll(0, before);
      WatchJoin(0, before, [last]);
      WatchOne(level, last);
      WatchMeans(before);
      WatchSteps(level, last);
      ExtendInOrder(before, level, last);
      ExtendGuarded(before, last);
      ExtendDoneLast(before, last);
    }
  }

  predicate DoneIn(out: seq<Action>) {
    out != [] && out[|out| - 1].Done?
  }

  lemma ShapeOf(s: Session, out: seq<Action>)
    requires WatchAll(0, out) == Level(s)
    ensures InOrder(out) && Guarded(out) && DoneLast(out)
    ensures (s.finished <==> DoneIn(out)) && (Report(Finished) in out ==> s.finished)
  {
    assert Level(s) == 8 <==> s.finished;
    assert 0 <= Level(s) != 7;
    WatchMeans(out);
  }

  /**
   * The shape of every run: each phase, the read and the subscription at most once and in order, nothing
   * written or timed before the subscription, `Done` once, last, directly after the finished phase, exactly
   * when the session is finished; and the finished phase is always followed by `Done`.
   */
  lemma RunShape(env: Ssp.Env, key: MobileKey.Key, options: Options, events: seq<Event>)
    ensures InOrder(Emitted(env, New(key, options), events))
    ensures Guarded(Emitted(env, New(key, options), events))
    ensures DoneLast(Emitted(env, New(key, options), events))
    ensures Reached(env, New(key, options), events).finished <==> DoneIn(Emitted(env, New(key, options), events))
    ensures Report(Finished) in Emitted(env, New(key, options), events) ==>
      DoneIn(Emitted(env, New(key, options), events))
  {
    WatchRun(env, key, options, events);
    ShapeOf(Reached(env, New(key, options), events), Emitted(env, New(key, options), events));
  }
}
