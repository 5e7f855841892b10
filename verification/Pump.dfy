/** The radio loop around the session: crates/mkey-ble/src/pump.rs. */
module Pump {
  import opened Bytes
  import opened Session
  import SessionRuns
  import Ssp

  const APP_PROTOCOL_REQUEST: bytes := [0xC0, 0x01, 0x01]

  /** How reading the notify characteristic may end. */
  datatype Reading = Answer(info: bytes) | NoAnswer | Overdue

  /** How waiting for a notification may end. */
  datatype Reception = Packet(data: bytes) | Closed | Broken | Expired

  /**
   * Everything a radio may do, as a script: the failure, if any, of the n-th write and subscription, the n-th
   * reading, and finitely many receptions, after which the lock stays silent and no timer has expired yet.
   */
  datatype Radio = Radio(
    write: nat -> Option<Error>,
    subscribe: nat -> Option<Error>,
    read: nat -> Reading,
    receptions: seq<Reception>)

  datatype Remark =
    | AnnounceWritten
    | AnnounceFailed
    | ReadingFailed
    | ReadingOverdue
    | LinkBroken
    | FromSession(trace: Trace)

  /** What the radio and the observer see. */
  datatype Effect =
    | Wrote(data: bytes, failure: Option<Error>)
    | ReadNotify(timeoutMs: u32)
    | Subscribed(failure: Option<Error>)
    | Slept(ms: u32)
    | Phased(phase: Phase)
    | Traced(remark: Remark)
    | Disconnect

  /** Calls made so far, and everything seen so far. */
  datatype World = World(writes: nat, subscribes: nat, readings: nat, received: nat, log: seq<Effect>)

  function Log(w: World, e: Effect): World {
    w.(log := w.log + [e])
  }

  /** How the loop is left: by the session's result, or by a failed call. */
  datatype Exit = Ended(result: Result<Outcome>) | Failed(error: Error)

  /** A batch of actions being carried out. */
  datatype Turn = Turn(
    world: World,
    info: Option<Option<bytes>>,
    deadline: Option<(TimerId, u32)>,
    exit: Option<Exit>)

  /** Carry out one action; nothing happens after the loop is left. */
  function Do(radio: Radio, t: Turn, a: Action): Turn {
    var w := t.world;
    if t.exit.Some? then t
    else
      match a
      case AnnounceAppProtocol =>
        var failure := radio.write(w.writes);
        var remark := if failure.None? then AnnounceWritten else AnnounceFailed;
        t.(world := Log(Log(w.(writes := w.writes + 1), Wrote(APP_PROTOCOL_REQUEST, failure)), Traced(remark)))
      case ReadProtocolInfo(ms) =>
        var asked := Log(w.(readings := w.readings + 1), ReadNotify(ms));
        (match radio.read(w.readings)
         case Answer(info) => t.(world := asked, info := Some(Some(info)))
         case NoAnswer => t.(world := Log(asked, Traced(ReadingFailed)), info := Some(None))
         case Overdue => t.(world := Log(asked, Traced(ReadingOverdue)), info := Some(None)))
      case Subscribe =>
        var failure := radio.subscribe(w.subscribes);
        t.(world := Log(w.(subscribes := w.subscribes + 1), Subscribed(failure)),
           exit := if failure.Some? then Some(Failed(failure.value)) else None)
      case Write(data) =>
        var failure := radio.write(w.writes);
        t.(world := Log(w.(writes := w.writes + 1), Wrote(data, failure)),
           exit := if failure.Some? then Some(Failed(failure.value)) else None)
      case Pause(ms) => t.(world := Log(w, Slept(ms)))
      case SetTimer(id, ms) => t.(deadline := Some((id, ms)))
      case Report(phase) => t.(world := Log(w, Phased(phase)))
      case Note(trace) => t.(world := Log(w, Traced(FromSession(trace))))
      case Done(result) => t.(exit := Some(Ended(result)))
  }

  function DoAll(radio: Radio, t: Turn, a: seq<Action>): Turn {
    if a == [] then t else Do(radio, DoAll(radio, t, a[..|a| - 1]), a[|a| - 1])
  }

  /** The loop's variables; `fed` is the history of events handed to the session. */
  datatype Loop = Loop(
    session: Session,
    pending: Event,
    deadline: Option<(TimerId, u32)>,
    world: World,
    fed: seq<Event>)

  /** Once round the loop: still going, waiting for a radio that stays silent, or left. */
  datatype Progress = Going(loop: Loop) | Waiting(loop: Loop) | Left(loop: Loop, exit: Exit)

  function Await(radio: Radio, l: Loop): Progress {
    if l.deadline.None? then Left(l, Failed(InvalidState(NothingPending)))
    else if l.world.received >= |radio.receptions| then Waiting(l)
    else
      var w := l.world.(received := l.world.received + 1);
      match radio.receptions[l.world.received]
      case Packet(data) => Going(l.(world := w, pending := Notification(data)))
      case Closed => Going(l.(world := w, pending := LinkClosed))
      case Broken => Going(l.(world := Log(w, Traced(LinkBroken)), pending := LinkClosed))
      case Expired => Going(l.(world := w, pending := Timer(l.deadline.value.0)))
  }

  function Iterate(env: Ssp.Env, radio: Radio, l: Loop): Progress {
    var (s, actions) := Poll(env, l.session, l.pending);
    var t := DoAll(radio, Turn(l.world, None, l.deadline, None), actions);
    var l' := Loop(s, l.pending, t.deadline, t.world, l.fed + [l.pending]);
    if t.exit.Some? then Left(l', t.exit.value)
    else if t.info.Some? then Going(l'.(pending := ProtocolInfo(t.info.value)))
    else Await(radio, l')
  }

  /** Receptions still to come, and the one reading that may precede them. */
  function Budget(radio: Radio, l: Loop): nat {
    2 * (if l.world.received < |radio.receptions| then |radio.receptions| - l.world.received else 0)
    + if l.pending.Started? then 1 else 0
  }

  function Drive(env: Ssp.Env, radio: Radio, l: Loop): Progress
    decreases Budget(radio, l)
  {
    var p := Iterate(env, radio, l);
    if p.Going? then
      BudgetFalls(env, radio, l);
      Drive(env, radio, p.loop)
    else p
  }

  lemma DriveStep(env: Ssp.Env, radio: Radio, l: Loop, p: Progress)
    requires p == Iterate(env, radio, l)
    ensures Drive(env, radio, l) == if p.Going? then Drive(env, radio, p.loop) else p
    ensures p.Going? ==> Budget(radio, p.loop) < Budget(radio, l)
  {
    if p.Going? {
      BudgetFalls(env, radio, l);
    }
  }

  /** `run_session`: pump, report the last phase if the session could not, disconnect. */
  function RunSession(env: Ssp.Env, radio: Radio, s: Session, w: World): Progress {
    var p := Drive(env, radio, Loop(s, Started, None, w, []));
    if !p.Left? then p
    else
      var w := if p.loop.session.finished then p.loop.world else Log(p.loop.world, Phased(Finished));
      Left(p.loop.(world := Log(w, Disconnect)), p.exit)
  }

  lemma {:induction false} DoAllReads(radio: Radio, t: Turn, a: seq<Action>)
    requires forall i :: 0 <= i < |a| ==> !a[i].ReadProtocolInfo?
    ensures DoAll(radio, t, a).info == t.info
  {
    if a != [] {
      DoAllReads(radio, t, a[..|a| - 1]);
    }
  }

  lemma {:induction false} DoAllReceived(radio: Radio, t: Turn, a: seq<Action>)
    ensures DoAll(radio, t, a).world.received == t.world.received
  {
    if a != [] {
      DoAllReceived(radio, t, a[..|a| - 1]);
    }
  }

  lemma {:induction false} NoLateRead(level: int, a: seq<Action>)
    requires level >= 3 && SessionRuns.WatchAll(level, a) >= 0
    ensures forall i :: 0 <= i < |a| ==> !a[i].ReadProtocolInfo?
    decreases a
  {
    if a != [] {
      if SessionRuns.Watch(level, a[0]) < 0 {
        SessionRuns.WatchBroken(SessionRuns.Watch(level, a[0]), a[1..]);
      }
      NoLateRead(SessionRuns.Watch(level, a[0]), a[1..]);
    }
  }

  /** The protocol info is asked for only at the start. */
  lemma ReadsOnlyAtStart(env: Ssp.Env, s: Session, e: Event)
    requires !e.Started?
    ensures forall i :: 0 <= i < |Poll(env, s, e).1| ==> !Poll(env, s, e).1[i].ReadProtocolInfo?
  {
    if s.finished || !s.state.Idle? {
      SessionRuns.WatchPoll(env, s, e);
      NoLateRead(SessionRuns.Level(s), Poll(env, s, e).1);
    }
  }

  lemma BudgetFalls(env: Ssp.Env, radio: Radio, l: Loop)
    requires Iterate(env, radio, l).Going?
    ensures Budget(radio, Iterate(env, radio, l).loop) < Budget(radio, l)
  {
    var actions := Poll(env, l.session, l.pending).1;
    var t := Turn(l.world, None, l.deadline, None);
    DoAllReceived(radio, t, actions);
    if !l.pending.Started? {
      ReadsOnlyAtStart(env, l.session, l.pending);
      DoAllReads(radio, t, actions);
    }
  }

  // ---------------------------------------------------------------- the code

  /** The transport and the observer: each call answers as the script says and is logged. */
  class Link {
    const radio: Radio
    var writes: nat
    var subscribes: nat
    var readings: nat
    var received: nat
    var log: seq<Effect>

    ghost function Value(): World
      reads this
    {
      World(writes, subscribes, readings, received, log)
    }

    constructor (radio: Radio)
      ensures this.radio == radio && Value() == World(0, 0, 0, 0, [])
    {
      this.radio, writes, subscribes, readings, received, log := radio, 0, 0, 0, 0, [];
    }

    method Observe(e: Effect)
      modifies this
      ensures Value() == Log(old(Value()), e)
    {
      log := log + [e];
    }

    method WriteBytes(data: bytes) returns (failure: Option<Error>)
      modifies this
      ensures failure == radio.write(old(writes))
      ensures Value() == Log(old(Value()).(writes := old(writes) + 1), Wrote(data, failure))
    {
      failure := radio.write(writes);
      writes := writes + 1;
      Observe(Wrote(data, failure));
    }

    method SubscribeNotifications() returns (failure: Option<Error>)
      modifies this
      ensures failure == radio.subscribe(old(subscribes))
      ensures Value() == Log(old(Value()).(subscribes := old(subscribes) + 1), Subscribed(failure))
    {
      failure := radio.subscribe(subscribes);
      subscribes := subscribes + 1;
      Observe(Subscribed(failure));
    }

    method ReadNotifyValue(timeoutMs: u32) returns (r: Reading)
      modifies this
      ensures r == radio.read(old(readings))
      ensures Value() == Log(old(Value()).(readings := old(readings) + 1), ReadNotify(timeoutMs))
    {
      r := radio.read(readings);
      readings := readings + 1;
      Observe(ReadNotify(timeoutMs));
    }

    /** `None` when the script is used up: the call never comes back. */
    method Receive() returns (r: Option<Reception>)
      modifies this
      ensures if old(received) < |radio.receptions|
        then r == Some(radio.receptions[old(received)]) && Value() == old(Value()).(received := old(received) + 1)
        else r.None? && Value() == old(Value())
    {
      if received >= |radio.receptions| {
        return None;
      }
      r := Some(radio.receptions[received]);
      received := received + 1;
    }
  }

  lemma {:induction false} DoAllStays(radio: Radio, t: Turn, a: seq<Action>, i: nat)
    requires i <= |a| && DoAll(radio, t, a[..i]).exit.Some?
    ensures DoAll(radio, t, a) == DoAll(radio, t, a[..i])
  {
    if i < |a| {
      var before := a[..|a| - 1];
      assert before[..i] == a[..i];
      DoAllStays(radio, t, before, i);
    } else {
      assert a[..i] == a;
    }
  }

  /** The inner loop of `pump`: carry out one batch, in order, until something ends it. */
  method CarryOut(link: Link, actions: seq<Action>, armed: Option<(TimerId, u32)>)
    returns (info: Option<Option<bytes>>, deadline: Option<(TimerId, u32)>, exit: Option<Exit>)
    modifies link
    ensures Turn(link.Value(), info, deadline, exit)
         == DoAll(link.radio, Turn(old(link.Value()), None, armed, None), actions)
  {
    info, deadline, exit := None, armed, None;
    ghost var start := Turn(link.Value(), None, armed, None);
    var i := 0;
    while i < |actions| && exit.None?
      invariant i <= |actions|
      invariant Turn(link.Value(), info, deadline, exit) == DoAll(link.radio, start, actions[..i])
    {
      assert actions[..i + 1][..i] == actions[..i];
      match actions[i] {
        case AnnounceAppProtocol =>
          var failure := link.WriteBytes(APP_PROTOCOL_REQUEST);
          link.Observe(Traced(if failure.None? then AnnounceWritten else AnnounceFailed));
        case ReadProtocolInfo(ms) =>
          var reading := link.ReadNotifyValue(ms);
          match reading {
            case Answer(bytes) => info := Some(Some(bytes));
            case NoAnswer =>
              link.Observe(Traced(ReadingFailed));
              info := Some(None);
            case Overdue =>
              link.Observe(Traced(ReadingOverdue));
              info := Some(None);
          }
        case Subscribe =>
          var failure := link.SubscribeNotifications();
          if failure.Some? {
            exit := Some(Failed(failure.value));
          }
        case Write(data) =>
          var failure := link.WriteBytes(data);
          if failure.Some? {
            exit := Some(Failed(failure.value));
          }
        case Pause(ms) => link.Observe(Slept(ms));
        case SetTimer(id, ms) => deadline := Some((id, ms));
        case Report(phase) => link.Observe(Phased(phase));
        case Note(trace) => link.Observe(Traced(FromSession(trace)));
        case Done(result) => exit := Some(Ended(result));
      }
      i := i + 1;
    }
    if exit.Some? {
      DoAllStays(link.radio, start, actions, i);
    } else {
      assert actions[..i] == actions;
    }
  }

  /** Wait for the radio; nothing to report means it stays silent for good. */
  method AwaitEvent(link: Link, deadline: Option<(TimerId, u32)>, ghost l: Loop)
    returns (pending: Option<Event>, exit: Option<Exit>, ghost next: Loop)
    requires l.world == link.Value() && l.deadline == deadline
    modifies link
    ensures Await(link.radio, l)
         == (if exit.Some? then Left(next, exit.value) else if pending.Some? then Going(next) else Waiting(next))
    ensures next == l.(world := link.Value(), pending := if pending.Some? then pending.value else l.pending)
  {
    pending, exit, next := None, None, l;
    if deadline.None? {
      exit := Some(Failed(InvalidState(NothingPending)));
      return;
    }
    var reception := link.Receive();
    if reception.None? {
      return;
    }
    match reception.value {
      case Packet(data) => pending := Some(Notification(data));
      case Closed => pending := Some(LinkClosed);
      case Broken =>
        link.Observe(Traced(LinkBroken));
        pending := Some(LinkClosed);
      case Expired => pending := Some(Timer(deadline.value.0));
    }
    next := l.(world := link.Value(), pending := pending.value);
  }

  /** One turn of the outer loop of `pump`. */
  method GoRound(link: Link, session: OpeningSession, event: Event, armed: Option<(TimerId, u32)>, ghost l: Loop)
    returns (pending: Option<Event>, deadline: Option<(TimerId, u32)>, exit: Option<Exit>, ghost next: Loop)
    requires session.Valid()
    requires l.session == session.Value() && l.world == link.Value() && l.pending == event && l.deadline == armed
    modifies link, session, session.Repr()
    ensures session.Valid() && fresh(session.Repr() - old(session.Repr()))
    ensures Iterate(session.env, link.radio, l)
         == (if exit.Some? then Left(next, exit.value) else if pending.Some? then Going(next) else Waiting(next))
    ensures next.session == session.Value() && next.world == link.Value() && next.deadline == deadline
    ensures pending.Some? ==> next.pending == pending.value
  {
    hide Poll, Do, DoAll, Await;
    var actions := session.PollEvent(event);
    var info: Option<Option<bytes>>;
    info, deadline, exit := CarryOut(link, actions, armed);
    next := Loop(session.Value(), event, deadline, link.Value(), l.fed + [event]);
    pending := None;
    if exit.Some? {
      return;
    }
    if info.Some? {
      pending := Some(ProtocolInfo(info.value));
      next := next.(pending := pending.value);
    } else {
      pending, exit, next := AwaitEvent(link, deadline, next);
    }
  }

  /** The outer loop; no exit means the radio stays silent for good. */
  method PumpEvents(link: Link, session: OpeningSession) returns (exit: Option<Exit>, ghost last: Loop)
    requires session.Valid()
    modifies link, session, session.Repr()
    ensures session.Valid() && fresh(session.Repr() - old(session.Repr()))
    ensures Drive(session.env, link.radio, Loop(old(session.Value()), Started, None, old(link.Value()), []))
         == (if exit.Some? then Left(last, exit.value) else Waiting(last))
    ensures last.session == session.Value() && last.world == link.Value()
  {
    hide Iterate, Poll;
    var pending := Started;
    var deadline: Option<(TimerId, u32)> := None;
    last := Loop(session.Value(), Started, None, link.Value(), []);
    ghost var goal := Drive(session.env, link.radio, last);
    while true
      invariant session.Valid() && fresh(session.Repr() - old(session.Repr()))
      invariant last.session == session.Value() && last.world == link.Value()
      invariant last.pending == pending && last.deadline == deadline
      invariant Drive(session.env, link.radio, last) == goal
      decreases Budget(link.radio, last)
    {
      ghost var before := last;
      var event: Option<Event>;
      event, deadline, exit, last := GoRound(link, session, pending, deadline, before);
      DriveStep(session.env, link.radio, before, Iterate(session.env, link.radio, before));
      if exit.Some? || event.None? {
        return;
      }
      pending := event.value;
    }
  }

  /** `run_session`; the result is returned through `exit`. */
  method RunOnce(link: Link, session: OpeningSession) returns (exit: Option<Exit>, ghost last: Loop)
    requires session.Valid()
    modifies link, session, session.Repr()
    ensures session.Valid() && fresh(session.Repr() - old(session.Repr()))
    ensures RunSession(session.env, link.radio, old(session.Value()), old(link.Value()))
         == (if exit.Some? then Left(last, exit.value) else Waiting(last))
    ensures last.session == session.Value() && last.world == link.Value()
  {
    hide Iterate, Poll;
    exit, last := PumpEvents(link, session);
    if exit.None? {
      return;
    }
    if !session.finished {
      link.Observe(Phased(Finished));
    }
    link.Observe(Disconnect);
    last := last.(world := link.Value());
  }
}
