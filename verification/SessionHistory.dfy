/** The opening attempt told from its events alone: what is asked for, and how it ends. */
module SessionHistory {
  import opened Bytes
  import opened Session
  import opened SessionRuns
  import opened SessionLedger
  import opened SessionNoise
  import Cbc
  import Justin
  import JustinRuns
  import MobileKey
  import Ssp
  import Stack

  // ------------------------------------------------- what the events alone say

  /** The version a protocol info names, if it names one. */
  function Named(e: Event): Option<byte> {
    if e.ProtocolInfo? && e.info.Some? && |e.info.value| >= 3 && e.info.value[0] == 0x01 then Some(e.info.value[2])
    else None
  }

  datatype Stage = Fresh | Looking | Modern | Legacy

  /** Where an unfinished attempt stands after these events. */
  function StageOf(options: Options, events: seq<Event>): Stage {
    if events == [] then Fresh
    else if options.detection == NoDetection || !options.notifyReadable then Modern
    else if |events| == 1 then Looking
    else if Named(events[1]) == Some(0x01) then Legacy
    else Modern
  }

  function PacketsIn(events: seq<Event>): seq<bytes> {
    if events == [] then []
    else
      var last := events[|events| - 1];
      PacketsIn(events[..|events| - 1]) + if last.Notification? then [last.packet] else []
  }

  /** A named version other than 1 and 2 is fatal. */
  function BeginEnd(major: Option<byte>): Option<Result<Outcome>> {
    if major.Some? && major.value != 0x01 && major.value != 0x02 then Some(Err(InvalidProtocolVersion(major.value)))
    else None
  }

  /** How one event ends an attempt that is not exchanging packets yet. */
  function EarlyEnd(looking: bool, e: Event): Option<Result<Outcome>> {
    match e
    case Aborted => Some(Err(Cancelled))
    case LinkClosed => Some(Err(Disconnected))
    case Started => if looking then Some(Err(InvalidState(UnexpectedEvent))) else None
    case ProtocolInfo(_) =>
      if looking then BeginEnd(Named(e)) else Some(Err(InvalidState(UnexpectedEvent)))
    case _ => Some(Err(InvalidState(UnexpectedEvent)))
  }

  function VerdictAfter(env: Ssp.Env, key: MobileKey.Key, packets: seq<bytes>): Option<byte> {
    FirstVerdict(key, Commands(env, key, packets))
  }

  /** How one event ends a v0200 exchange that has heard these packets. */
  function ModernEnd(
    env: Ssp.Env, key: MobileKey.Key, t: Timeouts, packets: seq<bytes>, e: Event): Option<Result<Outcome>>
  {
    var verdict := VerdictAfter(env, key, packets);
    match e
    case Notification(p) =>
      var r := Stack.HandlePacket(env, Justin.NoopStore(), StackRun(env, key, packets).0, p).1;
      if r.Err? then Some(Err(r.error))
      else if JustinRuns.Closed(key, Commands(env, key, packets + [p])) then
        Some(Ok(NewOutcome(2, VerdictAfter(env, key, packets + [p]))))
      else None
    case Timer(_) =>
      if verdict.Some? then Some(Ok(NewOutcome(2, verdict)))
      else Some(Err(Timeout(if packets == [] then t.firstPacketMs else t.packetMs)))
    case LinkClosed => Some(Ok(NewOutcome(2, verdict)))
    case Aborted => Some(Err(Cancelled))
    case _ => Some(Err(InvalidState(UnexpectedEvent)))
  }

  /** How one event ends a v0100 exchange that has heard these packets. */
  function LegacyEnd(t: Timeouts, packets: seq<bytes>, e: Event): Option<Result<Outcome>> {
    var greeted := FirstNonce(packets).Some?;
    match e
    case Notification(p) =>
      if p == [] then None
      else if !greeted && p[0] == 0x03 && |p| < 17 then Some(Err(InvalidData(NonceTooShort)))
      else if greeted && p[0] == 0x05 then
        Some(if |p| < 2 then Err(InvalidData(ResultTooShort)) else Ok(NewOutcome(1, Some(p[1]))))
      else None
    case Timer(_) => Some(Err(Timeout(if greeted then t.packetMs else t.firstPacketMs)))
    case LinkClosed => Some(Err(Disconnected))
    case Aborted => Some(Err(Cancelled))
    case _ => Some(Err(InvalidState(UnexpectedEvent)))
  }

  /** How one more event ends an unfinished attempt, if it does. */
  function EndOf(
    env: Ssp.Env, key: MobileKey.Key, options: Options, events: seq<Event>, e: Event): Option<Result<Outcome>>
  {
    match StageOf(options, events)
    case Fresh => EarlyEnd(false, e)
    case Looking => EarlyEnd(true, e)
    case Modern => ModernEnd(env, KeyFor(key, options.mode), options.timeouts, PacketsIn(events), e)
    case Legacy => LegacyEnd(options.timeouts, PacketsIn(events), e)
  }

  /** What the start of an exchange asks for: the version named decides which. */
  function BeginWork(key: MobileKey.Key, t: Timeouts, major: Option<byte>): seq<Action> {
    if major.Some? && major.value != 0x01 && major.value != 0x02 then []
    else
      [Subscribe, Report(Authenticating)]
      + (if major == Some(0x01) then [Write([0x02] + key.tag1), Pause(50)] else [])
      + [SetTimer(FirstPacket, t.firstPacketMs)]
  }

  /** The work the start asks for. */
  function StartWork(key: MobileKey.Key, options: Options, e: Event): seq<Action> {
    if !e.Started? then []
    else if options.detection == NoDetection || !options.notifyReadable then
      [Report(DetectingVersion)] + BeginWork(key, options.timeouts, None)
    else
      [Report(DetectingVersion)]
      + (if options.detection == AppProtocol then [AnnounceAppProtocol] else [])
      + [ReadProtocolInfo(options.timeouts.protocolInfoReadMs)]
  }

  /** The work the protocol info asks for. */
  function InfoWork(key: MobileKey.Key, t: Timeouts, e: Event): seq<Action> {
    if e.ProtocolInfo? then BeginWork(key, t, Named(e)) else []
  }

  /** The work a packet asks for in the v0200 exchange: the reply, the phase it opens, and the next wait. */
  function ModernWork(env: Ssp.Env, key: MobileKey.Key, t: Timeouts, packets: seq<bytes>, e: Event): seq<Action> {
    if !e.Notification? then []
    else
      var stack := StackRun(env, key, packets).0;
      var (stack', r) := Stack.HandlePacket(env, Justin.NoopStore(), stack, e.packet);
      if r.Err? then []
      else
        [Write(r.value)]
        + (if stack.ssp.state != Ssp.InSession && stack'.ssp.state == Ssp.InSession then [Report(Exchanging)] else [])
        + if ModernEnd(env, key, t, packets, e).Some? then []
          else if VerdictAfter(env, key, packets + [e.packet]).Some? then
            [SetTimer(AfterFinalResult, t.afterFinalResultMs)]
          else [SetTimer(Packet, t.packetMs)]
  }

  /** The work a packet asks for in the v0100 exchange: the first nonce, signed. */
  function LegacyWork(env: Ssp.Env, knKey: Block, t: Timeouts, packets: seq<bytes>, e: Event): seq<Action> {
    if e.Notification? && FirstNonce(packets).None? && |e.packet| >= 17 && e.packet[0] == 0x03 then
      [Report(Exchanging),
       Write([0x04] + Cbc.Encrypt(env.cipher, knKey, seq(16, _ => 0xFF), e.packet[1..17])),
       SetTimer(Packet, t.packetMs)]
    else []
  }

  function WorkOf(env: Ssp.Env, key: MobileKey.Key, options: Options, events: seq<Event>, e: Event): seq<Action> {
    match StageOf(options, events)
    case Fresh => StartWork(key, options, e)
    case Looking => InfoWork(key, options.timeouts, e)
    case Modern => ModernWork(env, KeyFor(key, options.mode), options.timeouts, PacketsIn(events), e)
    case Legacy => LegacyWork(env, key.knKey, options.timeouts, PacketsIn(events), e)
  }

  /** An ending as it is asked for. */
  function Farewell(end: Option<Result<Outcome>>): seq<Action> {
    if end.Some? then [Report(Finished), Done(end.value)] else []
  }

  /** The result of a whole sequence of events: the first ending. */
  function ResultOf(env: Ssp.Env, key: MobileKey.Key, options: Options, events: seq<Event>): Option<Result<Outcome>> {
    if events == [] then None
    else
      var before, last := events[..|events| - 1], events[|events| - 1];
      var ended := ResultOf(env, key, options, before);
      if ended.Some? then ended else EndOf(env, key, options, before, last)
  }

  /** Everything asked for, up to the first ending. */
  function Asked(env: Ssp.Env, key: MobileKey.Key, options: Options, events: seq<Event>): seq<Action> {
    if events == [] then []
    else
      var before, last := events[..|events| - 1], events[|events| - 1];
      Asked(env, key, options, before)
      + if ResultOf(env, key, options, before).Some? then []
        else WorkOf(env, key, options, before, last) + Farewell(EndOf(env, key, options, before, last))
  }

  // ------------------------------------------------- one poll

  /** A poll asks for this work, and ends the session this way. */
  ghost predicate Shows(r: (Session, seq<Action>), work: seq<Action>, end: Option<Result<Outcome>>) {
    && Visible(r.1) == work + Farewell(end)
    && (r.0.finished <==> end.Some?)
    && (end.Some? ==> r.1 != [] && r.1[|r.1| - 1] == Done(end.value))
  }

  predicate Hidden(notes: seq<Action>) {
    forall i :: 0 <= i < |notes| ==> notes[i].Note?
  }

  lemma {:induction false} VisibleParts(a: seq<Action>)
    ensures Hidden(a) ==> Visible(a) == []
    ensures (forall i :: 0 <= i < |a| ==> !a[i].Note?) ==> Visible(a) == a
  {
    if a != [] {
      VisibleParts(a[..|a| - 1]);
    }
  }

  /** Notes, and then an ending. */
  lemma ShowsEnd(notes: seq<Action>, s: Session, result: Result<Outcome>)
    requires Hidden(notes)
    ensures Shows(After(notes, Finish(s, result)), [], Some(result))
  {
    VisibleJoin(notes, Finish(s, result).1);
    VisibleParts(notes);
    VisibleParts(Finish(s, result).1);
  }

  /** Just an ending. */
  lemma ShowsFinish(s: Session, result: Result<Outcome>)
    ensures Shows(Finish(s, result), [], Some(result))
  {
    VisibleParts(Finish(s, result).1);
  }

  lemma ShowsBeginV0100(s: Session)
    requires !s.finished
    ensures Shows(Begin(s, Some(0x01)), BeginWork(s.key, s.options.timeouts, Some(0x01)), None)
  {
    var identify := [0x02] + s.key.tag1;
    var greet := [Subscribe, Report(Authenticating)];
    var work := [Write(identify), Pause(50), SetTimer(FirstPacket, s.options.timeouts.firstPacketMs)];
    assert Begin(s, Some(0x01)).1 == greet + [Note(Tx(identify))] + work;
    VisibleJoin(greet + [Note(Tx(identify))], work);
    VisibleJoin(greet, [Note(Tx(identify))]);
    VisibleParts([Note(Tx(identify))]);
    VisibleParts(greet);
    VisibleParts(work);
  }

  lemma ShowsBegin(s: Session, major: Option<byte>)
    requires !s.finished
    ensures Shows(Begin(s, major), BeginWork(s.key, s.options.timeouts, major), BeginEnd(major))
  {
    hide KeyFor, StartFlow;
    if BeginEnd(major).Some? {
      ShowsFinish(s, BeginEnd(major).value);
    } else if major == Some(0x01) {
      ShowsBeginV0100(s);
    } else {
      VisibleParts(Begin(s, major).1);
    }
  }

  /** Work and notes in front. */
  lemma ShowsAfter(
    first: seq<Action>, notes: seq<Action>, r: (Session, seq<Action>), work: seq<Action>, end: Option<Result<Outcome>>)
    requires Shows(r, work, end) && Hidden(notes) && forall i :: 0 <= i < |first| ==> !first[i].Note?
    ensures Shows(After(first + notes, r), first + work, end)
  {
    hide Visible, Farewell;
    VisibleJoin(first + notes, r.1);
    VisibleJoin(first, notes);
    VisibleParts(first);
    VisibleParts(notes);
    var all := After(first + notes, r).1;
    assert Visible(all) == first + [] + (work + Farewell(end));
    assert first + [] + (work + Farewell(end)) == first + work + Farewell(end);
    assert r.1 != [] ==> all[|all| - 1] == r.1[|r.1| - 1];
  }

  lemma FreshStep(s: Session, e: Event)
    requires s.state.Idle? && !s.finished && !e.Aborted?
    ensures Shows(PollIdle(s, e), StartWork(s.key, s.options, e), EarlyEnd(false, e))
  {
    hide Begin, Shows, Visible;
    var first := [Report(DetectingVersion)];
    if e.Started? {
      if s.options.detection == NoDetection || !s.options.notifyReadable {
        var note := if s.options.detection == NoDetection then DetectionSkipped else NotReadable;
        assert first + [Note(Info(note))] == [Report(DetectingVersion), Note(Info(note))];
        ShowsBegin(s, None);
        ShowsAfter(first, [Note(Info(note))], Begin(s, None), BeginWork(s.key, s.options.timeouts, None), None);
      } else {
        ShowsPlain(PollIdle(s, e), StartWork(s.key, s.options, e));
      }
    } else {
      ShowsFinish(s, EarlyEnd(false, e).value);
    }
  }

  lemma ShowsPlain(r: (Session, seq<Action>), work: seq<Action>)
    requires r.1 == work && !r.0.finished && forall i :: 0 <= i < |work| ==> !work[i].Note?
    ensures Shows(r, work, None)
  {
    VisibleParts(work);
  }

  lemma LookingStep(s: Session, e: Event)
    requires s.state.Detecting? && !s.finished && !e.Aborted?
    ensures Shows(PollDetecting(s, e), InfoWork(s.key, s.options.timeouts, e), EarlyEnd(true, e))
  {
    hide Begin, Shows, Visible;
    if e.ProtocolInfo? {
      var major := Named(e);
      var notes :=
        if e.info.None? then [Note(Info(ReadFailed))]
        else if major.Some? then [Note(ReadBack(e.info.value))]
        else [Note(ReadBack(e.info.value)), Note(Info(OddProtocolInfo))];
      ShowsBegin(s, major);
      ShowsAfter([], notes, Begin(s, major), BeginWork(s.key, s.options.timeouts, major), BeginEnd(major));
      assert [] + notes == notes;
      assert PollDetecting(s, e) == After(notes, Begin(s, major));
      assert [] + BeginWork(s.key, s.options.timeouts, major) == InfoWork(s.key, s.options.timeouts, e);
    } else {
      ShowsFinish(s, EarlyEnd(true, e).value);
    }
  }

  /** The packet the v0100 exchange was waiting for, or not. */
  lemma LegacyPacket(env: Ssp.Env, s: Session, l: Ledger, p: bytes)
    requires s.state.V0100? && !s.finished && Accounts(env, s, l)
    ensures Shows(PollV0100(env, s, s.state.knKey, s.state.step, Notification(p)),
                  LegacyWork(env, s.key.knKey, s.options.timeouts, l.heard, Notification(p)),
                  LegacyEnd(s.options.timeouts, l.heard, Notification(p)))
  {
    hide Visible, Shows, Cbc.Encrypt, AccountsV0200;
    var r := PollV0100(env, s, s.state.knKey, s.state.step, Notification(p));
    var end := LegacyEnd(s.options.timeouts, l.heard, Notification(p));
    if end.Some? {
      ShowsEnd([Note(Rx(p))], s, end.value);
    } else if p == [] || p[0] != ExpectedPrefix(s.state.step) {
      ShowsNotes(r);
    } else {
      ShowsNonce(env, s, p);
    }
  }

  lemma ShowsNotes(r: (Session, seq<Action>))
    requires Hidden(r.1) && !r.0.finished
    ensures Shows(r, [], None)
  {
    VisibleParts(r.1);
  }

  lemma ShowsNonce(env: Ssp.Env, s: Session, p: bytes)
    requires s.state == V0100(s.key.knKey, AwaitingNonce) && !s.finished && |p| >= 17 && p[0] == 0x03
    ensures Shows(PollV0100(env, s, s.key.knKey, AwaitingNonce, Notification(p)),
                  LegacyWork(env, s.key.knKey, s.options.timeouts, [], Notification(p)), None)
  {
    hide Cbc.Encrypt;
    assert SIGN_IV == seq(16, _ => 0xFF);
    var out := PollV0100(env, s, s.key.knKey, AwaitingNonce, Notification(p)).1;
    assert out == [out[0]] + [out[1]] + [out[2]] + [out[3], out[4]];
    VisibleJoin([out[0]] + [out[1]] + [out[2]], [out[3], out[4]]);
    VisibleJoin([out[0]] + [out[1]], [out[2]]);
    VisibleJoin([out[0]], [out[1]]);
    VisibleParts([out[0]]);
    VisibleParts([out[1]]);
    VisibleParts([out[2]]);
    VisibleParts([out[3], out[4]]);
  }

  lemma LegacyStep(env: Ssp.Env, s: Session, l: Ledger, e: Event)
    requires s.state.V0100? && !s.finished && !e.Aborted? && Accounts(env, s, l)
    ensures Shows(PollV0100(env, s, s.state.knKey, s.state.step, e),
                  LegacyWork(env, s.key.knKey, s.options.timeouts, l.heard, e),
                  LegacyEnd(s.options.timeouts, l.heard, e))
  {
    hide Visible, Shows, Cbc.Encrypt, AccountsV0200;
    if e.Notification? {
      LegacyPacket(env, s, l, e.packet);
    } else {
      var end := LegacyEnd(s.options.timeouts, l.heard, e).value;
      ShowsEnd([Note(Info(NoPacket))], s, end);
      ShowsFinish(s, end);
    }
  }

  /** What the totals say about the flow, read off the packets heard. */
  ghost predicate Grounded(env: Ssp.Env, s: Session, f: Flow, l: Ledger) {
    var key := KeyFor(s.key, s.options.mode);
    var stack := StackRun(env, key, l.heard).0;
    && f.stack == stack
    && (f.exchanging <==> stack.ssp.state == Ssp.InSession)
    && (!s.finished ==> f.finalOpResult == VerdictAfter(env, key, l.heard))
    && (!s.finished ==> f.firstPacket == (l.heard == []))
    && (EndedOk(l) ==> l.result.value.value == NewOutcome(2, VerdictAfter(env, key, l.heard)))
    && (stack.justin.state == Justin.Connected <==> !JustinRuns.Closed(key, Commands(env, key, l.heard)))
  }

  lemma GroundedFlow(env: Ssp.Env, s: Session, l: Ledger)
    requires s.state.V0200? && Accounts(env, s, l)
    ensures Grounded(env, s, s.state.flow, l)
  {
    hide Stack.HandlePacket, StackRun, Commands, FirstVerdict, JustinRuns.Closed, JustinRuns.After;
    var key := KeyFor(s.key, s.options.mode);
    JustinOfStack(env, key, l.heard);
    JustinRuns.StoreRefinement(key, Commands(env, key, l.heard));
  }

  lemma VisibleAnswered(f: Flow, response: bytes)
    ensures Visible(Answered(f, response).1)
         == [Write(response)] + if NowExchanging(f) then [Report(Exchanging)] else []
  {
    hide Visible;
    var refused := if Notes(f) == 1 then [Note(Info(RefusedKnKey))] else [];
    var report := if NowExchanging(f) then [Report(Exchanging)] else [];
    var notes := [Note(Tx(response))] + refused;
    assert Answered(f, response).1 == notes + [Write(response)] + report;
    VisibleJoin(notes + [Write(response)], report);
    VisibleJoin(notes, [Write(response)]);
    VisibleParts(notes);
    VisibleParts([Write(response)]);
    VisibleParts(report);
  }

  /** An answered packet: the visible part of one poll. */
  lemma VisiblePacket(env: Ssp.Env, s: Session, p: bytes)
    requires s.state.V0200? && !s.finished
    requires Stack.HandlePacket(env, Justin.NoopStore(), s.state.flow.stack, p).1.Ok?
    ensures var f := s.state.flow;
      var (stack, r) := Stack.HandlePacket(env, Justin.NoopStore(), f.stack, p);
      var (s', out) := PollV0200(env, s, f, Notification(p));
      && s'.state.V0200? && s'.options == s.options && s'.key == s.key && out != []
      && (s'.finished <==> stack.justin.state == Justin.Ready)
      && (s'.finished ==> out[|out| - 1].Done? && out[|out| - 1].result.Ok?)
      && Visible(out) == [Write(r.value)] + (if NowExchanging(f.(stack := stack)) then [Report(Exchanging)] else [])
        + if s'.finished then [Report(Finished), out[|out| - 1]]
          else [SetTimer(NextWait(s.options.timeouts, s'.state.flow).0, NextWait(s.options.timeouts, s'.state.flow).1)]
  {
    hide Stack.HandlePacket, Visible, Answered, NewOutcome, NextWait;
    var f := s.state.flow;
    var (stack, r) := Stack.HandlePacket(env, Justin.NoopStore(), f.stack, p);
    var answer := Answered(f.(stack := stack), r.value).1;
    var out := PollV0200(env, s, f, Notification(p)).1;
    var tail := out[1 + |answer|..];
    assert out == [Note(Rx(p))] + answer + tail;
    VisibleJoin([Note(Rx(p))] + answer, tail);
    VisibleJoin([Note(Rx(p))], answer);
    VisibleParts([Note(Rx(p))]);
    VisibleAnswered(f.(stack := stack), r.value);
    VisibleParts(tail);
  }

  lemma ModernPacket(env: Ssp.Env, s: Session, l: Ledger, p: bytes)
    requires s.state.V0200? && !s.finished && Accounts(env, s, l)
    ensures var key := KeyFor(s.key, s.options.mode);
      Shows(PollV0200(env, s, s.state.flow, Notification(p)),
            ModernWork(env, key, s.options.timeouts, l.heard, Notification(p)),
            ModernEnd(env, key, s.options.timeouts, l.heard, Notification(p)))
  {
    hide Stack.HandlePacket, StackRun, Commands, FirstVerdict, Answered, Visible, Accounts, KeyFor, TallyAll;
    hide JustinRuns.Closed, NewOutcome;
    var key := KeyFor(s.key, s.options.mode);
    var (s', out) := PollV0200(env, s, s.state.flow, Notification(p));
    GroundedFlow(env, s, l);
    var (stack, r) := Stack.HandlePacket(env, Justin.NoopStore(), s.state.flow.stack, p);
    if r.Err? {
      ShowsEnd([Note(Rx(p))], s.(state := V0200(s.state.flow.(stack := stack))), Err(r.error));
    } else {
      var l' := TallyAll(l, out);
      LedgerV0200Packet(env, s, l, p);
      VisiblePacket(env, s, p);
      GroundedFlow(env, s', l');
      PushStack(env, key, l.heard, p);
      if s'.finished {
        TallyDone(l, out, out[|out| - 1].result);
      }
    }
  }

  lemma ModernStep(env: Ssp.Env, s: Session, l: Ledger, e: Event)
    requires s.state.V0200? && !s.finished && !e.Aborted? && Accounts(env, s, l)
    ensures var key := KeyFor(s.key, s.options.mode);
      Shows(PollV0200(env, s, s.state.flow, e),
            ModernWork(env, key, s.options.timeouts, l.heard, e),
            ModernEnd(env, key, s.options.timeouts, l.heard, e))
  {
    hide Stack.HandlePacket, StackRun, Commands, FirstVerdict, Answered, Visible, Shows, Accounts, KeyFor;
    if e.Notification? {
      ModernPacket(env, s, l, e.packet);
    } else {
      GroundedFlow(env, s, l);
      var end := ModernEnd(env, KeyFor(s.key, s.options.mode), s.options.timeouts, l.heard, e).value;
      ShowsEnd([Note(Info(SilentAfterResult))], s, end);
      ShowsEnd([Note(Info(NoPacket))], s, end);
      ShowsEnd([Note(Info(LockDisconnected))], s, end);
      ShowsFinish(s, end);
    }
  }

  // ------------------------------------------------- whole runs

  /** The state an unfinished session is in at this stage. */
  predicate At(s: State, stage: Stage) {
    match stage
    case Fresh => s.Idle?
    case Looking => s.Detecting?
    case Modern => s.V0200?
    case Legacy => s.V0100?
  }

  /** One event on an unfinished run. */
  lemma OneStep(env: Ssp.Env, s: Session, l: Ledger, stage: Stage, e: Event)
    requires !s.finished && At(s.state, stage) && Accounts(env, s, l)
    ensures match stage
      case Fresh => Shows(Poll(env, s, e), StartWork(s.key, s.options, e), EarlyEnd(false, e))
      case Looking => Shows(Poll(env, s, e), InfoWork(s.key, s.options.timeouts, e), EarlyEnd(true, e))
      case Modern =>
        var key := KeyFor(s.key, s.options.mode);
        Shows(Poll(env, s, e), ModernWork(env, key, s.options.timeouts, l.heard, e),
              ModernEnd(env, key, s.options.timeouts, l.heard, e))
      case Legacy =>
        Shows(Poll(env, s, e), LegacyWork(env, s.key.knKey, s.options.timeouts, l.heard, e),
              LegacyEnd(s.options.timeouts, l.heard, e))
  {
    hide Stack.HandlePacket, StackRun, Commands, FirstVerdict, Accounts, Shows, Visible, KeyFor;
    hide PollIdle, PollDetecting, PollV0200, PollV0100, Begin;
    if e.Aborted? {
      ShowsFinish(s, Err(Cancelled));
    } else {
      match stage
      case Fresh => FreshStep(s, e);
      case Looking => LookingStep(s, e);
      case Modern => ModernStep(env, s, l, e);
      case Legacy => LegacyStep(env, s, l, e);
    }
  }

  /** Where one event takes a session it does not end. */
  lemma NextStage(env: Ssp.Env, s: Session, stage: Stage, e: Event)
    requires !s.finished && At(s.state, stage) && !Poll(env, s, e).0.finished
    ensures At(Poll(env, s, e).0.state,
      match stage
      case Fresh => if s.options.detection == NoDetection || !s.options.notifyReadable then Modern else Looking
      case Looking => if Named(e) == Some(0x01) then Legacy else Modern
      case Modern => Modern
      case Legacy => Legacy)
  {
    hide Stack.HandlePacket, Answered, KeyFor, StartFlow, Cbc.Encrypt;
  }

  lemma StagePush(options: Options, events: seq<Event>, e: Event)
    ensures StageOf(options, events + [e]) ==
      match StageOf(options, events)
      case Fresh => if options.detection == NoDetection || !options.notifyReadable then Modern else Looking
      case Looking => if Named(e) == Some(0x01) then Legacy else Modern
      case Modern => Modern
      case Legacy => Legacy
    ensures PacketsIn(events + [e]) == PacketsIn(events) + if e.Notification? then [e.packet] else []
  {
    assert (events + [e])[..|events|] == events;
  }

  /** An unfinished run is at the stage its events say, has heard their packets, and has not ended. */
  ghost predicate OnTrack(env: Ssp.Env, key: MobileKey.Key, options: Options, events: seq<Event>) {
    var s := Reached(env, New(key, options), events);
    && (s.finished <==> ResultOf(env, key, options, events).Some?)
    && (!s.finished ==>
      && At(s.state, StageOf(options, events))
      && Totals(env, key, options, events).heard == PacketsIn(events))
  }

  /** One more event: the poll does what the events say. */
  lemma OneMore(env: Ssp.Env, key: MobileKey.Key, options: Options, events: seq<Event>, e: Event)
    requires OnTrack(env, key, options, events) && !Reached(env, New(key, options), events).finished
    ensures Shows(Poll(env, Reached(env, New(key, options), events), e),
                  WorkOf(env, key, options, events, e), EndOf(env, key, options, events, e))
  {
    hide Shows, Poll, Accounts, KeyFor, EarlyEnd, ModernEnd, LegacyEnd, StartWork, InfoWork, ModernWork, LegacyWork;
    hide TallyAll, Emitted, PacketsIn;
    LedgerRun(env, key, options, events);
    OneStep(env, Reached(env, New(key, options), events), Totals(env, key, options, events),
            StageOf(options, events), e);
  }

  lemma {:induction false} RunOnTrack(env: Ssp.Env, key: MobileKey.Key, options: Options, events: seq<Event>)
    ensures OnTrack(env, key, options, events)
  {
    hide Poll, Accounts, WorkOf, EndOf, Visible, Emitted, TallyAll, StageOf, PacketsIn;
    if events == [] {
      NothingYet(env, key, options);
    } else {
      var before, e := events[..|events| - 1], events[|events| - 1];
      assert before + [e] == events;
      RunOnTrack(env, key, options, before);
      var s := Reached(env, New(key, options), before);
      if s.finished {
        FinishedStays(env, s, e);
      } else {
        OneMore(env, key, options, before, e);
        StagePush(options, before, e);
        LedgerRun(env, key, options, before);
        LedgerRun(env, key, options, events);
        if !Poll(env, s, e).0.finished {
          NextStage(env, s, StageOf(options, before), e);
          TotalsStep(env, key, options, before, e);
          HeardAll(env, s, Totals(env, key, options, before), e);
        }
      }
    }
  }

  lemma NothingYet(env: Ssp.Env, key: MobileKey.Key, options: Options)
    ensures OnTrack(env, key, options, [])
  {
  }

  lemma FinishedStays(env: Ssp.Env, s: Session, e: Event)
    requires s.finished
    ensures Poll(env, s, e) == (s, [])
  {
  }

  /** An event that does not end the session is heard if it is a packet. */
  lemma HeardAll(env: Ssp.Env, s: Session, l: Ledger, e: Event)
    requires !s.finished && !Poll(env, s, e).0.finished && Accounts(env, s, l)
    ensures TallyAll(l, Poll(env, s, e).1).heard == l.heard + if e.Notification? then [e.packet] else []
  {
    hide Stack.HandlePacket, Answered, KeyFor, StartFlow, Cbc.Encrypt, Accounts, TallyAll;
    LedgerPoll(env, s, l, e);
  }

  /**
   * The whole attempt from its events alone: over every sequence of events, what the shell is asked for and the
   * result are the ones the history says, though the session keeps only its state.
   */
  lemma {:induction false} RunExactly(env: Ssp.Env, key: MobileKey.Key, options: Options, events: seq<Event>)
    ensures Totals(env, key, options, events).result == ResultOf(env, key, options, events)
    ensures Visible(Emitted(env, New(key, options), events)) == Asked(env, key, options, events)
  {
    hide Poll, WorkOf, EndOf, TallyAll, OnTrack;
    if events == [] {
      NothingAsked(env, key, options);
    } else {
      var before, e := events[..|events| - 1], events[|events| - 1];
      assert before + [e] == events;
      RunExactly(env, key, options, before);
      RunOnTrack(env, key, options, before);
      RunOnTrack(env, key, options, events);
      ExactlyMore(env, key, options, before, e);
    }
  }

  lemma NothingAsked(env: Ssp.Env, key: MobileKey.Key, options: Options)
    ensures Totals(env, key, options, []).result == None && Visible(Emitted(env, New(key, options), [])) == []
  {
  }

  lemma ExactlyMore(env: Ssp.Env, key: MobileKey.Key, options: Options, events: seq<Event>, e: Event)
    requires OnTrack(env, key, options, events)
    requires Totals(env, key, options, events).result == ResultOf(env, key, options, events)
    ensures Totals(env, key, options, events + [e]).result ==
      if ResultOf(env, key, options, events).Some? then ResultOf(env, key, options, events)
      else EndOf(env, key, options, events, e)
    ensures Visible(Emitted(env, New(key, options), events + [e])) == Visible(Emitted(env, New(key, options), events)) +
      if ResultOf(env, key, options, events).Some? then []
      else WorkOf(env, key, options, events, e) + Farewell(EndOf(env, key, options, events, e))
  {
    hide Poll, WorkOf, EndOf, TallyAll, Visible, StageOf, PacketsIn, Accounts, ResultOf;
    var s, all := Reached(env, New(key, options), events), events + [e];
    assert all[..|events|] == events;
    VisibleJoin(Emitted(env, New(key, options), events), Poll(env, s, e).1);
    TotalsStep(env, key, options, events, e);
    if s.finished {
      FinishedStays(env, s, e);
      NothingTallied(Totals(env, key, options, events));
    } else {
      OneMore(env, key, options, events, e);
      LedgerRun(env, key, options, all);
      if EndOf(env, key, options, events, e).Some? {
        TallyDone(Totals(env, key, options, events), Poll(env, s, e).1, EndOf(env, key, options, events, e).value);
      } else {
        NotFinished(env, key, options, all);
      }
    }
  }

  lemma NothingTallied(l: Ledger)
    ensures TallyAll(l, []) == l && Visible([]) == []
  {
  }

  lemma NotFinished(env: Ssp.Env, key: MobileKey.Key, options: Options, events: seq<Event>)
    ensures Reached(env, New(key, options), events).finished <==> Totals(env, key, options, events).result.Some?
  {
    hide Poll, AccountsV0200, AccountsV0100, WrittenV0100, TallyAll;
    LedgerRun(env, key, options, events);
  }

  // ------------------------------------------------- what follows

  /** Ends of a v0100 exchange: its result packet ends it well, and silence and a lost link end it as errors. */
  lemma V0100Ends(env: Ssp.Env, key: MobileKey.Key, options: Options, events: seq<Event>, e: Event)
    requires var s := Reached(env, New(key, options), events); s.state.V0100? && !s.finished
    ensures var (l, fed) := (Totals(env, key, options, events), Fed(env, New(key, options), events));
      var greeted := FirstNonce(fed).Some?;
      && l.armed.Some?
      && var result := Totals(env, key, options, events + [e]).result;
      match e
      case Notification(p) =>
        && (greeted && |p| >= 2 && p[0] == 0x05 ==> result == Some(Ok(NewOutcome(1, Some(p[1])))))
        && (greeted && p == [0x05] ==> result == Some(Err(InvalidData(ResultTooShort))))
        && (!greeted && 1 <= |p| < 17 && p[0] == 0x03 ==> result == Some(Err(InvalidData(NonceTooShort))))
        && (p == [] || p[0] != (if greeted then 0x05 else 0x03) ==> result.None?)
      case Timer(_) => result == Some(Err(Timeout(l.armed.value.1)))
      case LinkClosed => result == Some(Err(Disconnected))
      case Aborted => result == Some(Err(Cancelled))
      case _ => result == Some(Err(InvalidState(UnexpectedEvent)))
  {
    hide Poll, TallyAll, StageOf, PacketsIn, ModernEnd, KeyFor, Emitted;
    RunOnTrack(env, key, options, events);
    RunExactly(env, key, options, events + [e]);
    assert (events + [e])[..|events|] == events;
    TimerAgreement(env, key, options, events);
    LedgerRun(env, key, options, events);
  }

  lemma {:induction false} ExchangingTallied(l: Ledger, a: seq<Action>)
    ensures TallyAll(l, a).exchanging <==> l.exchanging || Report(Exchanging) in a
    decreases a
  {
    if a != [] {
      ExchangingTallied(Tally(l, a[0]), a[1..]);
      assert a == [a[0]] + a[1..];
    }
  }

  /** The exchanging phase is reported exactly once the channel is in session, or the nonce could be signed. */
  lemma ExchangingReported(env: Ssp.Env, key: MobileKey.Key, options: Options, events: seq<Event>)
    ensures var fed := Fed(env, New(key, options), events);
      Report(Exchanging) in Emitted(env, New(key, options), events) <==>
        match Reached(env, New(key, options), events).state
        case Idle => false
        case Detecting => false
        case V0200(_) => StackRun(env, KeyFor(key, options.mode), fed).0.ssp.state == Ssp.InSession
        case V0100(_, _) => FirstNonce(fed).Some? && |FirstNonce(fed).value| >= 17
  {
    hide Poll, StackRun, Commands, FirstVerdict, Emitted, Cbc.Encrypt;
    LedgerRun(env, key, options, events);
    ExchangingTallied(BLANK, Emitted(env, New(key, options), events));
  }

  /** Each refused request for kN is noted, once. */
  lemma RefusalsNoted(env: Ssp.Env, key: MobileKey.Key, options: Options, events: seq<Event>)
    requires Reached(env, New(key, options), events).state.V0200?
    ensures var session := KeyFor(key, options.mode);
      Totals(env, key, options, events).refused
        == JustinRuns.KnRefusals(session, Commands(env, session, Fed(env, New(key, options), events)))
  {
    hide Poll, StackRun, Commands, FirstVerdict, Emitted, JustinRuns.After, JustinRuns.KnRefusals;
    var session, l := KeyFor(key, options.mode), Totals(env, key, options, events);
    LedgerRun(env, key, options, events);
    JustinOfStack(env, session, l.heard);
    JustinRuns.RefusalsCounted(session, Commands(env, session, l.heard));
  }
}
