/** One opening attempt as a state machine: crates/mkey-session/src/session.rs and types.rs. */
module Session {
  import opened Bytes
  import Cbc
  import Justin
  import MobileKey
  import Ssp
  import Stack

  type u32 = n: int | 0 <= n < 0x1_0000_0000

  datatype Detection = AppProtocol | ReadOnly | NoDetection

  datatype Mode = Standard | Office

  datatype Phase = DetectingVersion | Authenticating | Exchanging | Finished

  datatype TimerId = FirstPacket | Packet | AfterFinalResult

  datatype Timeouts = Timeouts(protocolInfoReadMs: u32, firstPacketMs: u32, packetMs: u32, afterFinalResultMs: u32)

  datatype Options = Options(mode: Mode, detection: Detection, timeouts: Timeouts, notifyReadable: bool)

  /** Which informational message was traced; the wording is not modelled. */
  datatype Note =
    | DetectionSkipped
    | NotReadable
    | OddProtocolInfo
    | ReadFailed
    | RefusedKnKey
    | SilentAfterResult
    | NoPacket
    | LockDisconnected
    | UnexpectedPacket

  datatype Trace = Rx(data: bytes) | Tx(data: bytes) | ReadBack(data: bytes) | Info(note: Note)

  datatype Group = Unknown | Failure | Accepted | Rejected

  /** The outcome class: the two low bits. */
  function GroupOf(opResult: byte): Group {
    if opResult % 4 == 1 then Failure
    else if opResult % 4 == 2 then Accepted
    else if opResult % 4 == 3 then Rejected
    else Unknown
  }

  /** The lock has reached a verdict. */
  predicate IsFinal(opResult: byte) {
    GroupOf(opResult) == Accepted || GroupOf(opResult) == Rejected
  }

  datatype Outcome = Outcome(protocolVersion: byte, opResult: Option<byte>, group: Group, accepted: bool)

  function NewOutcome(version: byte, opResult: Option<byte>): Outcome {
    var group := if opResult.Some? then GroupOf(opResult.value) else Unknown;
    Outcome(version, opResult, group, group == Accepted)
  }

  /** The groups by the low bits of the result: 2 accepts, 3 rejects, and only these two are final. */
  lemma OutcomeGroups(version: byte, opResult: Option<byte>)
    ensures var outcome := NewOutcome(version, opResult);
      && outcome.protocolVersion == version && outcome.opResult == opResult
      && (outcome.accepted <==> opResult.Some? && opResult.value % 4 == 2)
      && (outcome.group == Rejected <==> opResult.Some? && opResult.value % 4 == 3)
      && (outcome.group == Failure <==> opResult.Some? && opResult.value % 4 == 1)
      && (outcome.group == Accepted <==> outcome.accepted)
    ensures opResult.Some? ==> (IsFinal(opResult.value) <==> opResult.value % 4 >= 2)
  {
  }

  datatype Event =
    | Started
    | ProtocolInfo(info: Option<bytes>)
    | Notification(packet: bytes)
    | Timer(id: TimerId)
    | LinkClosed
    | Aborted

  datatype Action =
    | AnnounceAppProtocol
    | ReadProtocolInfo(timeoutMs: u32)
    | Subscribe
    | Write(data: bytes)
    | Pause(ms: u32)
    | SetTimer(id: TimerId, afterMs: u32)
    | Report(phase: Phase)
    | Note(trace: Trace)
    | Done(result: Result<Outcome>)

  const IDENTIFY: byte := 0x02
  const NONCE: byte := 0x03
  const SIGNED_NONCE: byte := 0x04
  const RESULT: byte := 0x05
  const SETTLE_MS: u32 := 50
  const NONCE_LENGTH: nat := 16
  const SIGN_IV: Block := [0xFF, 0xFF, 0xFF, 0xFF, 0xFF, 0xFF, 0xFF, 0xFF,
                           0xFF, 0xFF, 0xFF, 0xFF, 0xFF, 0xFF, 0xFF, 0xFF]

  datatype Step = AwaitingNonce | AwaitingResult

  function ExpectedPrefix(step: Step): byte {
    if step == AwaitingNonce then NONCE else RESULT
  }

  /** The v0200 flow's fields as a value. */
  datatype Flow = Flow(
    stack: Stack.Stack,
    firstPacket: bool,
    finalOpResult: Option<byte>,
    exchanging: bool,
    tracedKnRefusals: nat)

  datatype State = Idle | Detecting | V0200(flow: Flow) | V0100(knKey: Block, step: Step)

  /** The session's fields as a value. */
  datatype Session = Session(key: MobileKey.Key, options: Options, state: State, finished: bool)

  function New(key: MobileKey.Key, options: Options): Session {
    Session(key, options, Idle, false)
  }

  // ---------------------------------------------------------------- specification

  function Finish(s: Session, result: Result<Outcome>): (Session, seq<Action>) {
    (s.(finished := true), [Report(Finished), Done(result)])
  }

  function Unexpected(s: Session): (Session, seq<Action>) {
    Finish(s, Err(InvalidState(UnexpectedEvent)))
  }

  /** Put some actions in front. */
  function After(first: seq<Action>, r: (Session, seq<Action>)): (Session, seq<Action>) {
    (r.0, first + r.1)
  }

  /** The opening-mode tag added to the session's copy of the key in office mode. */
  function KeyFor(key: MobileKey.Key, mode: Mode): MobileKey.Key {
    if mode == Office then
      var id := MobileKey.OPENING_MODE;
      key.(tags := key.tags[id := MobileKey.Tag(id, MobileKey.READABLE + MobileKey.READ_WITHOUT_SECURITY, [1])])
    else key
  }

  function StartFlow(key: MobileKey.Key): Flow {
    Flow(Stack.Stack(Ssp.Fresh(key.knKey), Justin.NewWithKey(key)), true, None, false, 0)
  }

  function BeginV0200(s: Session): (Session, seq<Action>) {
    (s.(state := V0200(StartFlow(KeyFor(s.key, s.options.mode)))),
     [SetTimer(FirstPacket, s.options.timeouts.firstPacketMs)])
  }

  function BeginV0100(s: Session): (Session, seq<Action>) {
    var identify := [IDENTIFY] + s.key.tag1;
    (s.(state := V0100(s.key.knKey, AwaitingNonce)),
     [Note(Tx(identify)), Write(identify), Pause(SETTLE_MS), SetTimer(FirstPacket, s.options.timeouts.firstPacketMs)])
  }

  function Begin(s: Session, major: Option<byte>): (Session, seq<Action>) {
    if major.Some? && major.value != 1 && major.value != 2 then Finish(s, Err(InvalidProtocolVersion(major.value)))
    else After([Subscribe, Report(Authenticating)], if major == Some(1) then BeginV0100(s) else BeginV0200(s))
  }

  function PollIdle(s: Session, e: Event): (Session, seq<Action>) {
    match e
    case Started =>
      if s.options.detection == NoDetection then
        After([Report(DetectingVersion), Note(Info(DetectionSkipped))], Begin(s, None))
      else if !s.options.notifyReadable then
        After([Report(DetectingVersion), Note(Info(NotReadable))], Begin(s, None))
      else
        (s.(state := Detecting),
         [Report(DetectingVersion)]
         + (if s.options.detection == AppProtocol then [AnnounceAppProtocol] else [])
         + [ReadProtocolInfo(s.options.timeouts.protocolInfoReadMs)])
    case LinkClosed => Finish(s, Err(Disconnected))
    case _ => Unexpected(s)
  }

  function PollDetecting(s: Session, e: Event): (Session, seq<Action>) {
    match e
    case ProtocolInfo(Some(info)) =>
      if |info| >= 3 && info[0] == 0x01 then After([Note(ReadBack(info))], Begin(s, Some(info[2])))
      else After([Note(ReadBack(info)), Note(Info(OddProtocolInfo))], Begin(s, None))
    case ProtocolInfo(None) => After([Note(Info(ReadFailed))], Begin(s, None))
    case LinkClosed => Finish(s, Err(Disconnected))
    case _ => Unexpected(s)
  }

  /** Which wait comes next, and how long it is. */
  function NextWait(t: Timeouts, f: Flow): (TimerId, u32) {
    if f.finalOpResult.Some? then (AfterFinalResult, t.afterFinalResultMs)
    else if f.firstPacket then (FirstPacket, t.firstPacketMs)
    else (Packet, t.packetMs)
  }

  /** A packet the stack answered: trace, write, notice refusals, phase and verdict. */
  function Answered(f: Flow, response: bytes): (Flow, seq<Action>) {
    var refusals := f.stack.justin.knReadRefusals;
    var enters := !f.exchanging && f.stack.ssp.state == Ssp.InSession;
    var audit := f.stack.justin.lastAuditOpResult;
    var verdict := if f.finalOpResult.None? && audit.Some? && IsFinal(audit.value) then audit else f.finalOpResult;
    (f.(tracedKnRefusals := if refusals > f.tracedKnRefusals then refusals else f.tracedKnRefusals,
        exchanging := f.exchanging || enters,
        finalOpResult := verdict),
     [Note(Tx(response))]
     + (if refusals > f.tracedKnRefusals then [Note(Info(RefusedKnKey))] else [])
     + [Write(response)]
     + (if enters then [Report(Exchanging)] else []))
  }

  function PollV0200(env: Ssp.Env, s: Session, f: Flow, e: Event): (Session, seq<Action>) {
    match e
    case Notification(packet) =>
      var (stack, r) := Stack.HandlePacket(env, Justin.NoopStore(), f.stack, packet);
      var received := f.(stack := stack);
      if r.Err? then After([Note(Rx(packet))], Finish(s.(state := V0200(received)), Err(r.error)))
      else
        var (answered, out) := Answered(received, r.value);
        if stack.justin.state == Justin.Ready then
          After([Note(Rx(packet))] + out,
                Finish(s.(state := V0200(answered)), Ok(NewOutcome(2, answered.finalOpResult))))
        else
          var waiting := answered.(firstPacket := false);
          var (id, ms) := NextWait(s.options.timeouts, waiting);
          (s.(state := V0200(waiting)), [Note(Rx(packet))] + out + [SetTimer(id, ms)])
    case Timer(_) =>
      if f.finalOpResult.Some? then
        After([Note(Info(SilentAfterResult))], Finish(s, Ok(NewOutcome(2, f.finalOpResult))))
      else After([Note(Info(NoPacket))], Finish(s, Err(Timeout(NextWait(s.options.timeouts, f).1))))
    case LinkClosed => After([Note(Info(LockDisconnected))], Finish(s, Ok(NewOutcome(2, f.finalOpResult))))
    case _ => Unexpected(s)
  }

  function StepWait(t: Timeouts, step: Step): (TimerId, u32) {
    if step == AwaitingNonce then (FirstPacket, t.firstPacketMs) else (Packet, t.packetMs)
  }

  function PollV0100(env: Ssp.Env, s: Session, knKey: Block, step: Step, e: Event): (Session, seq<Action>) {
    match e
    case Notification(packet) =>
      if packet == [] || packet[0] != ExpectedPrefix(step) then
        (s, [Note(Rx(packet)), Note(Info(UnexpectedPacket))])
      else if step == AwaitingNonce then
        if |packet| < 1 + NONCE_LENGTH then
          After([Note(Rx(packet))], Finish(s, Err(InvalidData(NonceTooShort))))
        else
          var signed := [SIGNED_NONCE] + Cbc.Encrypt(env.cipher, knKey, SIGN_IV, packet[1..17]);
          (s.(state := V0100(knKey, AwaitingResult)),
           [Note(Rx(packet)), Report(Exchanging), Note(Tx(signed)), Write(signed),
            SetTimer(Packet, s.options.timeouts.packetMs)])
      else if |packet| < 2 then After([Note(Rx(packet))], Finish(s, Err(InvalidData(ResultTooShort))))
      else After([Note(Rx(packet))], Finish(s, Ok(NewOutcome(1, Some(packet[1])))))
    case Timer(_) =>
      After([Note(Info(NoPacket))], Finish(s, Err(Timeout(StepWait(s.options.timeouts, step).1))))
    case LinkClosed => Finish(s, Err(Disconnected))
    case _ => Unexpected(s)
  }

  function Poll(env: Ssp.Env, s: Session, e: Event): (Session, seq<Action>) {
    if s.finished then (s, [])
    else if e.Aborted? then Finish(s, Err(Cancelled))
    else
      match s.state
      case Idle => PollIdle(s, e)
      case Detecting => PollDetecting(s, e)
      case V0200(flow) => PollV0200(env, s, flow, e)
      case V0100(knKey, step) => PollV0100(env, s, knKey, step, e)
  }

  // ---------------------------------------------------------------- the code

  class V0200Flow {
    const stack: Stack.JustinStack0100
    var firstPacket: bool
    var finalOpResult: Option<byte>
    var exchanging: bool
    var tracedKnRefusals: nat

    constructor (stack: Stack.JustinStack0100)
      ensures this.stack == stack && firstPacket && finalOpResult == None && !exchanging && tracedKnRefusals == 0
    {
      this.stack, firstPacket, finalOpResult, exchanging, tracedKnRefusals := stack, true, None, false, 0;
    }

    ghost function Value(): Flow
      reads this, stack.ssp, stack.justin
    {
      Flow(stack.Value(), firstPacket, finalOpResult, exchanging, tracedKnRefusals)
    }
  }

  datatype StateRef = IdleRef | DetectingRef | V0200Ref(flow: V0200Flow) | V0100Ref(knKey: Block, step: Step)

  class OpeningSession {
    const key: MobileKey.Key
    const options: Options
    const env: Ssp.Env
    var state: StateRef
    var finished: bool

    /** The objects behind the current state. */
    ghost function Repr(): set<object>
      reads this
    {
      if state.V0200Ref? then {state.flow, state.flow.stack.ssp, state.flow.stack.justin} else {}
    }

    ghost predicate Valid()
      reads this, Repr()
    {
      state.V0200Ref? ==>
        state.flow.stack.ssp.env == env && state.flow.stack.justin.store == Justin.NoopStore()
    }

    ghost function StateValue(): State
      reads this, Repr()
    {
      match state
      case IdleRef => Idle
      case DetectingRef => Detecting
      case V0200Ref(flow) => V0200(flow.Value())
      case V0100Ref(knKey, step) => V0100(knKey, step)
    }

    ghost function Value(): Session
      reads this, Repr()
    {
      Session(key, options, StateValue(), finished)
    }

    constructor (key: MobileKey.Key, options: Options, env: Ssp.Env)
      ensures Valid() && Value() == New(key, options) && this.env == env
    {
      this.key, this.options, this.env := key, options, env;
      state, finished := IdleRef, false;
    }

    method PollEvent(event: Event) returns (out: seq<Action>)
      requires Valid()
      modifies this, Repr()
      ensures Valid() && fresh(Repr() - old(Repr()))
      ensures (Value(), out) == Poll(env, old(Value()), event)
    {
      if finished {
        return [];
      }
      if event.Aborted? {
        out := FinishWith(Err(Cancelled));
        return;
      }
      match state
      case IdleRef => out := PollIdleState(event);
      case DetectingRef => out := PollDetectingState(event);
      case V0200Ref(_) => out := PollV0200State(event);
      case V0100Ref(_, _) => out := PollV0100State(event);
    }

    method FinishWith(result: Result<Outcome>) returns (out: seq<Action>)
      modifies this`finished
      ensures finished && out == [Report(Finished), Done(result)]
    {
      out := [Report(Finished)];
      out := out + [Done(result)];
      finished := true;
    }

    method PollIdleState(event: Event) returns (out: seq<Action>)
      requires Valid() && state == IdleRef && !finished
      modifies this
      ensures Valid() && fresh(Repr())
      ensures (Value(), out) == PollIdle(old(Value()), event)
    {
      match event
      case Started =>
        out := [Report(DetectingVersion)];
        if options.detection == NoDetection {
          out := out + [Note(Info(DetectionSkipped))];
          assert out == [Report(DetectingVersion), Note(Info(DetectionSkipped))];
          var rest := BeginFlow(None);
          out := out + rest;
          return;
        }
        if !options.notifyReadable {
          out := out + [Note(Info(NotReadable))];
          assert out == [Report(DetectingVersion), Note(Info(NotReadable))];
          var rest := BeginFlow(None);
          out := out + rest;
          return;
        }
        if options.detection == AppProtocol {
          out := out + [AnnounceAppProtocol];
        }
        assert out == [Report(DetectingVersion)]
                      + (if options.detection == AppProtocol then [AnnounceAppProtocol] else []);
        out := out + [ReadProtocolInfo(options.timeouts.protocolInfoReadMs)];
        state := DetectingRef;
      case LinkClosed => out := FinishWith(Err(Disconnected));
      case _ => out := FinishWith(Err(InvalidState(UnexpectedEvent)));
    }

    method PollDetectingState(event: Event) returns (out: seq<Action>)
      requires Valid() && state == DetectingRef && !finished
      modifies this
      ensures Valid() && fresh(Repr())
      ensures (Value(), out) == PollDetecting(old(Value()), event)
    {
      match event
      case ProtocolInfo(Some(info)) =>
        out := [Note(ReadBack(info))];
        var major: Option<byte> := None;
        if |info| >= 3 && info[0] == 0x01 {
          major := Some(info[2]);
        } else {
          out := out + [Note(Info(OddProtocolInfo))];
          assert out == [Note(ReadBack(info)), Note(Info(OddProtocolInfo))];
        }
        var rest := BeginFlow(major);
        out := out + rest;
      case ProtocolInfo(None) =>
        out := [Note(Info(ReadFailed))];
        var rest := BeginFlow(None);
        out := out + rest;
      case LinkClosed => out := FinishWith(Err(Disconnected));
      case _ => out := FinishWith(Err(InvalidState(UnexpectedEvent)));
    }

    method BeginFlow(major: Option<byte>) returns (out: seq<Action>)
      requires Valid() && !state.V0200Ref? && !finished
      modifies this
      ensures Valid() && fresh(Repr())
      ensures (Value(), out) == Begin(old(Value()), major)
    {
      if major.Some? {
        if major.value != 1 && major.value != 2 {
          out := FinishWith(Err(InvalidProtocolVersion(major.value)));
          return;
        }
      }
      out := [Subscribe];
      out := out + [Report(Authenticating)];
      assert out == [Subscribe, Report(Authenticating)];
      var rest: seq<Action>;
      if major == Some(1) {
        rest := BeginV0100State();
      } else {
        rest := BeginV0200State();
      }
      out := out + rest;
    }

    method BeginV0200State() returns (out: seq<Action>)
      requires !finished
      modifies this
      ensures Valid() && fresh(Repr())
      ensures (Value(), out) == BeginV0200(Session(key, options, Idle, old(finished)))
    {
      var copy := key;
      if options.mode == Office {
        var id := MobileKey.OPENING_MODE;
        copy := copy.(tags := copy.tags[
          id := MobileKey.Tag(id, MobileKey.READABLE + MobileKey.READ_WITHOUT_SECURITY, [1])]);
      }
      var ssp := new Ssp.SecureProtocolManager(copy.knKey, env);
      var justin := new Justin.JustinProtocolManager.WithKey(copy);
      var stack := new Stack.JustinStack0100(ssp, justin);
      var flow := new V0200Flow(stack);
      state := V0200Ref(flow);
      out := [SetTimer(FirstPacket, options.timeouts.firstPacketMs)];
    }

    method BeginV0100State() returns (out: seq<Action>)
      requires !finished
      modifies this
      ensures Valid() && Repr() == {}
      ensures (Value(), out) == BeginV0100(Session(key, options, Idle, old(finished)))
    {
      var identify := [IDENTIFY];
      identify := identify + key.tag1;
      state := V0100Ref(key.knKey, AwaitingNonce);
      out := [Note(Tx(identify))];
      out := out + [Write(identify)];
      out := out + [Pause(SETTLE_MS)];
      out := out + [SetTimer(FirstPacket, options.timeouts.firstPacketMs)];
      assert out == BeginV0100(Session(key, options, Idle, false)).1;
    }

    method PollV0200State(event: Event) returns (out: seq<Action>)
      requires Valid() && state.V0200Ref? && !finished
      modifies this`finished, Repr()
      ensures Valid() && state == old(state)
      ensures (Value(), out) == PollV0200(env, old(Value()), old(state.flow.Value()), event)
    {
      var flow := state.flow;
      match event
      case Notification(packet) =>
        out := [Note(Rx(packet))];
        var response := flow.stack.HandlePacketBytes(packet);
        if response.Err? {
          var rest := FinishWith(Err(response.error));
          out := out + rest;
          return;
        }
        var answered := AnswerPacket(flow, response.value);
        out := out + answered;
        if flow.stack.justin.state == Justin.Ready {
          var rest := FinishWith(Ok(NewOutcome(2, flow.finalOpResult)));
          out := out + rest;
          return;
        }
        flow.firstPacket := false;
        var (id, ms) := WaitOf(flow);
        out := out + [SetTimer(id, ms)];
      case Timer(_) =>
        var (_, waited) := WaitOf(flow);
        if flow.finalOpResult.Some? {
          out := [Note(Info(SilentAfterResult))];
          var rest := FinishWith(Ok(NewOutcome(2, flow.finalOpResult)));
          out := out + rest;
        } else {
          out := [Note(Info(NoPacket))];
          var rest := FinishWith(Err(Timeout(waited)));
          out := out + rest;
        }
      case LinkClosed =>
        out := [Note(Info(LockDisconnected))];
        var rest := FinishWith(Ok(NewOutcome(2, flow.finalOpResult)));
        out := out + rest;
      case _ => out := FinishWith(Err(InvalidState(UnexpectedEvent)));
    }

    function WaitOf(flow: V0200Flow): (r: (TimerId, u32))
      reads flow, flow.stack.ssp, flow.stack.justin
      ensures r == NextWait(options.timeouts, flow.Value())
    {
      if flow.finalOpResult.Some? then (AfterFinalResult, options.timeouts.afterFinalResultMs)
      else if flow.firstPacket then (FirstPacket, options.timeouts.firstPacketMs)
      else (Packet, options.timeouts.packetMs)
    }

    method AnswerPacket(flow: V0200Flow, response: bytes) returns (out: seq<Action>)
      modifies flow
      ensures (flow.Value(), out) == Answered(old(flow.Value()), response)
    {
      ghost var was := flow.Value();
      out := [Note(Tx(response))];
      var refusals := flow.stack.justin.knReadRefusals;
      if refusals > flow.tracedKnRefusals {
        flow.tracedKnRefusals := refusals;
        out := out + [Note(Info(RefusedKnKey))];
      }
      assert out == [Note(Tx(response))] + if refusals > was.tracedKnRefusals then [Note(Info(RefusedKnKey))] else [];
      out := out + [Write(response)];
      if !flow.exchanging && flow.stack.ssp.state == Ssp.InSession {
        flow.exchanging := true;
        out := out + [Report(Exchanging)];
      }
      assert out == Answered(was, response).1;
      if flow.finalOpResult.None? {
        var audit := flow.stack.justin.lastAuditOpResult;
        if audit.Some? {
          if IsFinal(audit.value) {
            flow.finalOpResult := Some(audit.value);
          }
        }
      }
    }

    method PollV0100State(event: Event) returns (out: seq<Action>)
      requires Valid() && state.V0100Ref? && !finished
      modifies this
      ensures Valid() && Repr() == {}
      ensures (Value(), out) == PollV0100(env, old(Value()), old(state.knKey), old(state.step), event)
    {
      var knKey, step := state.knKey, state.step;
      match event
      case Notification(packet) =>
        out := [Note(Rx(packet))];
        if packet == [] || packet[0] != ExpectedPrefix(step) {
          out := out + [Note(Info(UnexpectedPacket))];
          assert out == [Note(Rx(packet)), Note(Info(UnexpectedPacket))];
          return;
        }
        match step {
          case AwaitingNonce =>
            if |packet| < 1 + NONCE_LENGTH {
              var rest := FinishWith(Err(InvalidData(NonceTooShort)));
              out := out + rest;
              return;
            }
            var encrypted := Cbc.EncryptAesCbc(env.cipher, knKey, SIGN_IV, packet[1..1 + NONCE_LENGTH]);
            var signed := [SIGNED_NONCE];
            signed := signed + encrypted;
            state := V0100Ref(knKey, AwaitingResult);
            out := out + [Report(Exchanging)];
            out := out + [Note(Tx(signed))];
            out := out + [Write(signed)];
            out := out + [SetTimer(Packet, options.timeouts.packetMs)];
            assert out == [Note(Rx(packet)), Report(Exchanging), Note(Tx(signed)), Write(signed),
                           SetTimer(Packet, options.timeouts.packetMs)];
          case AwaitingResult =>
            if |packet| < 2 {
              var rest := FinishWith(Err(InvalidData(ResultTooShort)));
              out := out + rest;
              return;
            }
            var rest := FinishWith(Ok(NewOutcome(1, Some(packet[1]))));
            out := out + rest;
        }
      case Timer(_) =>
        var waited := match step
          case AwaitingNonce => options.timeouts.firstPacketMs
          case AwaitingResult => options.timeouts.packetMs;
        out := [Note(Info(NoPacket))];
        var rest := FinishWith(Err(Timeout(waited)));
        out := out + rest;
      case LinkClosed => out := FinishWith(Err(Disconnected));
      case _ => out := FinishWith(Err(InvalidState(UnexpectedEvent)));
    }
  }
}
