/** The opening attempt over whole runs: packets, replies, timers and the verdict. */
module SessionLedger {
  import opened Bytes
  import opened Session
  import opened SessionRuns
  import Cbc
  import Justin
  import JustinRuns
  import MobileKey
  import Ssp
  import Stack

  // ------------------------------------------------- what the packets alone say

  /** The stack fed with some packets, and the replies it gave. */
  function StackRun(env: Ssp.Env, key: MobileKey.Key, packets: seq<bytes>): (Stack.Stack, seq<bytes>) {
    if packets == [] then (Stack.Stack(Ssp.Fresh(key.knKey), Justin.NewWithKey(key)), [])
    else
      var (stack, replies) := StackRun(env, key, packets[..|packets| - 1]);
      var (stack', r) := Stack.HandlePacket(env, Justin.NoopStore(), stack, packets[|packets| - 1]);
      (stack', if r.Ok? then replies + [r.value] else replies)
  }

  /** The command a packet brings to Justin, if it brings one. */
  function Delivered(env: Ssp.Env, s: Stack.Stack, packet: bytes): Option<JustinRuns.Command> {
    if |packet| < 2 || packet[0] % 2 == 1 then None
    else if packet[0] / 2 % 2 == 1 then
      var payload := Ssp.ProcessPacket(env, s.ssp, packet).1;
      if payload.Err? then None else Some(JustinRuns.Command(true, payload.value))
    else Some(JustinRuns.Command(false, packet[1..]))
  }

  function Commands(env: Ssp.Env, key: MobileKey.Key, packets: seq<bytes>): seq<JustinRuns.Command> {
    if packets == [] then []
    else
      var before := packets[..|packets| - 1];
      var c := Delivered(env, StackRun(env, key, before).0, packets[|packets| - 1]);
      Commands(env, key, before) + if c.Some? then [c.value] else []
  }

  /** The last command is an accepted write of a final result to the audit tag. */
  predicate DecidesLast(key: MobileKey.Key, commands: seq<JustinRuns.Command>)
    requires commands != []
  {
    JustinRuns.WritesLast(key, commands, 0x0B) && commands[|commands| - 1].data[2] % 4 >= 2
  }

  /** The first accepted audit write that accepts or rejects, from the history alone. */
  function FirstVerdict(key: MobileKey.Key, commands: seq<JustinRuns.Command>): Option<byte> {
    if commands == [] then None
    else
      var before := FirstVerdict(key, commands[..|commands| - 1]);
      if before.Some? then before
      else if DecidesLast(key, commands) then Some(commands[|commands| - 1].data[2])
      else None
  }

  /** The audit result Justin remembers is a final one. */
  predicate AuditFinal(j: Justin.Manager) {
    j.lastAuditOpResult.Some? && IsFinal(j.lastAuditOpResult.value)
  }

  /** The audit result changes only by an accepted write to the audit tag. */
  lemma AuditStep(m: Justin.Manager, c: JustinRuns.Command)
    ensures var (m', r) := JustinRuns.Step(m, c);
      m'.lastAuditOpResult ==
        if |c.data| >= 3 && c.data[0] == 0x03 && c.data[1] == 0x0B && JustinRuns.Succeeded(r)
        then Some(c.data[2]) else m.lastAuditOpResult
  {
  }

  /** Justin inside the stack is Justin run on the delivered commands, up to the per-call flag. */
  lemma {:induction false} JustinOfStack(env: Ssp.Env, key: MobileKey.Key, packets: seq<bytes>)
    ensures Stack.SameButFlag(StackRun(env, key, packets).0.justin, JustinRuns.After(key, Commands(env, key, packets)))
  {
    if packets != [] {
      var before, last := packets[..|packets| - 1], packets[|packets| - 1];
      JustinOfStack(env, key, before);
      var commands := Commands(env, key, before);
      DeliveredStep(env, StackRun(env, key, before).0, JustinRuns.After(key, commands), last);
      var c := Delivered(env, StackRun(env, key, before).0, last);
      if c.Some? {
        assert (commands + [c.value])[..|commands|] == commands;
      } else {
        assert commands + [] == commands;
      }
    }
  }

  lemma DeliveredStep(env: Ssp.Env, s: Stack.Stack, m: Justin.Manager, packet: bytes)
    requires Stack.SameButFlag(s.justin, m)
    ensures var s' := Stack.HandlePacket(env, Justin.NoopStore(), s, packet).0;
      var c := Delivered(env, s, packet);
      Stack.SameButFlag(s'.justin, if c.Some? then JustinRuns.Step(m, c.value).0 else m)
  {
    var c := Delivered(env, s, packet);
    if |packet| >= 2 {
      Ssp.FlagBits(packet[0]);
    }
    if c.Some? {
      Stack.FlagIrrelevant(Justin.NoopStore(), s.justin, m, c.value.secure, c.value.data);
    }
  }

  /** One more packet: how the verdict and the remembered audit result move. */
  lemma VerdictStep(env: Ssp.Env, key: MobileKey.Key, packets: seq<bytes>)
    requires packets != []
    requires var before := packets[..|packets| - 1];
      FirstVerdict(key, Commands(env, key, before)).None? ==> !AuditFinal(StackRun(env, key, before).0.justin)
    ensures var before := packets[..|packets| - 1];
      var was, j := FirstVerdict(key, Commands(env, key, before)), StackRun(env, key, packets).0.justin;
      FirstVerdict(key, Commands(env, key, packets))
        == if was.None? && AuditFinal(j) then j.lastAuditOpResult else was
  {
    hide Stack.HandlePacket, Delivered, StackRun;
    var before, last := packets[..|packets| - 1], packets[|packets| - 1];
    var commands, c := Commands(env, key, before), Delivered(env, StackRun(env, key, before).0, last);
    JustinOfStack(env, key, before);
    JustinOfStack(env, key, packets);
    if c.Some? {
      AuditStep(JustinRuns.After(key, commands), c.value);
      var all := commands + [c.value];
      assert all[..|all| - 1] == commands;
    } else {
      assert commands + [] == commands;
    }
  }

  // ------------------------------------------------- what a run of actions amounts to

  /** Running totals over actions: the armed timer, writes, traced packets either way, the result. */
  datatype Ledger = Ledger(
    armed: Option<(TimerId, u32)>,
    written: seq<bytes>,
    sent: seq<bytes>,
    heard: seq<bytes>,
    result: Option<Result<Outcome>>,
    exchanging: bool,
    refused: nat)

  const BLANK: Ledger := Ledger(None, [], [], [], None, false, 0)

  function Tally(l: Ledger, a: Action): Ledger {
    match a
    case SetTimer(id, ms) => l.(armed := Some((id, ms)))
    case Write(data) => l.(written := l.written + [data])
    case Note(Tx(data)) => l.(sent := l.sent + [data])
    case Note(Rx(data)) => l.(heard := l.heard + [data])
    case Done(result) => l.(result := Some(result))
    case Report(Exchanging) => l.(exchanging := true)
    case Note(Info(RefusedKnKey)) => l.(refused := l.refused + 1)
    case _ => l
  }

  function TallyAll(l: Ledger, a: seq<Action>): Ledger
    decreases a
  {
    if a == [] then l else TallyAll(Tally(l, a[0]), a[1..])
  }

  lemma {:induction false} TallyJoin(l: Ledger, a: seq<Action>, b: seq<Action>)
    ensures TallyAll(l, a + b) == TallyAll(TallyAll(l, a), b)
    decreases a
  {
    if a == [] {
      assert a + b == b;
    } else {
      assert (a + b)[1..] == a[1..] + b;
      TallyJoin(Tally(l, a[0]), a[1..], b);
    }
  }

  lemma TallyTwo(l: Ledger, a: Action, b: Action)
    ensures TallyAll(l, [a]) == Tally(l, a)
    ensures TallyAll(l, [a, b]) == Tally(Tally(l, a), b)
  {
    assert [a, b][1..] == [b];
    assert TallyAll(Tally(l, a), [b]) == Tally(Tally(l, a), b);
  }

  lemma TallyFour(l: Ledger, a: Action, b: Action, c: Action, d: Action)
    ensures TallyAll(l, [a, b, c, d]) == Tally(Tally(Tally(Tally(l, a), b), c), d)
  {
    assert [a, b, c, d] == [a, b] + [c, d];
    TallyJoin(l, [a, b], [c, d]);
    TallyTwo(l, a, b);
    TallyTwo(TallyAll(l, [a, b]), c, d);
  }

  lemma TallyFinish(l: Ledger, s: Session, result: Result<Outcome>)
    ensures TallyAll(l, Finish(s, result).1) == l.(result := Some(result))
  {
    TallyTwo(l, Report(Finished), Done(result));
  }

  lemma TallyNotedEnd(l: Ledger, note: Trace, s: Session, result: Result<Outcome>)
    ensures TallyAll(l, After([Note(note)], Finish(s, result)).1) == Tally(l, Note(note)).(result := Some(result))
  {
    TallyJoin(l, [Note(note)], Finish(s, result).1);
    TallyTwo(l, Note(note), Note(note));
    TallyFinish(Tally(l, Note(note)), s, result);
  }

  lemma TallyDone(l: Ledger, a: seq<Action>, result: Result<Outcome>)
    requires a != [] && a[|a| - 1] == Done(result)
    ensures TallyAll(l, a).result == Some(result)
  {
    var before := a[..|a| - 1];
    assert a == before + [Done(result)];
    TallyJoin(l, before, [Done(result)]);
    TallyTwo(TallyAll(l, before), Done(result), Done(result));
  }

  predicate EndedOk(l: Ledger) {
    l.result.Some? && l.result.value.Ok?
  }

  predicate EndedByTimeout(l: Ledger) {
    l.result.Some? && l.result.value.Err? && l.result.value.error.Timeout?
  }

  /** The v0200 flow against the packets heard: the stack, the replies, the verdict, the armed wait. */
  ghost predicate AccountsV0200(env: Ssp.Env, s: Session, f: Flow, l: Ledger) {
    var key := KeyFor(s.key, s.options.mode);
    var (stack, replies) := StackRun(env, key, l.heard);
    var verdict := FirstVerdict(key, Commands(env, key, l.heard));
    && f.stack == stack && l.written == replies
    && l.refused == stack.justin.knReadRefusals && l.exchanging == f.exchanging
    && (l.exchanging <==> stack.ssp.state == Ssp.InSession)
    && (!s.finished ==>
      && f.tracedKnRefusals == stack.justin.knReadRefusals
      && f.finalOpResult == verdict && (verdict.None? ==> !AuditFinal(stack.justin))
      && f.firstPacket == (l.heard == [])
      && stack.justin.state == Justin.Connected
      && l.armed == Some(NextWait(s.options.timeouts, f)))
    && (EndedOk(l) ==> l.result.value.value == NewOutcome(2, verdict))
  }

  /** The first packet that starts like a nonce. */
  function FirstNonce(packets: seq<bytes>): Option<bytes> {
    if packets == [] then None
    else
      var before, last := FirstNonce(packets[..|packets| - 1]), packets[|packets| - 1];
      if before.Some? then before
      else if last != [] && last[0] == 0x03 then Some(last)
      else None
  }

  lemma FirstNoncePush(packets: seq<bytes>, packet: bytes)
    ensures FirstNonce(packets + [packet]) ==
      if FirstNonce(packets).Some? then FirstNonce(packets)
      else if packet != [] && packet[0] == 0x03 then Some(packet)
      else None
  {
    assert (packets + [packet])[..|packets|] == packets;
  }

  /** What a v0100 flow has written: who it is and, once it has its nonce, that nonce signed. */
  ghost predicate WrittenV0100(env: Ssp.Env, s: Session, knKey: Block, step: Step, l: Ledger) {
    var identify, nonce := [0x02] + s.key.tag1, FirstNonce(l.heard);
    && knKey == s.key.knKey
    && if step == AwaitingNonce then
         l.written == [identify] && (nonce.None? || (s.finished && |nonce.value| < 17))
       else
         && nonce.Some? && |nonce.value| >= 17
         && l.written == [identify, [0x04] + Cbc.Encrypt(env.cipher, knKey, SIGN_IV, nonce.value[1..17])]
  }

  /** The v0100 flow: the armed wait, and the verdict as the second byte of the last packet heard. */
  ghost predicate AccountsV0100(s: Session, step: Step, l: Ledger) {
    && (l.exchanging <==> step == AwaitingResult)
    && (!s.finished ==> l.armed == Some(StepWait(s.options.timeouts, step)))
    && (EndedOk(l) ==>
      && l.heard != []
      && var last := l.heard[|l.heard| - 1];
      |last| >= 2 && last[0] == 0x05 && l.result.value.value == NewOutcome(1, Some(last[1])))
  }

  ghost predicate Accounts(env: Ssp.Env, s: Session, l: Ledger) {
    && (s.finished <==> l.result.Some?)
    && l.sent == l.written
    && (EndedByTimeout(l) ==> l.armed.Some? && l.result.value.error.afterMs == l.armed.value.1)
    && match s.state
       case Idle => l == BLANK.(result := l.result) && !EndedOk(l)
       case Detecting => l == BLANK.(result := l.result) && !EndedOk(l)
       case V0200(f) => AccountsV0200(env, s, f, l)
       case V0100(knKey, step) => AccountsV0100(s, step, l) && WrittenV0100(env, s, knKey, step, l)
  }

  /** The packet an unfinished exchange is fed by this event. */
  function Heard(s: Session, e: Event): seq<bytes> {
    if e.Notification? && !s.finished && (s.state.V0200? || s.state.V0100?) then [e.packet] else []
  }

  /** The totals after some actions agree with the state they lead to, and grow by the packets fed. */
  ghost predicate Balanced(env: Ssp.Env, s: Session, l: Ledger, fed: seq<bytes>, r: (Session, seq<Action>)) {
    && Accounts(env, r.0, TallyAll(l, r.1))
    && TallyAll(l, r.1).heard == l.heard + fed
  }

  lemma LedgerBegin(env: Ssp.Env, s: Session, l: Ledger, major: Option<byte>)
    requires !s.finished && (s.state.Idle? || s.state.Detecting?) && l == BLANK
    ensures Balanced(env, s, l, [], Begin(s, major))
  {
    hide Stack.HandlePacket;
    if major.Some? && major.value != 1 && major.value != 2 {
      TallyFinish(l, s, Err(InvalidProtocolVersion(major.value)));
    } else {
      var (s', rest) := if major == Some(1) then BeginV0100(s) else BeginV0200(s);
      TallyJoin(l, [Subscribe, Report(Authenticating)], rest);
      TallyTwo(l, Subscribe, Report(Authenticating));
      if major == Some(1) {
        LedgerBeginV0100(env, s, l);
      } else {
        TallyTwo(l, rest[0], rest[0]);
      }
    }
  }

  lemma LedgerBeginV0100(env: Ssp.Env, s: Session, l: Ledger)
    requires !s.finished && l == BLANK
    ensures Balanced(env, s, l, [], BeginV0100(s))
  {
    hide Stack.HandlePacket, StackRun, Commands, FirstVerdict;
    var rest := BeginV0100(s).1;
    TallyFour(l, rest[0], rest[1], rest[2], rest[3]);
  }

  /** Notes without packets in front of a start change no totals. */
  lemma LedgerNotedBegin(env: Ssp.Env, s: Session, l: Ledger, first: seq<Action>, major: Option<byte>)
    requires !s.finished && (s.state.Idle? || s.state.Detecting?) && l == BLANK && 1 <= |first| <= 2
    requires forall i :: 0 <= i < |first| ==> Tally(BLANK, first[i]) == BLANK
    ensures Balanced(env, s, l, [], After(first, Begin(s, major)))
  {
    hide Stack.HandlePacket, StackRun, Commands, FirstVerdict, Accounts;
    TallyJoin(l, first, Begin(s, major).1);
    if |first| == 1 {
      assert first == [first[0]];
    } else {
      assert first == [first[0], first[1]];
    }
    TallyTwo(l, first[0], first[|first| - 1]);
    LedgerBegin(env, s, l, major);
  }

  lemma TallyDetection(l: Ledger, announce: seq<Action>, read: Action)
    requires announce == [] || announce == [AnnounceAppProtocol]
    requires read.ReadProtocolInfo?
    ensures TallyAll(l, [Report(DetectingVersion)] + announce + [read]) == l
  {
    TallyJoin(l, [Report(DetectingVersion)] + announce, [read]);
    TallyJoin(l, [Report(DetectingVersion)], announce);
    TallyTwo(l, Report(DetectingVersion), read);
    TallyTwo(l, AnnounceAppProtocol, read);
    TallyTwo(l, read, read);
  }

  lemma LedgerIdle(env: Ssp.Env, s: Session, l: Ledger, e: Event)
    requires s.state.Idle? && !s.finished && l == BLANK
    ensures Balanced(env, s, l, Heard(s, e), PollIdle(s, e))
  {
    hide Stack.HandlePacket, StackRun, Commands, FirstVerdict, PollV0200, PollV0100;
    match e
    case Started =>
      if s.options.detection == NoDetection {
        LedgerNotedBegin(env, s, l, [Report(DetectingVersion), Note(Info(DetectionSkipped))], None);
      } else if !s.options.notifyReadable {
        LedgerNotedBegin(env, s, l, [Report(DetectingVersion), Note(Info(NotReadable))], None);
      } else {
        var read := ReadProtocolInfo(s.options.timeouts.protocolInfoReadMs);
        var announce := if s.options.detection == AppProtocol then [AnnounceAppProtocol] else [];
        TallyDetection(l, announce, read);
      }
    case LinkClosed => TallyFinish(l, s, Err(Disconnected));
    case _ => TallyFinish(l, s, Err(InvalidState(UnexpectedEvent)));
  }

  lemma LedgerDetecting(env: Ssp.Env, s: Session, l: Ledger, e: Event)
    requires s.state.Detecting? && !s.finished && l == BLANK
    ensures Balanced(env, s, l, Heard(s, e), PollDetecting(s, e))
  {
    hide Stack.HandlePacket, StackRun, Commands, FirstVerdict;
    match e
    case ProtocolInfo(Some(info)) =>
      if |info| >= 3 && info[0] == 0x01 {
        LedgerNotedBegin(env, s, l, [Note(ReadBack(info))], Some(info[2]));
      } else {
        LedgerNotedBegin(env, s, l, [Note(ReadBack(info)), Note(Info(OddProtocolInfo))], None);
      }
    case ProtocolInfo(None) => LedgerNotedBegin(env, s, l, [Note(Info(ReadFailed))], None);
    case LinkClosed => TallyFinish(l, s, Err(Disconnected));
    case _ => TallyFinish(l, s, Err(InvalidState(UnexpectedEvent)));
  }

  /** Refusals of kN that an answer has still to note. */
  function Notes(f: Flow): nat {
    if f.stack.justin.knReadRefusals > f.tracedKnRefusals then 1 else 0
  }

  /** This answer is the first in session. */
  predicate NowExchanging(f: Flow) {
    !f.exchanging && f.stack.ssp.state == Ssp.InSession
  }

  lemma TallyOptional(l: Ledger, present: bool, a: Action)
    ensures TallyAll(l, if present then [a] else []) == if present then Tally(l, a) else l
  {
    TallyTwo(l, a, a);
  }

  lemma TallyAnswered(l: Ledger, f: Flow, response: bytes)
    ensures TallyAll(l, Answered(f, response).1)
         == l.(sent := l.sent + [response], written := l.written + [response],
               refused := l.refused + Notes(f), exchanging := l.exchanging || NowExchanging(f))
  {
    hide TallyAll;
    var refused := if Notes(f) == 1 then [Note(Info(RefusedKnKey))] else [];
    var report := if NowExchanging(f) then [Report(Exchanging)] else [];
    var sent := l.(sent := l.sent + [response]);
    var noted := sent.(refused := l.refused + Notes(f));
    var both := noted.(written := l.written + [response]);
    TallyJoin(l, [Note(Tx(response))] + refused + [Write(response)], report);
    TallyJoin(l, [Note(Tx(response))] + refused, [Write(response)]);
    TallyJoin(l, [Note(Tx(response))], refused);
    TallyOptional(l, true, Note(Tx(response)));
    TallyOptional(sent, Notes(f) == 1, Note(Info(RefusedKnKey)));
    TallyOptional(noted, true, Write(response));
    TallyOptional(both, NowExchanging(f), Report(Exchanging));
  }

  /** The stack never reports a timeout. */
  lemma StackErrors(env: Ssp.Env, store: Justin.KeyStore, stack: Stack.Stack, packet: bytes)
    ensures var r := Stack.HandlePacket(env, store, stack, packet).1; r.Err? ==> !r.error.Timeout?
  {
    hide Cbc.Decrypt, Cbc.LastBlock, Ssp.Seal, Justin.ReadTag, Justin.WriteTag;
  }

  /** A packet adds at most one refusal, and then it is answered. */
  lemma RefusalStep(env: Ssp.Env, stack: Stack.Stack, packet: bytes)
    ensures var (stack', r) := Stack.HandlePacket(env, Justin.NoopStore(), stack, packet);
      || stack'.justin.knReadRefusals == stack.justin.knReadRefusals
      || (r.Ok? && stack'.justin.knReadRefusals == stack.justin.knReadRefusals + 1)
  {
    hide Ssp.ProcessPacket, Ssp.WrapData, Justin.CanRead, Justin.CanWrite;
  }

  /** A session, once begun, lasts, and it begins with an answer. */
  lemma StaysInSession(env: Ssp.Env, stack: Stack.Stack, packet: bytes)
    ensures var (stack', r) := Stack.HandlePacket(env, Justin.NoopStore(), stack, packet);
      && (stack.ssp.state == Ssp.InSession ==> stack'.ssp.state == Ssp.InSession)
      && (r.Err? && stack'.ssp.state == Ssp.InSession ==> stack.ssp.state == Ssp.InSession)
  {
    hide Justin.Process, Cbc.Decrypt, Ssp.Unframed, Ssp.Seal, Cbc.LastBlock;
  }

  /** The totals of one packet in the v0200 flow. */
  lemma TallyPacket(env: Ssp.Env, s: Session, l: Ledger, packet: bytes)
    requires s.state.V0200? && !s.finished
    ensures var f := s.state.flow;
      var (stack, r) := Stack.HandlePacket(env, Justin.NoopStore(), f.stack, packet);
      var (s', out) := PollV0200(env, s, f, Notification(packet));
      var heard := l.(heard := l.heard + [packet]);
      TallyAll(l, out) ==
        if r.Err? then heard.(result := Some(Err(r.error)))
        else
          var received := f.(stack := stack);
          var answered := heard.(sent := l.sent + [r.value], written := l.written + [r.value],
                                 refused := l.refused + Notes(received),
                                 exchanging := l.exchanging || NowExchanging(received));
          if stack.justin.state == Justin.Ready then
            answered.(result := Some(Ok(NewOutcome(2, s'.state.flow.finalOpResult))))
          else answered.(armed := Some(NextWait(s.options.timeouts, s'.state.flow)))
  {
    hide Stack.HandlePacket, Answered;
    var f := s.state.flow;
    var (stack, r) := Stack.HandlePacket(env, Justin.NoopStore(), f.stack, packet);
    var received := f.(stack := stack);
    var heard := l.(heard := l.heard + [packet]);
    if r.Err? {
      TallyNotedEnd(l, Rx(packet), s.(state := V0200(received)), Err(r.error));
    } else {
      var (answered, out) := Answered(received, r.value);
      var after := heard.(sent := l.sent + [r.value], written := l.written + [r.value],
                          refused := l.refused + Notes(received),
                          exchanging := l.exchanging || NowExchanging(received));
      TallyTwo(l, Note(Rx(packet)), Note(Rx(packet)));
      TallyJoin(l, [Note(Rx(packet))], out);
      TallyAnswered(heard, received, r.value);
      if stack.justin.state == Justin.Ready {
        var result := Ok(NewOutcome(2, answered.finalOpResult));
        TallyFinish(after, s.(state := V0200(answered)), result);
        TallyJoin(l, [Note(Rx(packet))] + out, Finish(s.(state := V0200(answered)), result).1);
      } else {
        var (id, ms) := NextWait(s.options.timeouts, answered.(firstPacket := false));
        TallyJoin(l, [Note(Rx(packet))] + out, [SetTimer(id, ms)]);
        TallyTwo(after, SetTimer(id, ms), SetTimer(id, ms));
      }
    }
  }

  lemma PushStack(env: Ssp.Env, key: MobileKey.Key, packets: seq<bytes>, packet: bytes)
    ensures var (stack, replies) := StackRun(env, key, packets);
      var (stack', r) := Stack.HandlePacket(env, Justin.NoopStore(), stack, packet);
      StackRun(env, key, packets + [packet]) == (stack', if r.Ok? then replies + [r.value] else replies)
  {
    hide Stack.HandlePacket;
    assert (packets + [packet])[..|packets|] == packets;
  }

  lemma LedgerV0200Packet(env: Ssp.Env, s: Session, l: Ledger, packet: bytes)
    requires s.state.V0200? && !s.finished && Accounts(env, s, l)
    ensures Balanced(env, s, l, [packet], PollV0200(env, s, s.state.flow, Notification(packet)))
  {
    hide Stack.HandlePacket, StackRun, Delivered, FirstVerdict, Commands, TallyAll, KeyFor, Tally;
    hide AccountsV0100, WrittenV0100;
    var f, key, heard := s.state.flow, KeyFor(s.key, s.options.mode), l.heard + [packet];
    assert heard[..|heard| - 1] == l.heard;
    StackErrors(env, Justin.NoopStore(), f.stack, packet);
    RefusalStep(env, f.stack, packet);
    StaysInSession(env, f.stack, packet);
    VerdictStep(env, key, heard);
    PushStack(env, key, l.heard, packet);
    TallyPacket(env, s, l, packet);
  }

  lemma LedgerV0200(env: Ssp.Env, s: Session, l: Ledger, e: Event)
    requires s.state.V0200? && !s.finished && Accounts(env, s, l)
    ensures Balanced(env, s, l, Heard(s, e), PollV0200(env, s, s.state.flow, e))
  {
    hide Stack.HandlePacket, StackRun, Commands, FirstVerdict, AccountsV0100, WrittenV0100, Answered, KeyFor, TallyAll;
    var f := s.state.flow;
    match e
    case Notification(packet) => LedgerV0200Packet(env, s, l, packet);
    case Timer(_) =>
      TallyNotedEnd(l, Info(SilentAfterResult), s, Ok(NewOutcome(2, f.finalOpResult)));
      TallyNotedEnd(l, Info(NoPacket), s, Err(Timeout(NextWait(s.options.timeouts, f).1)));
    case LinkClosed => TallyNotedEnd(l, Info(LockDisconnected), s, Ok(NewOutcome(2, f.finalOpResult)));
    case _ => TallyFinish(l, s, Err(InvalidState(UnexpectedEvent)));
  }

  lemma TallySigned(l: Ledger, packet: bytes, signed: bytes, timer: Action)
    requires timer.SetTimer?
    ensures TallyAll(l, [Note(Rx(packet)), Report(Exchanging), Note(Tx(signed)), Write(signed), timer])
         == l.(heard := l.heard + [packet], sent := l.sent + [signed], written := l.written + [signed],
               armed := Some((timer.id, timer.afterMs)), exchanging := true)
  {
    hide TallyAll;
    var four := [Note(Rx(packet)), Report(Exchanging), Note(Tx(signed)), Write(signed)];
    assert four + [timer] == [Note(Rx(packet)), Report(Exchanging), Note(Tx(signed)), Write(signed), timer];
    TallyJoin(l, four, [timer]);
    TallyFour(l, Note(Rx(packet)), Report(Exchanging), Note(Tx(signed)), Write(signed));
    TallyTwo(TallyAll(l, four), timer, timer);
  }

  lemma LedgerNonce(env: Ssp.Env, s: Session, l: Ledger, packet: bytes)
    requires s.state.V0100? && !s.finished && Accounts(env, s, l)
    requires s.state.step == AwaitingNonce && |packet| >= 17 && packet[0] == 0x03
    ensures Balanced(env, s, l, [packet], PollV0100(env, s, s.state.knKey, s.state.step, Notification(packet)))
  {
    var signed := [0x04] + Cbc.Encrypt(env.cipher, s.state.knKey, SIGN_IV, packet[1..17]);
    var identify := [0x02] + s.key.tag1;
    FirstNoncePush(l.heard, packet);
    TallySigned(l, packet, signed, SetTimer(Packet, s.options.timeouts.packetMs));
    assert [identify] + [signed] == [identify, signed];
  }

  lemma LedgerV0100Packet(env: Ssp.Env, s: Session, l: Ledger, packet: bytes)
    requires s.state.V0100? && !s.finished && Accounts(env, s, l)
    ensures Balanced(env, s, l, [packet], PollV0100(env, s, s.state.knKey, s.state.step, Notification(packet)))
  {
    hide StackRun, Commands, FirstVerdict, Cbc.Encrypt, AccountsV0200, TallyAll, FirstNonce, Stack.HandlePacket;
    var step := s.state.step;
    FirstNoncePush(l.heard, packet);
    if packet == [] || packet[0] != ExpectedPrefix(step) {
      TallyTwo(l, Note(Rx(packet)), Note(Info(UnexpectedPacket)));
    } else if step == AwaitingNonce && |packet| >= 17 {
      LedgerNonce(env, s, l, packet);
    } else {
      TallyNotedEnd(l, Rx(packet), s, Err(InvalidData(NonceTooShort)));
      TallyNotedEnd(l, Rx(packet), s, Err(InvalidData(ResultTooShort)));
      if |packet| >= 2 {
        TallyNotedEnd(l, Rx(packet), s, Ok(NewOutcome(1, Some(packet[1]))));
      }
    }
  }

  lemma LedgerV0100(env: Ssp.Env, s: Session, l: Ledger, e: Event)
    requires s.state.V0100? && !s.finished && Accounts(env, s, l)
    ensures Balanced(env, s, l, Heard(s, e), PollV0100(env, s, s.state.knKey, s.state.step, e))
  {
    hide Stack.HandlePacket, StackRun, Commands, FirstVerdict, Cbc.Encrypt, AccountsV0200;
    match e
    case Notification(packet) => LedgerV0100Packet(env, s, l, packet);
    case Timer(_) =>
      TallyNotedEnd(l, Info(NoPacket), s, Err(Timeout(StepWait(s.options.timeouts, s.state.step).1)));
    case LinkClosed => TallyFinish(l, s, Err(Disconnected));
    case _ => TallyFinish(l, s, Err(InvalidState(UnexpectedEvent)));
  }

  lemma LedgerAborted(env: Ssp.Env, s: Session, l: Ledger, e: Event)
    requires Accounts(env, s, l) && (s.finished || e.Aborted?)
    ensures Balanced(env, s, l, Heard(s, e), Poll(env, s, e))
  {
    TallyFinish(l, s, Err(Cancelled));
  }

  /** Every poll keeps the totals and the state in agreement. */
  lemma LedgerPoll(env: Ssp.Env, s: Session, l: Ledger, e: Event)
    requires Accounts(env, s, l)
    ensures Balanced(env, s, l, Heard(s, e), Poll(env, s, e))
  {
    hide Stack.HandlePacket, StackRun, Commands, FirstVerdict, PollIdle, PollDetecting, PollV0200, PollV0100;
    if s.finished || e.Aborted? {
      LedgerAborted(env, s, l, e);
    } else {
      match s.state
      case Idle => LedgerIdle(env, s, l, e);
      case Detecting => LedgerDetecting(env, s, l, e);
      case V0200(_) => LedgerV0200(env, s, l, e);
      case V0100(_, _) => LedgerV0100(env, s, l, e);
    }
  }

  lemma PollKeepsKey(env: Ssp.Env, s: Session, e: Event)
    ensures var s' := Poll(env, s, e).0; s'.key == s.key && s'.options == s.options
  {
    hide Stack.HandlePacket, KeyFor, StartFlow, Answered, Cbc.Encrypt;
  }

  /** The packets fed to an unfinished exchange, in order. */
  function Fed(env: Ssp.Env, s: Session, events: seq<Event>): seq<bytes> {
    if events == [] then []
    else
      var before := events[..|events| - 1];
      Fed(env, s, before) + Heard(Reached(env, s, before), events[|events| - 1])
  }

  /** The totals of a whole run from a fresh session. */
  function Totals(env: Ssp.Env, key: MobileKey.Key, options: Options, events: seq<Event>): Ledger {
    TallyAll(BLANK, Emitted(env, New(key, options), events))
  }

  lemma {:induction false} LedgerRun(env: Ssp.Env, key: MobileKey.Key, options: Options, events: seq<Event>)
    ensures Accounts(env, Reached(env, New(key, options), events), Totals(env, key, options, events))
    ensures var s := Reached(env, New(key, options), events); s.key == key && s.options == options
    ensures Totals(env, key, options, events).heard == Fed(env, New(key, options), events)
  {
    hide Poll;
    if events != [] {
      var before, last := events[..|events| - 1], events[|events| - 1];
      LedgerRun(env, key, options, before);
      var s := Reached(env, New(key, options), before);
      TallyJoin(BLANK, Emitted(env, New(key, options), before), Poll(env, s, last).1);
      PollKeepsKey(env, s, last);
      LedgerPoll(env, s, Totals(env, key, options, before), last);
    }
  }

  /** The v0200 commands a run has brought to Justin. */
  function Served(env: Ssp.Env, key: MobileKey.Key, options: Options, events: seq<Event>): seq<JustinRuns.Command> {
    Commands(env, KeyFor(key, options.mode), Totals(env, key, options, events).heard)
  }

  function VerdictOf(env: Ssp.Env, key: MobileKey.Key, options: Options, events: seq<Event>): Option<byte> {
    FirstVerdict(KeyFor(key, options.mode), Served(env, key, options, events))
  }

  /**
   * The verdict latch: a v0200 run that ends well carries exactly the first accepted audit write that accepts
   * or rejects, or nothing when there was none.
   */
  lemma VerdictLatch(env: Ssp.Env, key: MobileKey.Key, options: Options, events: seq<Event>)
    requires Reached(env, New(key, options), events).state.V0200?
    requires EndedOk(Totals(env, key, options, events))
    ensures Totals(env, key, options, events).result.value.value
         == NewOutcome(2, VerdictOf(env, key, options, events))
  {
    hide Poll, FirstVerdict, Commands;
    LedgerRun(env, key, options, events);
  }

  /**
   * The v0100 handshake on the wire: the phone says who it is and, exactly when the first packet that starts like a
   * nonce is long enough, sends that nonce under kN, so that a lock holding kN recovers it. It writes nothing else,
   * whatever it hears.
   */
  lemma V0100Handshake(env: Ssp.Env, key: MobileKey.Key, options: Options, events: seq<Event>)
    requires env.cipher.Valid() && Reached(env, New(key, options), events).state.V0100?
    ensures var (written, nonce) :=
        (Totals(env, key, options, events).written, FirstNonce(Fed(env, New(key, options), events)));
      && 1 <= |written| <= 2 && written[0] == [0x02] + key.tag1
      && (|written| == 2 <==> nonce.Some? && |nonce.value| >= 17)
      && (|written| == 2 ==>
        && |written[1]| == 17 && written[1][0] == 0x04
        && Cbc.Decrypt(env.cipher, key.knKey, SIGN_IV, written[1][1..]) == nonce.value[1..17])
  {
    hide Poll, AccountsV0200, Emitted, TallyAll, FirstNonce, Cbc.Encrypt, Cbc.Decrypt, Stack.HandlePacket;
    LedgerRun(env, key, options, events);
    var written := Totals(env, key, options, events).written;
    if |written| == 2 {
      SignedNonce(env, key.knKey, FirstNonce(Totals(env, key, options, events).heard).value[1..17]);
    }
  }

  lemma SignedNonce(env: Ssp.Env, knKey: Block, nonce: bytes)
    requires env.cipher.Valid() && |nonce| == 16
    ensures var signed := [0x04] + Cbc.Encrypt(env.cipher, knKey, SIGN_IV, nonce);
      |signed| == 17 && Cbc.Decrypt(env.cipher, knKey, SIGN_IV, signed[1..]) == nonce
  {
    var cipher := Cbc.Encrypt(env.cipher, knKey, SIGN_IV, nonce);
    assert ([0x04] + cipher)[1..] == cipher;
    Cbc.DecryptEncrypt(env.cipher, knKey, SIGN_IV, nonce);
  }

  /** A v0100 run that ends well reports the second byte of the packet that ended it, a result packet. */
  lemma V0100Verdict(env: Ssp.Env, key: MobileKey.Key, options: Options, events: seq<Event>)
    requires Reached(env, New(key, options), events).state.V0100?
    requires EndedOk(Totals(env, key, options, events))
    ensures var fed := Fed(env, New(key, options), events);
      && fed != []
      && var last := fed[|fed| - 1];
      && |last| >= 2 && last[0] == 0x05
      && Totals(env, key, options, events).result.value.value == NewOutcome(1, Some(last[1]))
  {
    hide Poll;
    LedgerRun(env, key, options, events);
  }

  lemma TotalsStep(env: Ssp.Env, key: MobileKey.Key, options: Options, events: seq<Event>, e: Event)
    ensures Totals(env, key, options, events + [e])
         == TallyAll(Totals(env, key, options, events), Poll(env, Reached(env, New(key, options), events), e).1)
  {
    hide Poll;
    var all, s := events + [e], Reached(env, New(key, options), events);
    assert all[..|all| - 1] == events;
    TallyJoin(BLANK, Emitted(env, New(key, options), events), Poll(env, s, e).1);
  }

  lemma TimerResult(env: Ssp.Env, s: Session, l: Ledger, id: TimerId)
    requires s.state.V0200? && !s.finished && Accounts(env, s, l)
    ensures l.armed.Some?
    ensures var session := KeyFor(s.key, s.options.mode);
      var verdict := FirstVerdict(session, Commands(env, session, l.heard));
      TallyAll(l, Poll(env, s, Timer(id)).1).result == Some(
        if verdict.Some? then Ok(NewOutcome(2, verdict)) else Err(Timeout(l.armed.value.1)))
  {
    var f := s.state.flow;
    TallyNotedEnd(l, Info(SilentAfterResult), s, Ok(NewOutcome(2, f.finalOpResult)));
    TallyNotedEnd(l, Info(NoPacket), s, Err(Timeout(NextWait(s.options.timeouts, f).1)));
  }

  /** A timer ends an unfinished v0200 run as an error exactly when there is no verdict yet. */
  lemma TimerEnds(env: Ssp.Env, key: MobileKey.Key, options: Options, events: seq<Event>, id: TimerId)
    requires var s := Reached(env, New(key, options), events); s.state.V0200? && !s.finished
    ensures var verdict := VerdictOf(env, key, options, events);
      && Totals(env, key, options, events).armed.Some?
      && Totals(env, key, options, events + [Timer(id)]).result == Some(
        if verdict.Some? then Ok(NewOutcome(2, verdict))
        else Err(Timeout(Totals(env, key, options, events).armed.value.1)))
  {
    hide Poll, Accounts;
    LedgerRun(env, key, options, events);
    TotalsStep(env, key, options, events, Timer(id));
    TimerResult(env, Reached(env, New(key, options), events), Totals(env, key, options, events), id);
  }

  /** While a v0200 run is unfinished Justin is connected: no CLOSE has been accepted. */
  lemma StillConnected(env: Ssp.Env, key: MobileKey.Key, options: Options, events: seq<Event>)
    requires var s := Reached(env, New(key, options), events); s.state.V0200? && !s.finished
    ensures Reached(env, New(key, options), events).state.flow.stack.justin.state == Justin.Connected
    ensures !JustinRuns.Closed(KeyFor(key, options.mode), Served(env, key, options, events))
  {
    hide Poll;
    LedgerRun(env, key, options, events);
    var session := KeyFor(key, options.mode);
    JustinOfStack(env, session, Totals(env, key, options, events).heard);
    JustinRuns.StoreRefinement(session, Served(env, key, options, events));
  }

  /** The armed timer of an unfinished run is the wait the history calls for. */
  lemma TimerAgreement(env: Ssp.Env, key: MobileKey.Key, options: Options, events: seq<Event>)
    requires !Reached(env, New(key, options), events).finished
    ensures var (l, t) := (Totals(env, key, options, events), options.timeouts);
      l.armed == match Reached(env, New(key, options), events).state
        case Idle => None
        case Detecting => None
        case V0200(_) => Some(
          if VerdictOf(env, key, options, events).Some? then (AfterFinalResult, t.afterFinalResultMs)
          else if l.heard == [] then (FirstPacket, t.firstPacketMs)
          else (Packet, t.packetMs))
        case V0100(_, _) => Some(
          if FirstNonce(l.heard).None? then (FirstPacket, t.firstPacketMs) else (Packet, t.packetMs))
  {
    hide Poll;
    LedgerRun(env, key, options, events);
  }

  /** A timeout error names the duration that was actually armed. */
  lemma TimeoutsAreArmed(env: Ssp.Env, key: MobileKey.Key, options: Options, events: seq<Event>)
    requires EndedByTimeout(Totals(env, key, options, events))
    ensures var l := Totals(env, key, options, events);
      l.armed.Some? && l.result.value.error.afterMs == l.armed.value.1
  {
    hide Poll;
    LedgerRun(env, key, options, events);
  }

  /** The trace is faithful in every run: it shows exactly the packets written and the packets fed, in order. */
  lemma TraceIsFaithful(env: Ssp.Env, key: MobileKey.Key, options: Options, events: seq<Event>)
    ensures var l := Totals(env, key, options, events);
      l.sent == l.written && l.heard == Fed(env, New(key, options), events)
  {
    hide Poll;
    LedgerRun(env, key, options, events);
  }

  /** On the wire a v0200 run is the stack applied to the packets fed to it, and nothing else. */
  lemma WireIsStack(env: Ssp.Env, key: MobileKey.Key, options: Options, events: seq<Event>)
    requires Reached(env, New(key, options), events).state.V0200?
    ensures var l := Totals(env, key, options, events);
      var (stack, replies) := StackRun(env, KeyFor(key, options.mode), Fed(env, New(key, options), events));
      && l.written == replies
      && Reached(env, New(key, options), events).state.flow.stack == stack
  {
    hide Poll;
    LedgerRun(env, key, options, events);
  }
}
