/** A whole opening: an honest lock talking to a session through the handshake, the channel and the stack. */
module Opening {
  import opened Bytes
  import opened Session
  import opened SessionRuns
  import opened SessionLedger
  import Channel
  import Justin
  import JustinRuns
  import MobileKey
  import Ssp
  import Stack

  /** The packet the lock sends for a move. */
  function PacketFor(env: Ssp.Env, p: Channel.Peer, move: Stack.Move): bytes {
    match move
    case Encrypted(command) => [0x02] + Channel.PeerSeal(env, p, command).1
    case Plain(control, command) => [control] + command
    case Version => [0x01, 0x04]
    case NewKey(lead, key, rest) =>
      [0x03] + Channel.PeerSeal(env, p, [0x03, lead] + key + rest).1
  }

  /** The lock's second handshake packet, answering the challenge it has just opened. */
  function Proof(env: Ssp.Env, knKey: Block, a: Block): bytes {
    var c := Channel.Challenge(env, Ssp.Fresh(knKey), Channel.Peer(knKey, ZERO_BLOCK));
    if c.None? then [] else Channel.ProofPacket(env, c.value.1, a, c.value.2).1
  }

  /** What the lock has sent and read, and where both ends stand. */
  datatype Talk = Talk(stack: Stack.Stack, peer: Channel.Peer, packets: seq<bytes>, answers: seq<Result<bytes>>)

  /** Before anything is said. */
  function Silent(key: MobileKey.Key): Talk {
    Talk(Stack.Stack(Ssp.Fresh(key.knKey), Justin.NewWithKey(key)), Channel.Peer(key.knKey, ZERO_BLOCK), [], [])
  }

  function Continue(env: Ssp.Env, t: Talk, move: Stack.Move): Talk {
    var (stack, peer, got) := Stack.Exchange(env, Justin.NoopStore(), t.stack, t.peer, move);
    Talk(stack, peer, t.packets + [PacketFor(env, t.peer, move)], t.answers + [got])
  }

  /** What a lock says before the handshake. */
  function Early(env: Ssp.Env, key: MobileKey.Key, prelude: seq<Stack.Move>): Talk {
    if prelude == [] then Silent(key)
    else Continue(env, Early(env, key, prelude[..|prelude| - 1]), prelude[|prelude| - 1])
  }

  /** The handshake. */
  function Greet(env: Ssp.Env, key: MobileKey.Key, a: Block, t: Talk): Talk {
    var start := Channel.Handshake(env, t.stack.ssp, t.peer, a);
    var (m, p) := if start.Some? then start.value else (t.stack.ssp, t.peer);
    Talk(Stack.Stack(m, t.stack.justin), p,
         t.packets + [HELLO, Proof(env, key.knKey, a)], t.answers)
  }

  const HELLO: bytes := [0x01, 0x01]

  /** Plaintext moves, the handshake, then any moves. */
  function Converse(
    env: Ssp.Env, key: MobileKey.Key, a: Block, prelude: seq<Stack.Move>, moves: seq<Stack.Move>): Talk
  {
    if moves == [] then Greet(env, key, a, Early(env, key, prelude))
    else Continue(env, Converse(env, key, a, prelude, moves[..|moves| - 1]), moves[|moves| - 1])
  }

  /** The commands among the moves. */
  function CommandsOf(moves: seq<Stack.Move>): seq<JustinRuns.Command> {
    if moves == [] then []
    else
      var c := CommandIn(moves[|moves| - 1]);
      CommandsOf(moves[..|moves| - 1]) + if c.Some? then [c.value] else []
  }

  /** Justin, run directly. */
  function Direct(key: MobileKey.Key, moves: seq<Stack.Move>): (Justin.Manager, seq<Result<bytes>>) {
    Stack.DirectAll(Justin.NoopStore(), Justin.NewWithKey(key), moves)
  }

  ghost predicate Valid(moves: seq<Stack.Move>) {
    forall i :: 0 <= i < |moves| ==> Stack.ValidMove(moves[i])
  }

  ghost predicate ValidPrelude(moves: seq<Stack.Move>) {
    forall i :: 0 <= i < |moves| ==> Stack.ValidMove(moves[i]) && Stack.PlainMoveOnly(moves[i])
  }

  /** No CLOSE has been accepted at any point. */
  ghost predicate Busy(key: MobileKey.Key, moves: seq<Stack.Move>) {
    Direct(key, moves).0.state == Justin.Connected && (moves == [] || Busy(key, moves[..|moves| - 1]))
  }

  /** Every packet is answered, and Justin is still connected afterwards. */
  ghost predicate EachServed(env: Ssp.Env, key: MobileKey.Key, packets: seq<bytes>) {
    packets == [] || (
      var before := packets[..|packets| - 1];
      && EachServed(env, key, before)
      && Stack.HandlePacket(env, Justin.NoopStore(), StackRun(env, key, before).0, packets[|packets| - 1]).1.Ok?
      && StackRun(env, key, packets).0.justin.state == Justin.Connected)
  }

  // ------------------------------------------------- the conversation is a stack run

  /** What one move does to the stack is what its packet does. */
  lemma PacketMoves(env: Ssp.Env, s: Stack.Stack, p: Channel.Peer, move: Stack.Move)
    ensures var (s', p', got) := Stack.Exchange(env, Justin.NoopStore(), s, p, move);
      var (s'', r) := Stack.HandlePacket(env, Justin.NoopStore(), s, PacketFor(env, p, move));
      s' == s'' && (got.Ok? ==> r.Ok?)
  {
    hide Stack.HandlePacket;
  }

  /** The command among one move. */
  function CommandIn(move: Stack.Move): Option<JustinRuns.Command> {
    match move
    case Encrypted(command) => Some(JustinRuns.Command(true, command))
    case Plain(_, command) => Some(JustinRuns.Command(false, command))
    case Version => None
    case NewKey(_, _, _) => None
  }

  /** The command a move's packet brings to Justin is the move's own. */
  lemma DeliveredMove(env: Ssp.Env, s: Stack.Stack, p: Channel.Peer, move: Stack.Move)
    requires Stack.ValidMove(move)
    requires (env.cipher.Valid() && Channel.Established(s.ssp, p)) || Stack.PlainMoveOnly(move)
    ensures Delivered(env, s, PacketFor(env, p, move)) == CommandIn(move)
  {
    hide Ssp.Seal, Ssp.Unframed, Cbc.Decrypt, Cbc.LastBlock;
    Channel.ControlBits();
    match move
    case Encrypted(command) =>
      Channel.LockToPhone(env, s.ssp, p, command);
      var cipher := Channel.PeerSeal(env, p, command).1;
      assert ([0x02] + cipher)[1..] == cipher;
    case Plain(control, command) => assert ([control] + command)[1..] == command;
    case Version =>
    case NewKey(_, _, _) =>
  }

  lemma StackRunPush(env: Ssp.Env, key: MobileKey.Key, packets: seq<bytes>, packet: bytes)
    ensures var (stack, replies) := StackRun(env, key, packets);
      var (stack', r) := Stack.HandlePacket(env, Justin.NoopStore(), stack, packet);
      StackRun(env, key, packets + [packet]) == (stack', if r.Ok? then replies + [r.value] else replies)
    ensures var c := Delivered(env, StackRun(env, key, packets).0, packet);
      Commands(env, key, packets + [packet]) == Commands(env, key, packets) + if c.Some? then [c.value] else []
    ensures EachServed(env, key, packets + [packet]) <==>
      && EachServed(env, key, packets)
      && Stack.HandlePacket(env, Justin.NoopStore(), StackRun(env, key, packets).0, packet).1.Ok?
      && StackRun(env, key, packets + [packet]).0.justin.state == Justin.Connected
  {
    hide Stack.HandlePacket, Delivered;
    assert (packets + [packet])[..|packets|] == packets;
  }

  /** A successful handshake, packet by packet. */
  lemma HandshakePackets(env: Ssp.Env, knKey: Block, a: Block, m1: Ssp.Manager, p1: Channel.Peer, b: Block)
    requires Channel.Challenge(env, Ssp.Fresh(knKey), Channel.Peer(knKey, ZERO_BLOCK)) == Some((m1, p1, b))
    requires Channel.Handshake(env, Ssp.Fresh(knKey), Channel.Peer(knKey, ZERO_BLOCK), a).Some?
    ensures var (m2, r2) := Ssp.ProcessPacket(env, m1, Proof(env, knKey, a));
      r2.Ok? && m2 == Channel.Handshake(env, Ssp.Fresh(knKey), Channel.Peer(knKey, ZERO_BLOCK), a).value.0
    ensures |Proof(env, knKey, a)| >= 2 && Proof(env, knKey, a)[0] == 0x03
  {
    hide Channel.Handshake, Channel.Challenge;
    assert Proof(env, knKey, a) == Channel.ProofPacket(env, p1, a, b).1;
    Channel.ProofAnswered(env, Ssp.Fresh(knKey), Channel.Peer(knKey, ZERO_BLOCK), a, m1, p1, b);
  }

  /**
   * A conversation accounts for itself: the lock has read Justin's own answers, and its packets alone fix the stack
   * and the commands.
   */
  ghost predicate Accounted(env: Ssp.Env, key: MobileKey.Key, moves: seq<Stack.Move>, t: Talk) {
    && Stack.SameButFlag(t.stack.justin, Direct(key, moves).0)
    && t.answers == Direct(key, moves).1
    && StackRun(env, key, t.packets).0 == t.stack
    && Commands(env, key, t.packets) == CommandsOf(moves)
    && (Busy(key, moves) ==> EachServed(env, key, t.packets))
  }

  /** And the channel is open. */
  ghost predicate Sound(env: Ssp.Env, key: MobileKey.Key, moves: seq<Stack.Move>, t: Talk) {
    Channel.Established(t.stack.ssp, t.peer) && Accounted(env, key, moves, t)
  }

  /** The channel is as it was at power-up. */
  ghost predicate Untouched(key: MobileKey.Key, t: Talk) {
    t.stack.ssp == Ssp.Fresh(key.knKey) && t.peer == Channel.Peer(key.knKey, ZERO_BLOCK)
  }

  /** A move that shows the lock Justin's direct answer goes on the account. */
  lemma AccountMove(
    env: Ssp.Env, key: MobileKey.Key, t: Talk, before: seq<Stack.Move>, move: Stack.Move, moves: seq<Stack.Move>)
    requires moves != [] && before == moves[..|moves| - 1] && move == moves[|moves| - 1]
    requires Accounted(env, key, before, t) && Stack.ValidMove(move)
    requires Delivered(env, t.stack, PacketFor(env, t.peer, move)) == CommandIn(move)
    requires var (stack, _, got) := Stack.Exchange(env, Justin.NoopStore(), t.stack, t.peer, move);
      var (j, want) := Stack.Direct(Justin.NoopStore(), Direct(key, before).0, move);
      Stack.SameButFlag(stack.justin, j) && got == want
    ensures Accounted(env, key, moves, Continue(env, t, move))
  {
    hide Stack.HandlePacket, Delivered, PacketFor, Stack.Exchange, Stack.Direct, CommandIn;
    PacketMoves(env, t.stack, t.peer, move);
    StackRunPush(env, key, t.packets, PacketFor(env, t.peer, move));
    DirectAnswers(Direct(key, before).0, move);
  }

  lemma {:induction false} Prelude(env: Ssp.Env, key: MobileKey.Key, prelude: seq<Stack.Move>)
    requires ValidPrelude(prelude)
    ensures Untouched(key, Early(env, key, prelude)) && Accounted(env, key, prelude, Early(env, key, prelude))
  {
    hide Continue, Accounted, Untouched;
    if prelude == [] {
      NothingSaid(env, key);
    } else {
      var before, move := prelude[..|prelude| - 1], prelude[|prelude| - 1];
      Prelude(env, key, before);
      PlainMove(env, key, Early(env, key, before), before, move, prelude);
    }
  }

  lemma NothingSaid(env: Ssp.Env, key: MobileKey.Key)
    ensures Untouched(key, Silent(key)) && Accounted(env, key, [], Silent(key))
  {
  }

  lemma PlainMove(
    env: Ssp.Env, key: MobileKey.Key, t: Talk, before: seq<Stack.Move>, move: Stack.Move, moves: seq<Stack.Move>)
    requires moves != [] && before == moves[..|moves| - 1] && move == moves[|moves| - 1]
    requires Stack.ValidMove(move) && Stack.PlainMoveOnly(move)
    requires Untouched(key, t) && Accounted(env, key, before, t)
    ensures Untouched(key, Continue(env, t, move)) && Accounted(env, key, moves, Continue(env, t, move))
  {
    hide Stack.Exchange, Stack.Direct, Delivered, StackRun, Commands, EachServed;
    Stack.PlainTransparent(env, Justin.NoopStore(), t.stack, t.peer, Direct(key, before).0, move);
    DeliveredMove(env, t.stack, t.peer, move);
    AccountMove(env, key, t, before, move, moves);
  }

  /** The greeting opens the channel, and brings Justin nothing. */
  lemma Greeting(env: Ssp.Env, key: MobileKey.Key, a: Block, moves: seq<Stack.Move>, t: Talk)
    requires env.cipher.Valid() && Untouched(key, t) && Accounted(env, key, moves, t)
    ensures Sound(env, key, moves, Greet(env, key, a, t))
  {
    hide Channel.Handshake, Channel.Challenge, Stack.HandlePacket;
    hide Proof, Delivered, StackRun, Commands, EachServed, Busy;
    Channel.HandshakeAgreement(env, t.stack.ssp, t.peer, a);
    HandshakeChallenged(env, t.stack.ssp, t.peer, a);
    var (m1, p1, b) := Channel.Challenge(env, t.stack.ssp, t.peer).value;
    Channel.ChallengeAnswered(env, t.stack.ssp, t.peer);
    HandshakePackets(env, key.knKey, a, m1, p1, b);
    var proof := Proof(env, key.knKey, a);
    ControlPacket(env, t.stack, HELLO);
    StackRunPush(env, key, t.packets, HELLO);
    ControlPacket(env, t.stack.(ssp := m1), proof);
    StackRunPush(env, key, t.packets + [HELLO], proof);
    assert t.packets + [HELLO] + [proof] == t.packets + [HELLO, proof];
    BusyConnected(key, moves);
  }

  lemma HandshakeChallenged(env: Ssp.Env, m: Ssp.Manager, p: Channel.Peer, a: Block)
    requires Channel.Handshake(env, m, p, a).Some?
    ensures Channel.Challenge(env, m, p).Some?
  {
    hide Channel.Challenge;
  }

  /** A control packet is the channel's business alone. */
  lemma ControlPacket(env: Ssp.Env, stack: Stack.Stack, packet: bytes)
    requires |packet| >= 2 && (packet[0] == 0x01 || packet[0] == 0x03)
    ensures var (m, r) := Ssp.ProcessPacket(env, stack.ssp, packet);
      Stack.HandlePacket(env, Justin.NoopStore(), stack, packet) == (stack.(ssp := m), r)
    ensures Delivered(env, stack, packet) == None
  {
    hide Ssp.DecryptPayload, Ssp.ControlPacket;
    Channel.ControlBits();
  }

  lemma BusyConnected(key: MobileKey.Key, moves: seq<Stack.Move>)
    ensures Busy(key, moves) ==> Direct(key, moves).0.state == Justin.Connected
  {
  }

  /** However the conversation goes, the lock reads Justin's own answers, and its packets account for all of it. */
  lemma {:induction false} Conversation(
    env: Ssp.Env, key: MobileKey.Key, a: Block, prelude: seq<Stack.Move>, moves: seq<Stack.Move>)
    requires env.cipher.Valid() && ValidPrelude(prelude) && Valid(moves)
    ensures Sound(env, key, prelude + moves, Converse(env, key, a, prelude, moves))
  {
    hide Continue, Sound, Greet, Untouched, Accounted, Early;
    if moves == [] {
      Prelude(env, key, prelude);
      assert prelude + moves == prelude;
      Greeting(env, key, a, prelude, Early(env, key, prelude));
    } else {
      var before, move := moves[..|moves| - 1], moves[|moves| - 1];
      Conversation(env, key, a, prelude, before);
      var t := Converse(env, key, a, prelude, before);
      assert (prelude + moves)[..|prelude + moves| - 1] == prelude + before;
      OneMove(env, key, t, prelude + before, move, prelude + moves);
    }
  }

  lemma OneMove(
    env: Ssp.Env, key: MobileKey.Key, t: Talk, before: seq<Stack.Move>, move: Stack.Move, moves: seq<Stack.Move>)
    requires moves != [] && before == moves[..|moves| - 1] && move == moves[|moves| - 1]
    requires env.cipher.Valid() && Stack.ValidMove(move)
    requires Sound(env, key, before, t)
    ensures Sound(env, key, moves, Continue(env, t, move))
  {
    hide Stack.Exchange, Stack.Direct, Delivered, StackRun, Commands, EachServed;
    Stack.ExchangeTransparent(env, Justin.NoopStore(), t.stack, t.peer, Direct(key, before).0, move);
    DeliveredMove(env, t.stack, t.peer, move);
    AccountMove(env, key, t, before, move, moves);
  }

  lemma DirectAnswers(j: Justin.Manager, move: Stack.Move)
    requires Stack.ValidMove(move)
    ensures Stack.Direct(Justin.NoopStore(), j, move).1.Ok?
  {
  }

  // ------------------------------------------------- the session carries it

  /** The packets as events. */
  function Notifications(packets: seq<bytes>): seq<Event> {
    if packets == [] then []
    else Notifications(packets[..|packets| - 1]) + [Notification(packets[|packets| - 1])]
  }

  /** The session waits in the v0200 exchange, and has heard exactly these packets. */
  ghost predicate Waits(env: Ssp.Env, key: MobileKey.Key, options: Options, events: seq<Event>, packets: seq<bytes>) {
    var s := Reached(env, New(key, options), events);
    s.state.V0200? && !s.finished && Totals(env, key, options, events).heard == packets
  }

  /** The protocol info does not name another version than 2. */
  predicate V0200Info(info: Option<bytes>) {
    info.Some? && |info.value| >= 3 && info.value[0] == 0x01 ==> info.value[2] == 2
  }

  /** How a fresh session gets there: at once when it may not look, otherwise with the protocol info. */
  lemma Enters(env: Ssp.Env, key: MobileKey.Key, options: Options, info: Option<bytes>)
    ensures options.detection == NoDetection || !options.notifyReadable ==> Waits(env, key, options, [Started], [])
    ensures options.detection != NoDetection && options.notifyReadable && V0200Info(info) ==>
      Waits(env, key, options, [Started, ProtocolInfo(info)], [])
  {
    var s := New(key, options);
    var first := [Started];
    assert Reached(env, s, first) == Poll(env, s, Started).0 by {
      assert first[..0] == [];
    }
    LedgerRun(env, key, options, first);
    var both := [Started, ProtocolInfo(info)];
    assert Reached(env, s, both) == Poll(env, Reached(env, s, first), ProtocolInfo(info)).0 by {
      assert both[..1] == first;
    }
    LedgerRun(env, key, options, both);
  }

  /** In office mode the lock reads the mode from tag 0x10, secured or not; everything else is the user's own key. */
  lemma ModeIsReadable(key: MobileKey.Key, mode: Mode, secure: bool)
    ensures var session := KeyFor(key, mode);
      && session == key.(tags := session.tags)
      && (forall id :: id != 0x10 ==> session.GetTag(id) == key.GetTag(id))
      && (mode == Standard ==> session == key)
      && (mode == Office ==>
        && session.tags == key.tags[0x10 := MobileKey.Tag(0x10, 0x14, [0x01])]
        && JustinRuns.Step(Justin.NewWithKey(session), JustinRuns.Command(secure, [0x02, 0x10])).1
             == Ok([0x00, 0x01]))
  {
    if mode == Office {
      Justin.ReadSucceedsExactly(
        Justin.NewWithKey(KeyFor(key, mode)).(secureSession := secure), [0x10]);
      var command: bytes, mark: bytes := [0x02, 0x10], [0x01];
      assert command[1..] == [0x10];
      assert [0x00] + mark == [0x00, 0x01];
    }
  }

  /** One more packet fed to a waiting session. */
  lemma OnePacket(
    env: Ssp.Env, key: MobileKey.Key, options: Options, events: seq<Event>, packets: seq<bytes>, packet: bytes)
    requires Waits(env, key, options, events, packets)
    requires var session := KeyFor(key, options.mode);
      Stack.HandlePacket(env, Justin.NoopStore(), StackRun(env, session, packets).0, packet).1.Ok?
    ensures var session := KeyFor(key, options.mode);
      if StackRun(env, session, packets + [packet]).0.justin.state == Justin.Connected
      then Waits(env, key, options, events + [Notification(packet)], packets + [packet])
      else Totals(env, key, options, events + [Notification(packet)]).result
           == Some(Ok(NewOutcome(2, FirstVerdict(session, Commands(env, session, packets + [packet])))))
  {
    hide Stack.HandlePacket, Poll, StackRun, Commands, FirstVerdict, Accounts;
    var s, l := Reached(env, New(key, options), events), Totals(env, key, options, events);
    var all := events + [Notification(packet)];
    assert all[..|all| - 1] == events;
    LedgerRun(env, key, options, events);
    LedgerRun(env, key, options, all);
    TotalsStep(env, key, options, events, Notification(packet));
    StackRunPush(env, KeyFor(key, options.mode), packets, packet);
    FlowIsRun(env, s, l);
    WaitingPacket(env, s, l, packet);
  }

  lemma FlowIsRun(env: Ssp.Env, s: Session, l: Ledger)
    requires s.state.V0200? && Accounts(env, s, l)
    ensures s.state.flow.stack == StackRun(env, KeyFor(s.key, s.options.mode), l.heard).0
    ensures l.written == StackRun(env, KeyFor(s.key, s.options.mode), l.heard).1
    ensures var session := KeyFor(s.key, s.options.mode);
      !s.finished ==> s.state.flow.finalOpResult == FirstVerdict(session, Commands(env, session, l.heard))
  {
    hide StackRun, FirstVerdict, Commands;
  }

  /** One answered packet, on values: heard, and then waiting still, or ended with the verdict. */
  lemma WaitingPacket(env: Ssp.Env, s: Session, l: Ledger, packet: bytes)
    requires s.state.V0200? && !s.finished
    requires Stack.HandlePacket(env, Justin.NoopStore(), s.state.flow.stack, packet).1.Ok?
    requires Accounts(env, Poll(env, s, Notification(packet)).0, TallyAll(l, Poll(env, s, Notification(packet)).1))
    ensures var s' := Poll(env, s, Notification(packet)).0;
      var l' := TallyAll(l, Poll(env, s, Notification(packet)).1);
      var session := KeyFor(s.key, s.options.mode);
      && s'.state.V0200? && l'.heard == l.heard + [packet]
      && if Stack.HandlePacket(env, Justin.NoopStore(), s.state.flow.stack, packet).0.justin.state == Justin.Connected
         then !s'.finished
         else l'.result == Some(Ok(NewOutcome(2, FirstVerdict(session, Commands(env, session, l'.heard)))))
  {
    hide Stack.HandlePacket, Answered, StackRun, Commands, FirstVerdict, TallyAll;
    TallyPacket(env, s, l, packet);
  }

  lemma NotificationsPush(opening: seq<Event>, packets: seq<bytes>, packet: bytes)
    ensures opening + Notifications(packets + [packet]) == opening + Notifications(packets) + [Notification(packet)]
  {
    assert (packets + [packet])[..|packets|] == packets;
  }

  lemma CarryOne(
    env: Ssp.Env, key: MobileKey.Key, options: Options, events: seq<Event>, packets: seq<bytes>, packet: bytes,
    events': seq<Event>, packets': seq<bytes>)
    requires events' == events + [Notification(packet)] && packets' == packets + [packet]
    requires Waits(env, key, options, events, packets) && EachServed(env, KeyFor(key, options.mode), packets')
    ensures Waits(env, key, options, events', packets')
  {
    hide Stack.HandlePacket, Waits;
    StackRunPush(env, KeyFor(key, options.mode), packets, packet);
    OnePacket(env, key, options, events, packets, packet);
  }

  /** A session that has just entered the v0200 exchange carries every packet it can serve. */
  lemma {:induction false} Carried(
    env: Ssp.Env, key: MobileKey.Key, options: Options, opening: seq<Event>, packets: seq<bytes>)
    requires Waits(env, key, options, opening, [])
    requires EachServed(env, KeyFor(key, options.mode), packets)
    ensures Waits(env, key, options, opening + Notifications(packets), packets)
  {
    hide Stack.HandlePacket, Waits;
    if packets == [] {
      assert opening + Notifications(packets) == opening;
    } else {
      var before, last := packets[..|packets| - 1], packets[|packets| - 1];
      assert packets == before + [last];
      NotificationsPush(opening, before, last);
      Carried(env, key, options, opening, before);
      CarryOne(env, key, options, opening + Notifications(before), before, last,
               opening + Notifications(packets), packets);
    }
  }

  lemma LinkEnds(env: Ssp.Env, key: MobileKey.Key, options: Options, events: seq<Event>, packets: seq<bytes>)
    requires Waits(env, key, options, events, packets)
    ensures var session := KeyFor(key, options.mode);
      Totals(env, key, options, events + [LinkClosed]).result
        == Some(Ok(NewOutcome(2, FirstVerdict(session, Commands(env, session, packets)))))
    ensures Totals(env, key, options, events + [LinkClosed]).written
         == StackRun(env, KeyFor(key, options.mode), packets).1
  {
    hide StackRun, Commands, FirstVerdict, Poll, Accounts, TallyAll;
    var s, l := Reached(env, New(key, options), events), Totals(env, key, options, events);
    LedgerRun(env, key, options, events);
    TotalsStep(env, key, options, events, LinkClosed);
    FlowIsRun(env, s, l);
    HangingUp(env, s, l);
  }

  lemma HangingUp(env: Ssp.Env, s: Session, l: Ledger)
    requires s.state.V0200? && !s.finished
    ensures var l' := TallyAll(l, Poll(env, s, LinkClosed).1);
      l' == l.(result := Some(Ok(NewOutcome(2, s.state.flow.finalOpResult))))
  {
    hide Stack.HandlePacket, TallyAll;
    TallyNotedEnd(l, Info(LockDisconnected), s, Ok(NewOutcome(2, s.state.flow.finalOpResult)));
  }

  /** The lock's CLOSE: answered, Justin ready, no new verdict. */
  lemma ClosingMove(env: Ssp.Env, key: MobileKey.Key, said: seq<Stack.Move>, talk: Talk)
    requires env.cipher.Valid() && Sound(env, key, said, talk) && Busy(key, said)
    ensures var packet := PacketFor(env, talk.peer, Stack.Encrypted([0x01]));
      && Stack.HandlePacket(env, Justin.NoopStore(), StackRun(env, key, talk.packets).0, packet).1.Ok?
      && StackRun(env, key, talk.packets + [packet]).0.justin.state == Justin.Ready
      && FirstVerdict(key, Commands(env, key, talk.packets + [packet])) == FirstVerdict(key, CommandsOf(said))
  {
    hide Stack.HandlePacket, Stack.Exchange, Delivered, PacketFor;
    var move := Stack.Encrypted([0x01]);
    BusyConnected(key, said);
    DeliveredMove(env, talk.stack, talk.peer, move);
    PacketMoves(env, talk.stack, talk.peer, move);
    Stack.ExchangeTransparent(env, Justin.NoopStore(), talk.stack, talk.peer, Direct(key, said).0, move);
    StackRunPush(env, key, talk.packets, PacketFor(env, talk.peer, move));
    CloseDecidesNothing(key, CommandsOf(said));
  }

  lemma CloseDecidesNothing(key: MobileKey.Key, commands: seq<JustinRuns.Command>)
    ensures FirstVerdict(key, commands + [JustinRuns.Command(true, [0x01])]) == FirstVerdict(key, commands)
  {
    assert (commands + [JustinRuns.Command(true, [0x01])])[..|commands|] == commands;
  }

  /** The lock hangs up after what it said. */
  lemma EndsByLink(
    env: Ssp.Env, key: MobileKey.Key, options: Options, opening: seq<Event>, said: seq<Stack.Move>, talk: Talk)
    requires Waits(env, key, options, opening, [])
    requires Accounted(env, KeyFor(key, options.mode), said, talk) && Busy(KeyFor(key, options.mode), said)
    ensures Waits(env, key, options, opening + Notifications(talk.packets), talk.packets)
    ensures Totals(env, key, options, opening + Notifications(talk.packets) + [LinkClosed]).result
         == Some(Ok(NewOutcome(2, FirstVerdict(KeyFor(key, options.mode), CommandsOf(said)))))
  {
    hide Waits, Busy;
    Carried(env, key, options, opening, talk.packets);
    LinkEnds(env, key, options, opening + Notifications(talk.packets), talk.packets);
  }

  /** The lock sends CLOSE after what it said. */
  lemma EndsByClose(
    env: Ssp.Env, key: MobileKey.Key, options: Options, opening: seq<Event>, said: seq<Stack.Move>, talk: Talk)
    requires env.cipher.Valid()
    requires Sound(env, KeyFor(key, options.mode), said, talk) && Busy(KeyFor(key, options.mode), said)
    requires Waits(env, key, options, opening + Notifications(talk.packets), talk.packets)
    ensures var close := Continue(env, talk, Stack.Encrypted([0x01]));
      Totals(env, key, options, opening + Notifications(close.packets)).result
        == Some(Ok(NewOutcome(2, FirstVerdict(KeyFor(key, options.mode), CommandsOf(said)))))
  {
    hide Waits, Busy, Sound, Stack.Exchange, Stack.HandlePacket, PacketFor;
    ClosingMove(env, KeyFor(key, options.mode), said, talk);
    var last := PacketFor(env, talk.peer, Stack.Encrypted([0x01]));
    NotificationsPush(opening, talk.packets, last);
    OnePacket(env, key, options, opening + Notifications(talk.packets), talk.packets, last);
  }

  /**
   * The whole opening. Over any key, any plaintext moves before the handshake, any challenge values and any valid
   * moves after it that do not close the exchange, an honest lock reads exactly what Justin answers when run
   * directly; and whether it then drops the link or sends CLOSE, the session ends with the first final verdict among
   * the lock's accepted audit writes.
   */
  lemma HonestOpening(
    env: Ssp.Env, key: MobileKey.Key, options: Options, opening: seq<Event>, a: Block,
    prelude: seq<Stack.Move>, moves: seq<Stack.Move>, talk: Talk)
    requires env.cipher.Valid() && Waits(env, key, options, opening, [])
    requires ValidPrelude(prelude) && Valid(moves) && Busy(KeyFor(key, options.mode), prelude + moves)
    requires talk == Converse(env, KeyFor(key, options.mode), a, prelude, moves)
    ensures talk.answers == Direct(KeyFor(key, options.mode), prelude + moves).1
    ensures var outcome := NewOutcome(2, FirstVerdict(KeyFor(key, options.mode), CommandsOf(prelude + moves)));
      var close := Continue(env, talk, Stack.Encrypted([0x01]));
      && Totals(env, key, options, opening + Notifications(talk.packets) + [LinkClosed]).result == Some(Ok(outcome))
      && Totals(env, key, options, opening + Notifications(close.packets)).result == Some(Ok(outcome))
  {
    hide Waits, Busy, Converse, Continue, ValidPrelude, Valid;
    Conversation(env, KeyFor(key, options.mode), a, prelude, moves);
    EndsByLink(env, key, options, opening, prelude + moves, talk);
    EndsByClose(env, key, options, opening, prelude + moves, talk);
  }
}
