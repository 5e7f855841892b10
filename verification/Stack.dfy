/** The v0200 stack, SSP below and Justin above: crates/mkey-core/src/stack.rs. */
module Stack {
  import opened Bytes
  import Cbc
  import Ssp
  import Justin
  import Channel

  /** Both layers as one value. */
  datatype Stack = Stack(ssp: Ssp.Manager, justin: Justin.Manager)

  /** A command under a per-packet secure flag; the flag is put back afterwards, errors included. */
  function ProcessJustin(store: Justin.KeyStore, j: Justin.Manager, payload: bytes, secure: bool)
    : (Justin.Manager, Result<bytes>)
  {
    var (j', r) := Justin.Process(store, j.(secureSession := secure), payload);
    (j'.(secureSession := j.secureSession), r)
  }

  function HandlePacket(env: Ssp.Env, store: Justin.KeyStore, s: Stack, packet: bytes): (r: (Stack, Result<bytes>))
    ensures r.0.justin.secureSession == s.justin.secureSession
  {
    if |packet| < 2 then (s, Err(InvalidData(PacketTooShort)))
    else if Ssp.IsControl(packet[0]) then
      var (m, r) := Ssp.ProcessPacket(env, s.ssp, packet);
      (s.(ssp := m), r)
    else if Ssp.IsEncrypted(packet[0]) then
      var (m, payload) := Ssp.ProcessPacket(env, s.ssp, packet);
      if payload.Err? then (s.(ssp := m), payload)
      else
        var (j, reply) := ProcessJustin(store, s.justin, payload.value, true);
        if reply.Err? then (Stack(m, j), reply)
        else
          var (m', wrapped) := Ssp.WrapData(env, m, reply.value);
          (Stack(m', j), wrapped)
    else
      var (j, reply) := ProcessJustin(store, s.justin, packet[1..], false);
      if reply.Err? then (s.(justin := j), reply) else (s.(justin := j), Ok([packet[0]] + reply.value))
  }

  // ---------------------------------------------------------------- the code

  class JustinStack0100 {
    const ssp: Ssp.SecureProtocolManager
    const justin: Justin.JustinProtocolManager

    ghost function Value(): Stack
      reads ssp, justin
    {
      Stack(ssp.Value(), justin.Value())
    }

    constructor (ssp: Ssp.SecureProtocolManager, justin: Justin.JustinProtocolManager)
      ensures this.ssp == ssp && this.justin == justin
    {
      this.ssp, this.justin := ssp, justin;
    }

    method HandlePacketBytes(packet: bytes) returns (r: Result<bytes>)
      modifies ssp, justin
      ensures (Value(), r) == HandlePacket(ssp.env, justin.store, old(Value()), packet)
    {
      if |packet| < 2 {
        return Err(InvalidData(PacketTooShort));
      }
      var control := packet[0];
      if Ssp.IsControl(control) {
        r := ssp.ProcessPacketBytes(packet);
        return;
      }
      if Ssp.IsEncrypted(control) {
        var plaintext := ssp.ProcessPacketBytes(packet);
        if plaintext.Err? {
          return plaintext;
        }
        var reply := ProcessJustinBytes(plaintext.value, true);
        if reply.Err? {
          return reply;
        }
        r := ssp.WrapDataBytes(reply.value);
        return;
      }
      var reply := ProcessJustinBytes(packet[1..], false);
      if reply.Err? {
        return reply;
      }
      r := Ok([control] + reply.value);
    }

    method ProcessJustinBytes(payload: bytes, secure: bool) returns (r: Result<bytes>)
      modifies justin
      ensures (justin.Value(), r) == ProcessJustin(justin.store, old(justin.Value()), payload, secure)
    {
      var prev := justin.secureSession;
      justin.SetSecureSession(secure);
      r := justin.ProcessCommand(payload);
      justin.SetSecureSession(prev);
    }
  }

  // ------------------------------------------------- properties

  /** One move of an honest peer: an encrypted command, a plaintext command, a version query, a key change. */
  datatype Move =
    | Encrypted(command: bytes)
    | Plain(control: byte, command: bytes)
    | Version
    | NewKey(lead: byte, key: Block, rest: bytes)

  /** Known opcodes only; a plaintext data packet has neither flag bit set. */
  predicate ValidMove(move: Move) {
    match move
    case Encrypted(command) => command != [] && command[0] <= 0x03
    case Plain(control, command) =>
      && command != [] && command[0] <= 0x03
      && control % 4 == 0
    case Version => true
    case NewKey(_, _, _) => true
  }

  /** The peer makes its move and reads the answer off the wire. */
  function Exchange(env: Ssp.Env, store: Justin.KeyStore, s: Stack, p: Channel.Peer, move: Move)
    : (Stack, Channel.Peer, Result<bytes>)
  {
    match move
    case Encrypted(command) =>
      var (p1, cipher) := Channel.PeerSeal(env, p, command);
      var (s', r) := HandlePacket(env, store, s, [0x02] + cipher);
      if r.Err? || r.value == [] || r.value[0] != 0x02 then (s', p1, r)
      else
        var (p2, got) := Channel.PeerOpen(env, p1, r.value[1..]);
        (s', p2, got)
    case Plain(control, command) =>
      var (s', r) := HandlePacket(env, store, s, [control] + command);
      if r.Err? || r.value == [] || r.value[0] != control then (s', p, r) else (s', p, Ok(r.value[1..]))
    case Version =>
      var (s', r) := HandlePacket(env, store, s, [0x01, 0x04]);
      (s', p, r)
    case NewKey(lead, key, rest) =>
      var (p1, cipher) := Channel.PeerSeal(env, p, [0x03, lead] + key + rest);
      var (s', r) := HandlePacket(env, store, s, [0x03] + cipher);
      if r.Err? || r.value == [] then (s', p1, r)
      else
        var (p2, got) := Channel.PeerOpen(env, p1.(key := key), r.value[1..]);
        (s', p2, got)
  }

  /** What Justin answers when run directly: the flag is the packet's encryption. */
  function Direct(store: Justin.KeyStore, j: Justin.Manager, move: Move): (Justin.Manager, Result<bytes>) {
    match move
    case Encrypted(command) => Justin.Process(store, j.(secureSession := true), command)
    case Plain(_, command) => Justin.Process(store, j.(secureSession := false), command)
    case Version => (j, Ok([0x01, 0x04, 0x01, 0x00]))
    case NewKey(_, _, _) => (j, Ok([0x03]))
  }

  function ExchangeAll(env: Ssp.Env, store: Justin.KeyStore, s: Stack, p: Channel.Peer, moves: seq<Move>)
    : (Stack, Channel.Peer, seq<Result<bytes>>)
  {
    if moves == [] then (s, p, [])
    else
      var (s1, p1, got) := ExchangeAll(env, store, s, p, moves[..|moves| - 1]);
      var (s2, p2, last) := Exchange(env, store, s1, p1, moves[|moves| - 1]);
      (s2, p2, got + [last])
  }

  function DirectAll(store: Justin.KeyStore, j: Justin.Manager, moves: seq<Move>)
    : (Justin.Manager, seq<Result<bytes>>)
  {
    if moves == [] then (j, [])
    else
      var (j1, got) := DirectAll(store, j, moves[..|moves| - 1]);
      var (j2, last) := Direct(store, j1, moves[|moves| - 1]);
      (j2, got + [last])
  }

  /** Every packet, by the two low bits of its first byte; a sealed answer is chained to the packet it answers. */
  lemma PacketExactly(env: Ssp.Env, store: Justin.KeyStore, s: Stack, packet: bytes)
    ensures var (s', r) := HandlePacket(env, store, s, packet);
      if |packet| < 2 then s' == s && r == Err(InvalidData(PacketTooShort))
      else if packet[0] % 2 == 1 then s'.justin == s.justin && (s'.ssp, r) == Ssp.ProcessPacket(env, s.ssp, packet)
      else if packet[0] % 4 == 0 then
        var (j, reply) := Justin.Process(store, s.justin.(secureSession := false), packet[1..]);
        && s' == Stack(s.ssp, j.(secureSession := s.justin.secureSession))
        && r == if reply.Ok? then Ok([packet[0]] + reply.value) else reply
      else
        var key := Ssp.CurrentKey(s.ssp);
        var got := Ssp.Open(env.cipher, key, s.ssp.iv, packet[1..]);
        if got.Err? then s'.justin == s.justin && r == got
        else if s.ssp.state != Ssp.InSession then s'.justin == s.justin && r == Err(InvalidState(NotInSession))
        else
          var (j, reply) := Justin.Process(store, s.justin.(secureSession := true), got.value);
          && s'.justin == j.(secureSession := s.justin.secureSession)
          && if reply.Err? then r == reply
             else r == Ok([0x02] + Ssp.Seal(env.cipher, key, packet[|packet| - 16..], reply.value))
  {
    hide Justin.Process, Ssp.Unframed, Ssp.Seal, Cbc.Decrypt, Ssp.IsControl, Ssp.IsEncrypted, Ssp.ControlPacket;
    if |packet| >= 2 {
      Ssp.FlagBits(packet[0]);
      if |packet| >= 17 {
        assert packet[1..][|packet| - 17..] == packet[|packet| - 16..];
      }
    }
  }

  /** The two managers differ at most in the secure flag. */
  predicate SameButFlag(a: Justin.Manager, b: Justin.Manager) {
    a == b.(secureSession := a.secureSession)
  }

  lemma FlagIrrelevant(store: Justin.KeyStore, a: Justin.Manager, b: Justin.Manager, secure: bool, command: bytes)
    requires SameButFlag(a, b)
    ensures var (a', ra) := ProcessJustin(store, a, command, secure);
      var (b', rb) := Justin.Process(store, b.(secureSession := secure), command);
      SameButFlag(a', b') && ra == rb
    ensures command != [] && command[0] <= 0x03 ==> ProcessJustin(store, a, command, secure).1.Ok?
  {
    assert a.(secureSession := secure) == b.(secureSession := secure);
  }

  lemma EncryptedMove(env: Ssp.Env, store: Justin.KeyStore, s: Stack, p: Channel.Peer, command: bytes)
    requires env.cipher.Valid() && Channel.Established(s.ssp, p)
    requires ProcessJustin(store, s.justin, command, true).1.Ok?
    ensures var (s', p', got) := Exchange(env, store, s, p, Encrypted(command));
      && Channel.Established(s'.ssp, p')
      && (s'.justin, got) == ProcessJustin(store, s.justin, command, true)
  {
    Channel.ControlBits();
    Channel.LockToPhone(env, s.ssp, p, command);
    var (p1, cipher) := Channel.PeerSeal(env, p, command);
    assert ([0x02] + cipher)[1..] == cipher;
    var m := Ssp.DecryptPayload(env, s.ssp, cipher).0;
    var reply := ProcessJustin(store, s.justin, command, true).1.value;
    Channel.PhoneToLock(env, m, p1, reply);
    var answer := Ssp.EncryptPayload(env, m, reply).1;
    assert ([0x02] + answer)[1..] == answer;
  }

  lemma PlainMove(env: Ssp.Env, store: Justin.KeyStore, s: Stack, p: Channel.Peer, control: byte, command: bytes)
    requires command != [] && control % 4 == 0
    requires ProcessJustin(store, s.justin, command, false).1.Ok?
    ensures var (s', p', got) := Exchange(env, store, s, p, Plain(control, command));
      s'.ssp == s.ssp && p' == p && (s'.justin, got) == ProcessJustin(store, s.justin, command, false)
  {
    hide Ssp.ProcessPacket, ProcessJustin, Ssp.IsControl, Ssp.IsEncrypted;
    Ssp.FlagBits(control);
    assert ([control] + command)[1..] == command;
    var reply := ProcessJustin(store, s.justin, command, false).1.value;
    assert ([control] + reply)[1..] == reply;
  }

  lemma KeyMove(env: Ssp.Env, store: Justin.KeyStore, s: Stack, p: Channel.Peer, move: Move)
    requires env.cipher.Valid() && Channel.Established(s.ssp, p) && move.NewKey?
    ensures var (s', p', got) := Exchange(env, store, s, p, move);
      Channel.Established(s'.ssp, p') && s'.justin == s.justin && got == Ok([0x03])
  {
    Channel.ControlBits();
    Channel.PlayKeepsSync(env, s.ssp, p, Channel.NewKey(move.lead, move.key, move.rest));
  }

  /** One exchange shows the peer exactly what Justin answers directly, and keeps the channel. */
  lemma ExchangeTransparent(
    env: Ssp.Env, store: Justin.KeyStore, s: Stack, p: Channel.Peer, j: Justin.Manager, move: Move)
    requires env.cipher.Valid() && Channel.Established(s.ssp, p) && SameButFlag(s.justin, j) && ValidMove(move)
    ensures var (s', p', got) := Exchange(env, store, s, p, move);
      var (j', want) := Direct(store, j, move);
      && Channel.Established(s'.ssp, p') && SameButFlag(s'.justin, j')
      && s'.justin.secureSession == s.justin.secureSession
      && got == want
  {
    match move
    case Encrypted(command) =>
      FlagIrrelevant(store, s.justin, j, true, command);
      EncryptedMove(env, store, s, p, command);
    case Plain(control, command) =>
      FlagIrrelevant(store, s.justin, j, false, command);
      PlainMove(env, store, s, p, control, command);
    case Version =>
      Channel.ControlBits();
    case NewKey(_, _, _) =>
      KeyMove(env, store, s, p, move);
  }

  /** Channel transparency: over any honest run the peer reads exactly Justin's own answers. */
  lemma {:induction false} Transparency(
    env: Ssp.Env, store: Justin.KeyStore, s: Stack, p: Channel.Peer, j: Justin.Manager, moves: seq<Move>)
    requires env.cipher.Valid() && Channel.Established(s.ssp, p) && SameButFlag(s.justin, j)
    requires forall i :: 0 <= i < |moves| ==> ValidMove(moves[i])
    ensures var (s', p', got) := ExchangeAll(env, store, s, p, moves);
      var (j', want) := DirectAll(store, j, moves);
      && got == want
      && Channel.Established(s'.ssp, p') && SameButFlag(s'.justin, j')
      && s'.justin.secureSession == s.justin.secureSession
  {
    hide Exchange, Direct, ValidMove;
    if moves != [] {
      var before, last := moves[..|moves| - 1], moves[|moves| - 1];
      Transparency(env, store, s, p, j, before);
      var r, d := ExchangeAll(env, store, s, p, before), DirectAll(store, j, before);
      ExchangeTransparent(env, store, r.0, r.1, d.0, last);
    }
  }

  // ------------------------------------------------- before the handshake

  /** The moves a lock may make before the handshake: plaintext commands and version queries. */
  predicate PlainMoveOnly(move: Move) {
    move.Plain? || move.Version?
  }

  /** A plaintext exchange shows the peer Justin's direct answer too, and leaves the channel as it was. */
  lemma PlainTransparent(env: Ssp.Env, store: Justin.KeyStore, s: Stack, p: Channel.Peer, j: Justin.Manager, move: Move)
    requires SameButFlag(s.justin, j) && ValidMove(move) && PlainMoveOnly(move)
    ensures var (s', p', got) := Exchange(env, store, s, p, move);
      var (j', want) := Direct(store, j, move);
      && s'.ssp == s.ssp && p' == p && SameButFlag(s'.justin, j')
      && s'.justin.secureSession == s.justin.secureSession
      && got == want && got.Ok?
  {
    hide Justin.Process, HandlePacket;
    match move
    case Plain(control, command) =>
      FlagIrrelevant(store, s.justin, j, false, command);
      PlainMove(env, store, s, p, control, command);
    case Version => VersionMove(env, store, s);
  }

  lemma VersionMove(env: Ssp.Env, store: Justin.KeyStore, s: Stack)
    ensures HandlePacket(env, store, s, [0x01, 0x04]) == (s, Ok([0x01, 0x04, 0x01, 0x00]))
  {
    Channel.ControlBits();
  }

  lemma {:induction false} PreludeTransparent(
    env: Ssp.Env, store: Justin.KeyStore, s: Stack, p: Channel.Peer, j: Justin.Manager, moves: seq<Move>)
    requires SameButFlag(s.justin, j)
    requires forall i :: 0 <= i < |moves| ==> ValidMove(moves[i]) && PlainMoveOnly(moves[i])
    ensures var (s', p', got) := ExchangeAll(env, store, s, p, moves);
      var (j', want) := DirectAll(store, j, moves);
      && s'.ssp == s.ssp && p' == p && SameButFlag(s'.justin, j')
      && s'.justin.secureSession == s.justin.secureSession
      && got == want
  {
    hide Exchange, Direct, ValidMove;
    if moves != [] {
      var before, last := moves[..|moves| - 1], moves[|moves| - 1];
      PreludeTransparent(env, store, s, p, j, before);
      var r, d := ExchangeAll(env, store, s, p, before), DirectAll(store, j, before);
      PlainTransparent(env, store, r.0, r.1, d.0, last);
    }
  }

  lemma {:induction false} DirectJoin(store: Justin.KeyStore, j: Justin.Manager, a: seq<Move>, b: seq<Move>)
    ensures var (j1, first) := DirectAll(store, j, a);
      var (j2, second) := DirectAll(store, j1, b);
      DirectAll(store, j, a + b) == (j2, first + second)
  {
    hide Direct;
    if b == [] {
      assert a + b == a;
      assert DirectAll(store, j, a).1 + [] == DirectAll(store, j, a).1;
    } else {
      var n := |b| - 1;
      assert (a + b)[..|a + b| - 1] == a + b[..n];
      DirectJoin(store, j, a, b[..n]);
      var (j1, first) := DirectAll(store, j, a);
      var (j2, second) := DirectAll(store, j1, b[..n]);
      var last := Direct(store, j2, b[n]).1;
      assert first + second + [last] == first + (second + [last]);
    }
  }

  /**
   * From power-up: plaintext commands and version queries, the handshake, then any honest run, and the peer reads
   * exactly Justin's own answers throughout.
   */
  lemma WholeRunTransparent(
    env: Ssp.Env, store: Justin.KeyStore, knKey: Block, a: Block, j: Justin.Manager,
    prelude: seq<Move>, moves: seq<Move>)
    requires env.cipher.Valid()
    requires forall i :: 0 <= i < |prelude| ==> ValidMove(prelude[i]) && PlainMoveOnly(prelude[i])
    requires forall i :: 0 <= i < |moves| ==> ValidMove(moves[i])
    ensures var (s, p, early) :=
        ExchangeAll(env, store, Stack(Ssp.Fresh(knKey), j), Channel.Peer(knKey, ZERO_BLOCK), prelude);
      var start := Channel.Handshake(env, s.ssp, p, a);
      && start.Some?
      && early + ExchangeAll(env, store, Stack(start.value.0, s.justin), start.value.1, moves).2
           == DirectAll(store, j, prelude + moves).1
  {
    hide Exchange, Direct, Channel.Handshake, ValidMove;
    var first := Stack(Ssp.Fresh(knKey), j);
    PreludeTransparent(env, store, first, Channel.Peer(knKey, ZERO_BLOCK), j, prelude);
    var (s, p, early) := ExchangeAll(env, store, first, Channel.Peer(knKey, ZERO_BLOCK), prelude);
    Channel.HandshakeAgreement(env, s.ssp, p, a);
    var start := Channel.Handshake(env, s.ssp, p, a).value;
    Transparency(env, store, Stack(start.0, s.justin), start.1, DirectAll(store, j, prelude).0, moves);
    DirectJoin(store, j, prelude, moves);
  }
}
