/** The phone's secure channel against an honest lock: handshake agreement and endpoint synchrony. */
module Channel {
  import opened Bytes
  import opened Cbc
  import opened Ssp
  import SspRuns

  /** The lock's end of the channel: the same key and the same chained IV. */
  datatype Peer = Peer(key: Block, iv: Block)

  function PeerSeal(env: Env, p: Peer, data: bytes): (Peer, bytes) {
    var cipher := Seal(env.cipher, p.key, p.iv, data);
    (p.(iv := LastBlock(p.iv, cipher)), cipher)
  }

  function PeerOpen(env: Env, p: Peer, cipher: bytes): (Peer, Result<bytes>) {
    (p.(iv := LastBlock(p.iv, cipher)), Open(env.cipher, p.key, p.iv, cipher))
  }

  /** Both ends hold the same key and the same IV. */
  ghost predicate Synced(m: Manager, p: Peer) {
    p.key == CurrentKey(m) && p.iv == m.iv
  }

  /** What the phone seals, the lock opens. */
  lemma PhoneToLock(env: Env, m: Manager, p: Peer, data: bytes)
    requires env.cipher.Valid() && Synced(m, p)
    ensures var (m', cipher) := EncryptPayload(env, m, data);
      var (p', got) := PeerOpen(env, p, cipher);
      got == Ok(data) && Synced(m', p')
  {
    SspRuns.OpenSeal(env.cipher, p.key, p.iv, data);
  }

  /** What the lock seals, the phone opens. */
  lemma LockToPhone(env: Env, m: Manager, p: Peer, data: bytes)
    requires env.cipher.Valid() && Synced(m, p)
    ensures var (p', cipher) := PeerSeal(env, p, data);
      var (m', got) := DecryptPayload(env, m, cipher);
      got == Ok(data) && Synced(m', p') && m' == m.(iv := m'.iv, log := m'.log)
  {
    SspRuns.DecryptSealed(env, m, data);
  }

  lemma ControlBits()
    ensures IsControl(0x01) && !IsEncrypted(0x01)
    ensures IsControl(0x03) && IsEncrypted(0x03)
    ensures !IsControl(0x02) && IsEncrypted(0x02)
  {
    FlagBits(0x01);
    FlagBits(0x02);
    FlagBits(0x03);
  }

  // ---------------------------------------------------------------- handshake

  // The lock's side is written in bytes throughout, and shares no constant and no function with the manager.

  /** The lock's answer to the challenge it has opened: its own random value, then the challenge, last byte first. */
  function ProofPacket(env: Env, p: Peer, a: Block, b: Block): (Peer, bytes) {
    var (p', cipher) := PeerSeal(env, p, [0x02] + a + ([b[15]] + b[..15]));
    (p', [0x03] + cipher)
  }

  /** The lock asks for a session and opens the challenge. */
  function Challenge(env: Env, m: Manager, p: Peer): Option<(Manager, Peer, Block)> {
    var (m1, r1) := ProcessPacket(env, m, [0x01, 0x01]);
    if r1.Err? || r1.value == [] || r1.value[0] != 0x03 then None
    else
      var (p1, challenge) := PeerOpen(env, p, r1.value[1..]);
      if challenge.Err? || |challenge.value| != 17 || challenge.value[0] != 0x01 then None
      else Some((m1, p1, challenge.value[1..]))
  }

  /** The key both ends should end up with, byte by byte: the outer words of both random values. */
  function SharedKey(a: Block, b: Block): Block {
    a[..4] + b[..4] + a[12..] + b[12..]
  }

  /** The honest lock: it checks every answer and gives up (`None`) when one is wrong. */
  function Handshake(env: Env, m: Manager, p: Peer, a: Block): Option<(Manager, Peer)> {
    var opening := Challenge(env, m, p);
    if opening.None? then None
    else
      var (m1, p1, b) := opening.value;
      var (p2, packet) := ProofPacket(env, p1, a, b);
      var (m2, r2) := ProcessPacket(env, m1, packet);
      if r2.Err? || r2.value == [] || r2.value[0] != 0x03 then None
      else
        var (p3, proof) := PeerOpen(env, p2, r2.value[1..]);
        if proof != Ok([0x02, a[15]] + a[..15]) then None
        else Some((m2, p3.(key := SharedKey(a, b))))
  }

  /** The manager's two answers in a handshake that succeeds. */
  lemma ChallengeAnswered(env: Env, m: Manager, p: Peer)
    requires Challenge(env, m, p).Some?
    ensures var (m1, r1) := ProcessPacket(env, m, [0x01, 0x01]);
      r1.Ok? && m1 == Challenge(env, m, p).value.0
  {
    hide PeerOpen, Seal, Decrypt, Unframed;
  }

  lemma ProofAnswered(env: Env, m: Manager, p: Peer, a: Block, m1: Manager, p1: Peer, b: Block)
    requires Challenge(env, m, p) == Some((m1, p1, b)) && Handshake(env, m, p, a).Some?
    ensures var (m2, r2) := ProcessPacket(env, m1, ProofPacket(env, p1, a, b).1);
      r2.Ok? && m2 == Handshake(env, m, p, a).value.0
  {
    hide Challenge, PeerOpen, ProofPacket, Seal, Decrypt, Unframed;
  }

  lemma Step1(env: Env, m: Manager, p: Peer)
    requires env.cipher.Valid() && Synced(m, p) && m.state == Ready
    ensures var b, opening := env.random(m.drawn), Challenge(env, m, p);
      && opening.Some? && opening.value.2 == b
      && opening.value.0.state == AuthStep1 && opening.value.0.randomB == Some(b)
      && Synced(opening.value.0, opening.value.1)
  {
    hide Seal, Open, Unframed, Decrypt, LastBlock;
    ControlBits();
    var b := env.random(m.drawn);
    var m0 := m.(randomB := Some(b), drawn := m.drawn + 1);
    PhoneToLock(env, m0, p, [0x01] + b);
    var cipher := EncryptPayload(env, m0, [0x01] + b).1;
    assert ([0x03] + cipher)[1..] == cipher;
    assert ([0x01] + b)[1..] == b;
  }

  lemma Step2Payload(a: Block, proof: Block)
    ensures var payload := [0x02] + a + proof;
      payload[1..] == a + proof && payload[1..][0..16] == a && payload[1..][16..32] == proof
  {
    assert ([0x02] + a + proof)[1..] == a + proof;
  }

  lemma Step2(env: Env, m: Manager, p: Peer, a: Block, b: Block)
    requires env.cipher.Valid() && Synced(m, p) && m.state == AuthStep1 && m.randomB == Some(b)
    ensures var (p2, packet) := ProofPacket(env, p, a, b);
      var (m2, r2) := ProcessPacket(env, m, packet);
      && r2.Ok? && r2.value != [] && r2.value[0] == 0x03
      && m2.state == InSession && m2.sessionKey == Some(SharedKey(a, b))
      && var (p3, proof) := PeerOpen(env, p2, r2.value[1..]);
      && proof == Ok([0x02, a[15]] + a[..15]) && p3.iv == m2.iv
  {
    hide Seal, Open, Unframed, Decrypt, LastBlock;
    ControlBits();
    RotateRightPositions(a);
    RotateRightPositions(b);
    KeyWords(a, b);
    assert RotateRight(b) == [b[15]] + b[..15] && [0x02] + RotateRight(a) == [0x02, a[15]] + a[..15];
    assert DeriveSessionKey(a, b) == SharedKey(a, b);
    var payload := [0x02] + a + ([b[15]] + b[..15]);
    LockToPhone(env, m, p, payload);
    var (p2, cipher) := PeerSeal(env, p, payload);
    var m1 := DecryptPayload(env, m, cipher).0;
    assert ([0x03] + cipher)[1..] == cipher;
    Step2Payload(a, RotateRight(b));
    PhoneToLock(env, m1.(randomA := Some(a)), p2, [0x02] + RotateRight(a));
    var answer := EncryptPayload(env, m1.(randomA := Some(a)), [0x02] + RotateRight(a)).1;
    assert ([0x03] + answer)[1..] == answer;
  }

  /** The honest three-message run succeeds and leaves both ends with the derived key and equal IVs. */
  lemma HandshakeAgreement(env: Env, m: Manager, p: Peer, a: Block)
    requires env.cipher.Valid() && Synced(m, p) && m.state == Ready
    ensures var r := Handshake(env, m, p, a);
      && r.Some?
      && r.value.0.state == InSession
      && r.value.0.sessionKey == Some(SharedKey(a, env.random(m.drawn)))
      && Synced(r.value.0, r.value.1)
  {
    hide ProcessPacket, ProofPacket, Challenge, PeerOpen;
    Step1(env, m, p);
    var (m1, p1, b) := Challenge(env, m, p).value;
    Step2(env, m1, p1, a, b);
  }

  // ---------------------------------------------------------------- synchrony

  /** One move of an established channel. */
  datatype Move =
    | FromPhone(data: bytes)
    | FromLock(data: bytes)
    | NewKey(lead: byte, key: Block, rest: bytes)

  /** Play one move; the third component is what the receiver of the last message recovers. */
  function Play(env: Env, m: Manager, p: Peer, move: Move): (Manager, Peer, Result<bytes>) {
    match move
    case FromPhone(data) =>
      var (m', packet) := WrapData(env, m, data);
      if packet.Err? || packet.value == [] then (m', p, packet)
      else
        var (p', got) := PeerOpen(env, p, packet.value[1..]);
        (m', p', got)
    case FromLock(data) =>
      var (p', cipher) := PeerSeal(env, p, data);
      var (m', got) := ProcessPacket(env, m, [0x02] + cipher);
      (m', p', got)
    case NewKey(lead, key, rest) =>
      var (p', cipher) := PeerSeal(env, p, [0x03, lead] + key + rest);
      var (m', packet) := ProcessPacket(env, m, [0x03] + cipher);
      if packet.Err? || packet.value == [] then (m', p', packet)
      else
        var (p'', got) := PeerOpen(env, p'.(key := key), packet.value[1..]);
        (m', p'', got)
  }

  /** What the receiver should recover. */
  function Sent(move: Move): bytes {
    if move.NewKey? then [0x03] else move.data
  }

  /** The key in force after some moves: the last one set. */
  function KeyAfter(key: Block, moves: seq<Move>): Block {
    if moves == [] then key
    else if moves[|moves| - 1].NewKey? then moves[|moves| - 1].key
    else KeyAfter(key, moves[..|moves| - 1])
  }

  function PlayAll(env: Env, m: Manager, p: Peer, moves: seq<Move>): (Manager, Peer, seq<Result<bytes>>) {
    if moves == [] then (m, p, [])
    else
      var (m1, p1, got) := PlayAll(env, m, p, moves[..|moves| - 1]);
      var (m2, p2, last) := Play(env, m1, p1, moves[|moves| - 1]);
      (m2, p2, got + [last])
  }

  /** An established channel with both ends in step. */
  ghost predicate Established(m: Manager, p: Peer) {
    Synced(m, p) && m.state == InSession && m.sessionKey.Some?
  }

  /** A move that arrived, with both ends in step again and under the right key. */
  ghost predicate Kept(p: Peer, move: Move, r: (Manager, Peer, Result<bytes>)) {
    && Established(r.0, r.1)
    && r.2 == Ok(Sent(move))
    && r.1.key == (if move.NewKey? then move.key else p.key)
  }

  lemma PlayKeepsSync(env: Env, m: Manager, p: Peer, move: Move)
    requires env.cipher.Valid() && Established(m, p)
    ensures Kept(p, move, Play(env, m, p, move))
  {
    hide Play;
    match move
    case FromPhone(data) => PhoneKeepsSync(env, m, p, data);
    case FromLock(data) => LockKeepsSync(env, m, p, data);
    case NewKey(lead, key, rest) => NewKeyKeepsSync(env, m, p, lead, key, rest);
  }

  lemma PhoneKeepsSync(env: Env, m: Manager, p: Peer, data: bytes)
    requires env.cipher.Valid() && Established(m, p)
    ensures Kept(p, FromPhone(data), Play(env, m, p, FromPhone(data)))
  {
    hide Seal, Open, Cbc.LastBlock;
    PhoneToLock(env, m, p, data);
    var cipher := EncryptPayload(env, m, data).1;
    assert ([0x02] + cipher)[1..] == cipher;
  }

  lemma LockKeepsSync(env: Env, m: Manager, p: Peer, data: bytes)
    requires env.cipher.Valid() && Established(m, p)
    ensures Kept(p, FromLock(data), Play(env, m, p, FromLock(data)))
  {
    hide Seal, Unframed, Cbc.Decrypt, Cbc.LastBlock;
    ControlBits();
    LockToPhone(env, m, p, data);
    var cipher := PeerSeal(env, p, data).1;
    assert ([0x02] + cipher)[1..] == cipher;
  }

  lemma NewKeyKeepsSync(env: Env, m: Manager, p: Peer, lead: byte, key: Block, rest: bytes)
    requires env.cipher.Valid() && Established(m, p)
    ensures Kept(p, NewKey(lead, key, rest), Play(env, m, p, NewKey(lead, key, rest)))
  {
    hide Seal, Open, Unframed, Cbc.Decrypt, Cbc.LastBlock;
    ControlBits();
    var payload := [0x03, lead] + key + rest;
    LockToPhone(env, m, p, payload);
    var (p', cipher) := PeerSeal(env, p, payload);
    assert ([0x03] + cipher)[1..] == cipher;
    assert payload[1..][1..17] == key;
    var m1 := DecryptPayload(env, m, cipher).0.(sessionKey := Some(key));
    PhoneToLock(env, m1, p'.(key := key), [0x03]);
    var answer := EncryptPayload(env, m1, [0x03]).1;
    assert ([0x03] + answer)[1..] == answer;
  }

  /** Every message arrived intact. */
  ghost predicate AllArrived(got: seq<Result<bytes>>, moves: seq<Move>) {
    && |got| == |moves|
    && forall i :: 0 <= i < |moves| ==> got[i] == Ok(Sent(moves[i]))
  }

  /** After any moves, key changes included, every message arrived intact and both ends agree again. */
  lemma {:induction false} EndpointSynchrony(env: Env, m: Manager, p: Peer, moves: seq<Move>)
    requires env.cipher.Valid() && Established(m, p)
    ensures var (m', p', got) := PlayAll(env, m, p, moves);
      Established(m', p') && p'.key == KeyAfter(p.key, moves) && AllArrived(got, moves)
  {
    hide Play;
    if moves != [] {
      var before, last := moves[..|moves| - 1], moves[|moves| - 1];
      EndpointSynchrony(env, m, p, before);
      var r := PlayAll(env, m, p, before);
      PlayKeepsSync(env, r.0, r.1, last);
      OneMoreArrived(r.2, before, Play(env, r.0, r.1, last).2, last);
      assert moves == before + [last];
    }
  }

  lemma OneMoreArrived(got: seq<Result<bytes>>, moves: seq<Move>, r: Result<bytes>, move: Move)
    requires AllArrived(got, moves) && r == Ok(Sent(move))
    ensures AllArrived(got + [r], moves + [move])
  {
  }

  /** Handshake, then any moves: the channel never loses a byte. */
  lemma HonestRun(env: Env, knKey: Block, a: Block, moves: seq<Move>)
    requires env.cipher.Valid()
    ensures var start := Handshake(env, Fresh(knKey), Peer(knKey, ZERO_BLOCK), a);
      && start.Some?
      && var (m, p, got) := PlayAll(env, start.value.0, start.value.1, moves);
      Established(m, p) && p.key == KeyAfter(SharedKey(a, env.random(0)), moves) && AllArrived(got, moves)
  {
    hide Play, Handshake;
    HandshakeAgreement(env, Fresh(knKey), Peer(knKey, ZERO_BLOCK), a);
    var start := Handshake(env, Fresh(knKey), Peer(knKey, ZERO_BLOCK), a);
    EndpointSynchrony(env, start.value.0, start.value.1, moves);
  }
}
