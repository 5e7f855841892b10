/** What every run of the secure channel keeps. */
module SspRuns {
  import opened Bytes
  import opened Cbc
  import opened Ssp
  import Crc

  // ---------------------------------------------------------------- sealing and opening

  /** The bytes `Unframed` accepts: padded, and with a zero checksum residue. */
  ghost predicate Residual(plain: bytes, body: bytes) {
    && PaddedForm(plain, body)
    && |body| >= 2
    && Crc.Register(Crc.SSP_SEED, body) == 0
  }

  lemma LastTwo(s: bytes)
    requires |s| >= 2
    ensures var n := |s| - 2; s[n..] == [s[n], s[n + 1]] && s == s[..n] + [s[n], s[n + 1]]
  {
  }

  lemma ResidueOfBody(body: bytes)
    requires |body| >= 2
    ensures body[|body| - 2..] == Crc.Crc16Ssp(body[..|body| - 2]) <==> Crc.Register(Crc.SSP_SEED, body) == 0
  {
    var n := |body| - 2;
    LastTwo(body);
    Crc.ChecksumResidue(body[..n], body[n], body[n + 1]);
  }

  lemma UnframedBody(plain: bytes, body: bytes)
    requires |body| >= 2
    ensures Residual(plain, body) <==> Unpad(plain) == Ok(body) && Unframed(plain) == Ok(body[..|body| - 2])
  {
    UnpadExactly(plain, body);
    ResidueOfBody(body);
  }

  /** `decrypt_payload` accepts exactly padded bodies with a zero residue, and returns all but the checksum. */
  lemma UnframedExactly(plain: bytes)
    ensures Unframed(plain).Ok? <==> exists body :: Residual(plain, body)
    ensures forall body :: Residual(plain, body) ==> Unframed(plain) == Ok(body[..|body| - 2])
  {
    if Unframed(plain).Ok? {
      UnframedBody(plain, Unpad(plain).value);
      assert Residual(plain, Unpad(plain).value);
    }
    forall body | Residual(plain, body) ensures Unframed(plain) == Ok(body[..|body| - 2]) {
      UnframedBody(plain, body);
    }
  }

  lemma UnframedFramed(data: bytes)
    ensures Unframed(Framed(data)) == Ok(data)
  {
    var body := data + Crc.Crc16Ssp(data);
    UnpadPad(body);
    assert body[..|body| - 2] == data;
  }

  /** Whoever holds the key and the IV recovers exactly what was sealed. */
  lemma OpenSeal(c: Cipher, key: Block, iv: Block, data: bytes)
    requires c.Valid()
    ensures Open(c, key, iv, Seal(c, key, iv, data)) == Ok(data)
  {
    DecryptEncrypt(c, key, iv, Framed(data));
    UnframedFramed(data);
  }

  /** The manager recovers what a peer in the same position sealed, and both IVs move alike. */
  lemma DecryptSealed(env: Env, m: Manager, data: bytes)
    requires env.cipher.Valid()
    ensures var cipher := Seal(env.cipher, CurrentKey(m), m.iv, data);
      DecryptPayload(env, m, cipher)
      == (m.(iv := LastBlock(m.iv, cipher), log := m.log + [Frame(false, CurrentKey(m), Framed(data), cipher)]),
          Ok(data))
  {
    DecryptEncrypt(env.cipher, CurrentKey(m), m.iv, Framed(data));
    UnframedFramed(data);
  }

  // ---------------------------------------------------------------- runs

  /** Everything a caller can ask of the manager. */
  datatype Call =
    | Packet(packet: bytes)
    | Wrap(data: bytes)
    | Unwrap(packet: bytes)
    | Reset

  function Apply(env: Env, m: Manager, call: Call): (Manager, Result<bytes>) {
    match call
    case Packet(packet) => ProcessPacket(env, m, packet)
    case Wrap(data) => WrapData(env, m, data)
    case Unwrap(packet) => UnwrapData(env, m, packet)
    case Reset => (AfterReset(m), Ok([]))
  }

  function Run(env: Env, m: Manager, calls: seq<Call>): Manager {
    if calls == [] then m else Apply(env, Run(env, m, calls[..|calls| - 1]), calls[|calls| - 1]).0
  }

  // ---------------------------------------------------------------- single stream

  /** The IV the next frame is chained to. */
  function IvAfter(log: seq<Entry>): Block {
    if log == [] then ZERO_BLOCK
    else
      match log[|log| - 1]
      case Cleared => ZERO_BLOCK
      case Frame(_, _, _, cipher) => LastBlock(IvAfter(log[..|log| - 1]), cipher)
  }

  /** Frame `i` is one CBC encryption of its plaintext, from the IV its predecessor left. */
  ghost predicate Chained(c: Cipher, log: seq<Entry>, i: nat)
    requires i < |log|
  {
    log[i].Frame? ==>
      && WellSized(log[i].cipher)
      && |log[i].plain| == |log[i].cipher|
      && log[i].cipher == Encrypt(c, log[i].key, IvAfter(log[..i]), log[i].plain)
  }

  ghost predicate AllChained(c: Cipher, log: seq<Entry>) {
    forall i :: 0 <= i < |log| ==> Chained(c, log, i)
  }

  /** The manager's IV and history agree, and the history is one chain. */
  ghost predicate StreamInv(env: Env, m: Manager) {
    m.iv == IvAfter(m.log) && AllChained(env.cipher, m.log)
  }

  lemma ChainedExtend(c: Cipher, log: seq<Entry>, e: Entry)
    requires AllChained(c, log)
    requires e.Frame? ==>
      && WellSized(e.cipher) && |e.plain| == |e.cipher|
      && e.cipher == Encrypt(c, e.key, IvAfter(log), e.plain)
    ensures AllChained(c, log + [e])
    ensures IvAfter(log + [e]) == if e.Frame? then LastBlock(IvAfter(log), e.cipher) else ZERO_BLOCK
  {
    var longer := log + [e];
    assert longer[..|log|] == log;
    forall i | 0 <= i < |longer|
      ensures Chained(c, longer, i)
    {
      if i < |log| {
        assert longer[..i] == log[..i];
        assert Chained(c, log, i);
      }
    }
  }

  lemma EncryptKeepsStream(env: Env, m: Manager, data: bytes)
    requires StreamInv(env, m)
    ensures StreamInv(env, EncryptPayload(env, m, data).0)
  {
    var key := CurrentKey(m);
    var cipher := Seal(env.cipher, key, m.iv, data);
    ChainedExtend(env.cipher, m.log, Frame(true, key, Framed(data), cipher));
  }

  lemma DecryptKeepsStream(env: Env, m: Manager, cipher: bytes)
    requires env.cipher.Valid() && StreamInv(env, m)
    ensures StreamInv(env, DecryptPayload(env, m, cipher).0)
  {
    if WellSized(cipher) {
      var key := CurrentKey(m);
      EncryptDecrypt(env.cipher, key, m.iv, cipher);
      ChainedExtend(env.cipher, m.log, Frame(false, key, Decrypt(env.cipher, key, m.iv, cipher), cipher));
    }
  }

  lemma ControlKeepsStream(env: Env, m: Manager, payload: bytes, wasEncrypted: bool)
    requires StreamInv(env, m)
    ensures StreamInv(env, ControlPacket(env, m, payload, wasEncrypted).0)
  {
    if payload != [] && payload[0] == 0x01 {
      var b := env.random(m.drawn);
      EncryptKeepsStream(env, m.(randomB := Some(b), drawn := m.drawn + 1), [0x01] + b);
    } else if payload != [] && payload[0] == 0x02 && |payload| >= 33 {
      var a: Block := payload[1..][0..16];
      EncryptKeepsStream(env, m.(randomA := Some(a)), [0x02] + RotateRight(a));
    } else if payload != [] && payload[0] == 0x03 && |payload| >= 18 {
      EncryptKeepsStream(env, m.(sessionKey := Some(payload[1..][1..17])), [0x03]);
    }
  }

  lemma PacketKeepsStream(env: Env, m: Manager, packet: bytes)
    requires env.cipher.Valid() && StreamInv(env, m)
    ensures StreamInv(env, ProcessPacket(env, m, packet).0)
  {
    hide StreamInv, DecryptPayload, ControlPacket, IsEncrypted, IsControl;
    if |packet| >= 2 {
      var (m', payload) :=
        if IsEncrypted(packet[0]) then DecryptPayload(env, m, packet[1..]) else (m, Ok(packet[1..]));
      DecryptKeepsStream(env, m, packet[1..]);
      if payload.Ok? {
        ControlKeepsStream(env, m', payload.value, IsEncrypted(packet[0]));
      }
    }
  }

  lemma ApplyKeepsStream(env: Env, m: Manager, call: Call)
    requires env.cipher.Valid() && StreamInv(env, m)
    ensures StreamInv(env, Apply(env, m, call).0)
  {
    hide StreamInv, ProcessPacket, EncryptPayload, DecryptPayload;
    match call
    case Packet(packet) => PacketKeepsStream(env, m, packet);
    case Wrap(data) => EncryptKeepsStream(env, m, data);
    case Unwrap(packet) =>
      if packet != [] {
        DecryptKeepsStream(env, m, packet[1..]);
      }
    case Reset => ResetKeepsStream(env, m);
  }

  lemma ResetKeepsStream(env: Env, m: Manager)
    requires StreamInv(env, m)
    ensures StreamInv(env, AfterReset(m))
  {
    ChainedExtend(env.cipher, m.log, Cleared);
  }

  // ------------------------------------------------- the history is the wire

  /** What a caller sees of the traffic: encrypted bodies handed out, encrypted bodies handed in, resets. */
  datatype Mark = Sent(cipher: bytes) | Received(cipher: bytes) | Cut

  /** The encrypted body handed in, when its length is acceptable. */
  function BodyIn(packet: bytes): seq<Mark> {
    if packet != [] && packet[0] / 2 % 2 == 1 && |packet| >= 17 && |packet| % 16 == 1 then [Received(packet[1..])]
    else []
  }

  /** The encrypted body handed out. */
  function BodyOut(answer: Result<bytes>): seq<Mark> {
    if answer.Ok? && answer.value != [] && answer.value[0] / 2 % 2 == 1 then [Sent(answer.value[1..])] else []
  }

  /** The traffic of one call, from its argument and its answer alone; only control packets are answered by packets. */
  function Traffic(call: Call, answer: Result<bytes>): seq<Mark> {
    match call
    case Packet(packet) =>
      if |packet| < 2 then []
      else BodyIn(packet) + if packet[0] % 2 == 1 then BodyOut(answer) else []
    case Wrap(_) => BodyOut(answer)
    case Unwrap(packet) => BodyIn(packet)
    case Reset => [Cut]
  }

  /** The traffic of a run. */
  function Wire(env: Env, m: Manager, calls: seq<Call>): seq<Mark> {
    if calls == [] then []
    else
      var before, last := calls[..|calls| - 1], calls[|calls| - 1];
      Wire(env, m, before) + Traffic(last, Apply(env, Run(env, m, before), last).1)
  }

  function MarkOf(e: Entry): Mark {
    match e
    case Frame(sent, _, _, cipher) => if sent then Sent(cipher) else Received(cipher)
    case Cleared => Cut
  }

  function MarksOf(log: seq<Entry>): (marks: seq<Mark>)
    ensures |marks| == |log|
    ensures forall i :: 0 <= i < |log| ==> marks[i] == MarkOf(log[i])
  {
    seq(|log|, i requires 0 <= i < |log| => MarkOf(log[i]))
  }

  /** `m'` has seen `traffic` more than `m`. */
  ghost predicate Saw(m: Manager, m': Manager, traffic: seq<Mark>) {
    MarksOf(m'.log) == MarksOf(m.log) + traffic
  }

  lemma SawMore(m: Manager, m1: Manager, m2: Manager, a: seq<Mark>, b: seq<Mark>)
    requires Saw(m, m1, a) && Saw(m1, m2, b)
    ensures Saw(m, m2, a + b)
  {
    assert MarksOf(m.log) + a + b == MarksOf(m.log) + (a + b);
  }

  lemma SawOne(m: Manager, m': Manager, e: Entry)
    requires m'.log == m.log + [e]
    ensures Saw(m, m', [MarkOf(e)])
  {
  }

  /** Sealing a reply adds exactly the body of the packet that carries it. */
  lemma SealSeen(env: Env, m: Manager, data: bytes, control: byte)
    requires control / 2 % 2 == 1
    ensures var (m', cipher) := EncryptPayload(env, m, data); Saw(m, m', BodyOut(Ok([control] + cipher)))
  {
    hide Seal, LastBlock, IsEncrypted;
    var (m', cipher) := EncryptPayload(env, m, data);
    SawOne(m, m', m'.log[|m.log|]);
    assert ([control] + cipher)[1..] == cipher;
  }

  lemma ControlSeen(env: Env, m: Manager, payload: bytes, wasEncrypted: bool)
    ensures var (m', r) := ControlPacket(env, m, payload, wasEncrypted); Saw(m, m', BodyOut(r))
  {
    hide EncryptPayload, IsEncrypted, RotateRight, DeriveSessionKey;
    assert MarksOf(m.log) + [] == MarksOf(m.log);
    if payload != [] && payload[0] == 0x01 {
      var b := env.random(m.drawn);
      SealSeen(env, m.(randomB := Some(b), drawn := m.drawn + 1), [0x01] + b, 0x03);
    } else if payload != [] && payload[0] == 0x02 && |payload| >= 33 {
      var a: Block := payload[1..][0..16];
      SealSeen(env, m.(randomA := Some(a)), [0x02] + RotateRight(a), 0x03);
    } else if payload != [] && payload[0] == 0x03 && |payload| >= 18 {
      SealSeen(env, m.(sessionKey := Some(payload[1..][1..17])), [0x03], 0x03);
    }
  }

  lemma OpenSeen(env: Env, m: Manager, packet: bytes)
    requires packet != [] && IsEncrypted(packet[0])
    ensures Saw(m, DecryptPayload(env, m, packet[1..]).0, BodyIn(packet))
  {
    hide Decrypt, Unframed, LastBlock, IsEncrypted;
    FlagBits(packet[0]);
    if WellSized(packet[1..]) {
      var m' := DecryptPayload(env, m, packet[1..]).0;
      SawOne(m, m', m'.log[|m.log|]);
    } else {
      assert MarksOf(m.log) + [] == MarksOf(m.log);
    }
  }

  lemma PacketSeen(env: Env, m: Manager, packet: bytes)
    ensures var (m', r) := ProcessPacket(env, m, packet); Saw(m, m', Traffic(Packet(packet), r))
  {
    hide DecryptPayload, ControlPacket, IsEncrypted, IsControl, DataPacket;
    assert MarksOf(m.log) + [] == MarksOf(m.log);
    if |packet| >= 2 {
      FlagBits(packet[0]);
      var (m', payload) :=
        if IsEncrypted(packet[0]) then DecryptPayload(env, m, packet[1..]) else (m, Ok(packet[1..]));
      if IsEncrypted(packet[0]) {
        OpenSeen(env, m, packet);
      }
      assert BodyIn(packet) + [] == BodyIn(packet);
      if payload.Ok? && IsControl(packet[0]) {
        ControlSeen(env, m', payload.value, IsEncrypted(packet[0]));
        SawMore(m, m', ProcessPacket(env, m, packet).0, BodyIn(packet), BodyOut(ProcessPacket(env, m, packet).1));
      }
    }
  }

  lemma ApplySeen(env: Env, m: Manager, call: Call)
    ensures var (m', r) := Apply(env, m, call); Saw(m, m', Traffic(call, r))
  {
    hide DecryptPayload, ProcessPacket, EncryptPayload, IsEncrypted;
    assert MarksOf(m.log) + [] == MarksOf(m.log);
    match call
    case Packet(packet) => PacketSeen(env, m, packet);
    case Wrap(data) =>
        SealSeen(env, m, data, 0x02);
    case Unwrap(packet) =>
      if packet != [] {
        FlagBits(packet[0]);
        if IsEncrypted(packet[0]) {
          OpenSeen(env, m, packet);
        }
      }
    case Reset => SawOne(m, AfterReset(m), Cleared);
  }

  /** In every run the history is, in order, the encrypted bodies the caller handed in and was handed out. */
  lemma {:induction false} HistoryIsTheWire(env: Env, knKey: Block, calls: seq<Call>)
    ensures MarksOf(Run(env, Fresh(knKey), calls).log) == Wire(env, Fresh(knKey), calls)
  {
    hide Apply;
    if calls != [] {
      HistoryIsTheWire(env, knKey, calls[..|calls| - 1]);
      ApplySeen(env, Run(env, Fresh(knKey), calls[..|calls| - 1]), calls[|calls| - 1]);
    }
  }

  /** The IV the traffic leaves behind: the last block of the last body since the last reset, or zero. */
  function IvOf(wire: seq<Mark>): Block {
    if wire == [] || wire[|wire| - 1].Cut? then ZERO_BLOCK
    else LastBlock(IvOf(wire[..|wire| - 1]), wire[|wire| - 1].cipher)
  }

  function Bodies(wire: seq<Mark>): bytes {
    if wire == [] then []
    else Bodies(wire[..|wire| - 1]) + if wire[|wire| - 1].Cut? then [] else wire[|wire| - 1].cipher
  }

  lemma {:induction false} IvFromWire(log: seq<Entry>)
    ensures IvAfter(log) == IvOf(MarksOf(log))
  {
    if log != [] {
      assert MarksOf(log)[..|log| - 1] == MarksOf(log[..|log| - 1]);
      IvFromWire(log[..|log| - 1]);
    }
  }

  lemma {:induction false} BodiesFromWire(frames: seq<Entry>)
    requires forall e :: e in frames ==> e.Frame?
    ensures Bodies(MarksOf(frames)) == Ciphers(frames)
  {
    if frames != [] {
      assert MarksOf(frames)[..|frames| - 1] == MarksOf(frames[..|frames| - 1]);
      BodiesFromWire(frames[..|frames| - 1]);
    }
  }

  lemma {:induction false} StreamKept(env: Env, knKey: Block, calls: seq<Call>)
    requires env.cipher.Valid()
    ensures StreamInv(env, Run(env, Fresh(knKey), calls))
  {
    hide Apply, AllChained;
    if calls != [] {
      StreamKept(env, knKey, calls[..|calls| - 1]);
      ApplyKeepsStream(env, Run(env, Fresh(knKey), calls[..|calls| - 1]), calls[|calls| - 1]);
    } else {
      NothingChained(env, knKey);
    }
  }

  lemma NothingChained(env: Env, knKey: Block)
    ensures StreamInv(env, Fresh(knKey))
  {
  }

  /**
   * Over every run, the stored IV is the last block of the last encrypted body handed in or out since the last
   * reset, or zero, and every frame of the history is chained to its predecessor.
   */
  lemma RunIsChained(env: Env, knKey: Block, calls: seq<Call>)
    requires env.cipher.Valid()
    ensures Run(env, Fresh(knKey), calls).iv == IvOf(Wire(env, Fresh(knKey), calls))
    ensures AllChained(env.cipher, Run(env, Fresh(knKey), calls).log)
  {
    hide Run, Wire;
    StreamKept(env, knKey, calls);
    HistoryIsTheWire(env, knKey, calls);
    IvFromWire(Run(env, Fresh(knKey), calls).log);
  }

  function Plains(frames: seq<Entry>): bytes
    requires forall e :: e in frames ==> e.Frame?
  {
    if frames == [] then [] else Plains(frames[..|frames| - 1]) + frames[|frames| - 1].plain
  }

  function Ciphers(frames: seq<Entry>): bytes
    requires forall e :: e in frames ==> e.Frame?
  {
    if frames == [] then [] else Ciphers(frames[..|frames| - 1]) + frames[|frames| - 1].cipher
  }

  /** Entries `i..j` are frames under one key. */
  ghost predicate OneKey(log: seq<Entry>, i: nat, j: nat, key: Block)
    requires i <= j <= |log|
  {
    forall k :: i <= k < j ==> log[k].Frame? && log[k].key == key
  }

  /** One more frame, chained to a stream, lengthens the stream. */
  lemma ExtendStream(c: Cipher, key: Block, iv: Block, plains: bytes, ciphers: bytes, plain: bytes, cipher: bytes)
    requires |plains| % 16 == 0 && |plain| % 16 == 0
    requires ciphers == Encrypt(c, key, iv, plains)
    requires cipher == Encrypt(c, key, LastBlock(iv, ciphers), plain)
    ensures |plains + plain| % 16 == 0
    ensures ciphers + cipher == Encrypt(c, key, iv, plains + plain)
    ensures LastBlock(LastBlock(iv, ciphers), cipher) == LastBlock(iv, ciphers + cipher)
  {
    EncryptConcat(c, key, iv, plains, plain);
    LastBlockConcat(iv, ciphers, cipher);
  }

  lemma LastFrame(log: seq<Entry>, i: nat, j: nat)
    requires i < j <= |log| && forall k :: i <= k < j ==> log[k].Frame?
    ensures Plains(log[i..j]) == Plains(log[i..j - 1]) + log[j - 1].plain
    ensures Ciphers(log[i..j]) == Ciphers(log[i..j - 1]) + log[j - 1].cipher
    ensures IvAfter(log[..j]) == LastBlock(IvAfter(log[..j - 1]), log[j - 1].cipher)
  {
    assert log[i..j][..j - 1 - i] == log[i..j - 1];
    assert log[..j][..j - 1] == log[..j - 1];
  }

  /** Any stretch of traffic under one key, whoever sent it, is a single CBC encryption. */
  lemma {:induction false} SegmentIsOneStream(c: Cipher, log: seq<Entry>, i: nat, j: nat, key: Block)
    requires AllChained(c, log) && i <= j <= |log| && OneKey(log, i, j, key)
    ensures |Plains(log[i..j])| % 16 == 0
    ensures Ciphers(log[i..j]) == Encrypt(c, key, IvAfter(log[..i]), Plains(log[i..j]))
    ensures IvAfter(log[..j]) == LastBlock(IvAfter(log[..i]), Ciphers(log[i..j]))
    decreases j - i
  {
    if i < j {
      SegmentIsOneStream(c, log, i, j - 1, key);
      LastFrame(log, i, j);
      assert Chained(c, log, j - 1);
      var iv, last := IvAfter(log[..i]), log[j - 1];
      ExtendStream(c, key, iv, Plains(log[i..j - 1]), Ciphers(log[i..j - 1]), last.plain, last.cipher);
    }
  }

  /**
   * Single stream, for every run and every one-key stretch of it: the encrypted bodies handed in and out are one
   * encryption of the padded plaintexts, from the IV the traffic before them left.
   */
  lemma SingleStream(env: Env, knKey: Block, calls: seq<Call>, i: nat, j: nat, key: Block)
    requires env.cipher.Valid()
    requires var log := Run(env, Fresh(knKey), calls).log; i <= j <= |log| && OneKey(log, i, j, key)
    ensures var (log, wire) := (Run(env, Fresh(knKey), calls).log, Wire(env, Fresh(knKey), calls));
      && |wire| == |log|
      && |Plains(log[i..j])| % 16 == 0
      && Bodies(wire[i..j]) == Encrypt(env.cipher, key, IvOf(wire[..i]), Plains(log[i..j]))
  {
    hide Run, Wire, Encrypt;
    var log := Run(env, Fresh(knKey), calls).log;
    RunIsChained(env, knKey, calls);
    HistoryIsTheWire(env, knKey, calls);
    SegmentIsOneStream(env.cipher, log, i, j, key);
    assert MarksOf(log)[i..j] == MarksOf(log[i..j]) && MarksOf(log)[..i] == MarksOf(log[..i]);
    BodiesFromWire(log[i..j]);
    IvFromWire(log[..i]);
  }

  // ---------------------------------------------------------------- reachable states

  /** The session key exists exactly in session; the challenge exists while its answer is awaited. */
  ghost predicate StateInv(m: Manager) {
    && (m.sessionKey.Some? <==> m.state == InSession)
    && (m.state == AuthStep1 ==> m.randomB.Some?)
    && (m.state == InSession ==> m.randomA.Some? && m.randomB.Some?)
  }

  lemma ApplyKeepsState(env: Env, m: Manager, call: Call)
    requires StateInv(m)
    ensures StateInv(Apply(env, m, call).0)
  {
    if call.Packet? && |call.packet| >= 2 {
      var packet := call.packet;
      var (m', payload) :=
        if IsEncrypted(packet[0]) then DecryptPayload(env, m, packet[1..]) else (m, Ok(packet[1..]));
      if payload.Ok? {
        ControlKeepsState(env, m', payload.value, IsEncrypted(packet[0]));
      }
    }
  }

  lemma ControlKeepsState(env: Env, m: Manager, payload: bytes, wasEncrypted: bool)
    requires StateInv(m)
    ensures StateInv(ControlPacket(env, m, payload, wasEncrypted).0)
  {
  }

  lemma ControlFindsRandomB(env: Env, m: Manager, payload: bytes, wasEncrypted: bool)
    requires StateInv(m)
    ensures ControlPacket(env, m, payload, wasEncrypted).1 != Err(InvalidState(RandomBNotFound))
  {
  }

  lemma ApplyFindsRandomB(env: Env, m: Manager, call: Call)
    requires StateInv(m)
    ensures Apply(env, m, call).1 != Err(InvalidState(RandomBNotFound))
  {
    if call.Packet? && |call.packet| >= 2 {
      var packet := call.packet;
      var (m', payload) :=
        if IsEncrypted(packet[0]) then DecryptPayload(env, m, packet[1..]) else (m, Ok(packet[1..]));
      if payload.Ok? {
        ControlFindsRandomB(env, m', payload.value, IsEncrypted(packet[0]));
      }
    }
  }

  /** In every reachable state, and the "RandomB not found" error never happens. */
  lemma {:induction false} RunKeepsState(env: Env, knKey: Block, calls: seq<Call>)
    ensures StateInv(Run(env, Fresh(knKey), calls))
    ensures calls != [] ==>
      Apply(env, Run(env, Fresh(knKey), calls[..|calls| - 1]), calls[|calls| - 1]).1
        != Err(InvalidState(RandomBNotFound))
  {
    if calls != [] {
      var m := Run(env, Fresh(knKey), calls[..|calls| - 1]);
      RunKeepsState(env, knKey, calls[..|calls| - 1]);
      ApplyKeepsState(env, m, calls[|calls| - 1]);
      ApplyFindsRandomB(env, m, calls[|calls| - 1]);
    }
  }

  /**
   * A packet that carries an accepted step 2: an encrypted control packet whose plaintext is the opcode, sixteen
   * bytes, and the challenge with its last byte first.
   */
  ghost predicate ProvesChallenge(env: Env, m: Manager, call: Call) {
    && call.Packet? && |call.packet| >= 2
    && call.packet[0] % 4 == 3
    && var payload := Open(env.cipher, CurrentKey(m), m.iv, call.packet[1..]);
    && payload.Ok? && |payload.value| >= 33
    && payload.value[0] == 0x02
    && m.randomB.Some?
    && payload.value[17] == m.randomB.value[15] && payload.value[18..33] == m.randomB.value[..15]
  }

  lemma ProofBytes(proof: bytes, b: Block)
    requires |proof| == 16
    ensures proof == RotateRight(b) <==> proof[0] == b[15] && proof[1..] == b[..15]
  {
    RotateRightPositions(b);
    assert proof == [proof[0]] + proof[1..] && RotateRight(b) == [RotateRight(b)[0]] + RotateRight(b)[1..];
  }

  lemma OpensAlike(env: Env, m: Manager, cipher: bytes)
    ensures DecryptPayload(env, m, cipher).1 == Open(env.cipher, CurrentKey(m), m.iv, cipher)
  {
    hide Decrypt, Unframed, LastBlock;
  }

  /** A session begins exactly when, in AuthStep1, the peer returns the rotated challenge. */
  lemma SessionNeedsProof(env: Env, m: Manager, call: Call)
    requires m.state != InSession
    ensures Apply(env, m, call).0.state == InSession <==> m.state == AuthStep1 && ProvesChallenge(env, m, call)
  {
    hide Decrypt, Unframed, LastBlock, Seal, RotateRight, IsEncrypted, IsControl;
    if call.Packet? && |call.packet| >= 2 {
      FlagBits(call.packet[0]);
    }
    if call.Packet? && |call.packet| >= 2 && IsEncrypted(call.packet[0]) && IsControl(call.packet[0]) {
      var payload := Open(env.cipher, CurrentKey(m), m.iv, call.packet[1..]);
      OpensAlike(env, m, call.packet[1..]);
      if payload.Ok? && |payload.value| >= 33 {
        assert payload.value[1..][16..32] == payload.value[17..33];
        if m.randomB.Some? {
          ProofBytes(payload.value[17..33], m.randomB.value);
          assert payload.value[17..33][1..] == payload.value[18..33];
        }
      }
    }
  }

  /** In AuthStep1 the second message decides: the challenge, last byte first, or back to the start. */
  lemma SecondMessageExactly(env: Env, m: Manager, packet: bytes, b: Block, payload: bytes)
    requires |packet| >= 2 && packet[0] % 4 == 3 && m.state == AuthStep1 && m.randomB == Some(b)
    requires Open(env.cipher, CurrentKey(m), m.iv, packet[1..]) == Ok(payload)
    requires |payload| >= 33 && payload[0] == 0x02
    ensures var (m', r) := ProcessPacket(env, m, packet);
      if payload[17] == b[15] && payload[18..33] == b[..15]
      then r.Ok? && m'.state == InSession
      else r == Err(AuthenticationFailed) && m'.state == Ready && m'.sessionKey == m.sessionKey && m'.randomB == Some(b)
  {
    hide Decrypt, Unframed, LastBlock, Seal, RotateRight, IsEncrypted, IsControl;
    FlagBits(packet[0]);
    OpensAlike(env, m, packet[1..]);
    assert payload[1..][16..32] == payload[17..33] && payload[17..33][1..] == payload[18..33];
    ProofBytes(payload[17..33], b);
  }

  /** What every plaintext control packet does, opcode by opcode. */
  lemma PlainControlExactly(env: Env, m: Manager, packet: bytes)
    requires |packet| >= 2 && packet[0] % 4 == 1
    ensures var ((m', r), op) := (ProcessPacket(env, m, packet), packet[1]);
      && (op == 0x00 ==> m' == m && r == Err(InvalidData(ErrorPacketReceived)))
      && (op == 0x01 && m.state != Ready ==> m' == m && r == Err(InvalidState(NotReady)))
      && (op == 0x01 && m.state == Ready ==>
        && m'.state == AuthStep1 && m'.randomB == Some(env.random(m.drawn)) && m'.drawn == m.drawn + 1
        && r == Ok([0x03] + Seal(env.cipher, CurrentKey(m), m.iv, [0x01] + env.random(m.drawn))))
      && (op == 0x02 ==> m' == m && r == Err(InvalidData(Step2MustBeEncrypted)))
      && (op == 0x03 && m.state != InSession ==> m' == m && r == Err(InvalidState(NotInSession)))
      && (op == 0x03 && m.state == InSession && |packet| < 19 ==> m' == m && r == Err(InvalidData(SetKeyTooShort)))
      && (op == 0x04 ==> m' == m && r == Ok([0x01, 0x04, 0x01, 0x00]))
      && (op > 0x04 ==> m' == m && r == Err(InvalidData(UnknownOpCode)))
  {
    hide Seal, LastBlock, RotateRight, IsEncrypted, IsControl;
    FlagBits(packet[0]);
  }

  /** What every encrypted packet that cannot be opened does, and what the opened ones with nothing to say do. */
  lemma EncryptedExactly(env: Env, m: Manager, packet: bytes)
    requires |packet| >= 2 && packet[0] / 2 % 2 == 1
    ensures var (r, got) := (ProcessPacket(env, m, packet).1, Open(env.cipher, CurrentKey(m), m.iv, packet[1..]));
      && (got.Err? ==> r == got)
      && (got.Ok? && packet[0] % 2 == 0 ==>
        r == if m.state == InSession then got else Err(InvalidState(NotInSession)))
      && (got.Ok? && packet[0] % 2 == 1 ==>
        && (got.value == [] ==> r == Err(InvalidData(EmptyControlPacket)))
        && (got.value != [] ==>
          && (got.value[0] == 0x00 ==> r == Err(InvalidData(ErrorPacketReceived)))
          && (got.value[0] == 0x01 ==> r == Err(InvalidData(Step1MustBePlain)))
          && (got.value[0] == 0x02 && m.state != AuthStep1 ==> r == Err(InvalidState(NotAuthStep1)))
          && (got.value[0] == 0x02 && m.state == AuthStep1 && |got.value| < 33 ==> r == Err(InvalidData(Step2TooShort)))
          && (got.value[0] == 0x03 && m.state != InSession ==> r == Err(InvalidState(NotInSession)))
          && (got.value[0] == 0x04 ==> r == Ok([0x01, 0x04, 0x01, 0x00]))
          && (got.value[0] > 0x04 ==> r == Err(InvalidData(UnknownOpCode)))))
  {
    hide Decrypt, Unframed, LastBlock, Seal, RotateRight, IsEncrypted, IsControl;
    FlagBits(packet[0]);
    OpensAlike(env, m, packet[1..]);
  }

  /** Data in the clear, and packets too short to be any, leave the channel as it is. */
  lemma PlainDataExactly(env: Env, m: Manager, packet: bytes)
    requires |packet| < 2 || packet[0] % 4 == 0
    ensures ProcessPacket(env, m, packet) ==
      (m, if |packet| < 2 then Err(InvalidData(PacketTooShort))
          else if m.state == InSession then Ok(packet[1..])
          else Err(InvalidState(NotInSession)))
  {
    if |packet| >= 2 {
      FlagBits(packet[0]);
    }
  }

  lemma KeySet(env: Env, m: Manager, payload: bytes)
    requires m.state == InSession
    ensures var (m', r) := SetKeyValue(env, m, payload);
      if |payload| < 17 then m' == m && r == Err(InvalidData(SetKeyTooShort))
      else
        && m'.sessionKey == Some(payload[1..17]) && m'.state == InSession
        && r == Ok([0x03] + Seal(env.cipher, payload[1..17], m.iv, [0x03]))
        && m'.iv == r.value[|r.value| - 16..]
  {
    hide Seal;
  }

  /** A key change in session: the key is the sixteen bytes after the opcode and one more, and is in force at once. */
  lemma KeyChangeExactly(env: Env, m: Manager, packet: bytes, payload: bytes)
    requires m.state == InSession && |packet| >= 2 && packet[0] % 2 == 1
    requires if packet[0] / 2 % 2 == 1 then Open(env.cipher, CurrentKey(m), m.iv, packet[1..]) == Ok(payload)
             else payload == packet[1..]
    requires payload != [] && payload[0] == 0x03
    ensures var (m', r) := ProcessPacket(env, m, packet);
      var iv: Block := if packet[0] / 2 % 2 == 1 then packet[|packet| - 16..] else m.iv;
      if |payload| < 18 then r == Err(InvalidData(SetKeyTooShort)) && m'.sessionKey == m.sessionKey
      else
        && m'.sessionKey == Some(payload[2..18]) && m'.state == InSession
        && r == Ok([0x03] + Seal(env.cipher, payload[2..18], iv, [0x03]))
        && m'.iv == r.value[|r.value| - 16..]
  {
    hide Decrypt, Unframed, Seal, IsEncrypted, IsControl, SetKeyValue, Open;
    FlagBits(packet[0]);
    OpensAlike(env, m, packet[1..]);
    if packet[0] / 2 % 2 == 1 {
      KeySet(env, DecryptPayload(env, m, packet[1..]).0, payload[1..]);
    } else {
      KeySet(env, m, payload[1..]);
    }
    assert |payload| >= 18 ==> payload[1..][1..17] == payload[2..18];
    if |packet| >= 17 {
      assert packet[1..][|packet| - 17..] == packet[|packet| - 16..];
    }
  }

  /** Data handed to the channel and taken from it. */
  lemma DataCallsExactly(env: Env, m: Manager, data: bytes)
    ensures var (m', r) := WrapData(env, m, data);
      if m.state != InSession then m' == m && r == Err(InvalidState(NotInSession))
      else r == Ok([0x02] + Seal(env.cipher, CurrentKey(m), m.iv, data)) && m'.iv == r.value[|r.value| - 16..]
    ensures var (m', r) := UnwrapData(env, m, data);
      if data == [] then m' == m && r == Err(InvalidData(EmptyPacket))
      else if data[0] / 2 % 2 == 0 then m' == m && r == Err(InvalidData(ExpectedEncrypted))
      else r == Open(env.cipher, CurrentKey(m), m.iv, data[1..])
  {
    hide Decrypt, Unframed, Seal, IsEncrypted, IsControl;
    if data != [] {
      FlagBits(data[0]);
      OpensAlike(env, m, data[1..]);
    }
  }

  /** What is sealed, byte by byte: the message, its checksum, the marker, zeros, at most one block more. */
  lemma SealedBytes(c: Cipher, key: Block, iv: Block, data: bytes)
    ensures var n := |data|;
      exists plain: bytes ::
        && |plain| % 16 == 0 && n + 2 < |plain| <= n + 18
        && plain[..n] == data && plain[n..n + 2] == Crc.Crc16Ssp(data) && plain[n + 2] == 0x80
        && (forall i :: n + 2 < i < |plain| ==> plain[i] == 0x00)
        && Seal(c, key, iv, data) == Encrypt(c, key, iv, plain)
  {
    var body, plain := data + Crc.Crc16Ssp(data), Framed(data);
    PadShape(body);
    assert plain[..|data|] == plain[..|body|][..|data|] == data;
    assert plain[|data|..|data| + 2] == plain[..|body|][|data|..] == Crc.Crc16Ssp(data);
    assert Seal(c, key, iv, data) == Encrypt(c, key, iv, plain);
  }

  /** The entries after the last reset. */
  function SinceReset(log: seq<Entry>): seq<Entry> {
    if log == [] || log[|log| - 1].Cleared? then [] else SinceReset(log[..|log| - 1]) + [log[|log| - 1]]
  }

  /** Everything since the last reset is under the pre-shared key. */
  ghost predicate OnlyKn(m: Manager) {
    forall e :: e in SinceReset(m.log) ==> e.Frame? && e.key == m.knKey
  }

  lemma OneMore(m: Manager, e: Entry, m': Manager)
    requires OnlyKn(m) && m'.log == m.log + [e] && m'.knKey == m.knKey
    requires e.Frame? ==> e.key == m.knKey
    ensures OnlyKn(m')
  {
    assert m'.log[..|m.log|] == m.log;
  }

  lemma EncryptOnlyKn(env: Env, m: Manager, data: bytes)
    requires OnlyKn(m) && m.sessionKey.None?
    ensures OnlyKn(EncryptPayload(env, m, data).0)
  {
    var m' := EncryptPayload(env, m, data).0;
    OneMore(m, m'.log[|m.log|], m');
  }

  lemma DecryptOnlyKn(env: Env, m: Manager, cipher: bytes)
    requires OnlyKn(m) && m.sessionKey.None?
    ensures OnlyKn(DecryptPayload(env, m, cipher).0)
  {
    if WellSized(cipher) {
      var m' := DecryptPayload(env, m, cipher).0;
      OneMore(m, m'.log[|m.log|], m');
    }
  }

  lemma ControlOnlyKn(env: Env, m: Manager, payload: bytes, wasEncrypted: bool)
    requires OnlyKn(m) && m.sessionKey.None? && StateInv(m)
    ensures OnlyKn(ControlPacket(env, m, payload, wasEncrypted).0)
  {
    if payload != [] && payload[0] == 0x01 {
      var b := env.random(m.drawn);
      EncryptOnlyKn(env, m.(randomB := Some(b), drawn := m.drawn + 1), [0x01] + b);
    } else if payload != [] && payload[0] == 0x02 && |payload| >= 33 {
      var a: Block := payload[1..][0..16];
      EncryptOnlyKn(env, m.(randomA := Some(a)), [0x02] + RotateRight(a));
    }
  }

  lemma ApplyOnlyKn(env: Env, m: Manager, call: Call)
    requires StateInv(m) && (m.state != InSession ==> OnlyKn(m))
    ensures m.state == InSession && !call.Reset? ==> Apply(env, m, call).0.state == InSession
    ensures m.state != InSession || call.Reset? ==> OnlyKn(Apply(env, m, call).0)
  {
    match call
    case Packet(packet) =>
      if m.state != InSession && |packet| >= 2 {
        var (m', payload) :=
          if IsEncrypted(packet[0]) then DecryptPayload(env, m, packet[1..]) else (m, Ok(packet[1..]));
        DecryptOnlyKn(env, m, packet[1..]);
        if payload.Ok? {
          ControlOnlyKn(env, m', payload.value, IsEncrypted(packet[0]));
        }
      }
    case Wrap(data) =>
    case Unwrap(packet) =>
      if m.state != InSession && packet != [] {
        DecryptOnlyKn(env, m, packet[1..]);
      }
    case Reset =>
  }

  /** In every run, until a session begins all traffic since the last reset is under kN. */
  lemma RunOnlyKn(env: Env, knKey: Block, calls: seq<Call>)
    ensures var m := Run(env, Fresh(knKey), calls);
      && MarksOf(m.log) == Wire(env, Fresh(knKey), calls)
      && m.knKey == knKey && (m.state != InSession ==> OnlyKn(m))
  {
    hide Run, Wire, OnlyKn;
    HistoryIsTheWire(env, knKey, calls);
    KnKept(env, knKey, calls);
  }

  lemma {:induction false} KnKept(env: Env, knKey: Block, calls: seq<Call>)
    ensures var m := Run(env, Fresh(knKey), calls); m.knKey == knKey && (m.state != InSession ==> OnlyKn(m))
  {
    hide Apply;
    if calls != [] {
      var before := calls[..|calls| - 1];
      KnKept(env, knKey, before);
      RunKeepsState(env, knKey, before);
      KnStep(env, Run(env, Fresh(knKey), before), calls[|calls| - 1]);
    }
  }

  lemma KnStep(env: Env, m: Manager, call: Call)
    requires StateInv(m) && (m.state != InSession ==> OnlyKn(m))
    ensures var m' := Apply(env, m, call).0; m'.knKey == m.knKey && (m'.state != InSession ==> OnlyKn(m'))
  {
    ApplyKeepsKn(env, m, call);
    ApplyOnlyKn(env, m, call);
  }

  lemma ApplyKeepsKn(env: Env, m: Manager, call: Call)
    ensures Apply(env, m, call).0.knKey == m.knKey
  {
  }
}
