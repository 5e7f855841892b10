/** The SSP secure channel: crates/mkey-core/src/security/ssp.rs. */
module Ssp {
  import opened Bytes
  import opened Cbc
  import Crc

  const REQUEST_FLAG: byte := 0x01
  const ENCRYPTED_FLAG: byte := 0x02
  const UNENCRYPTED_CONTROL: byte := 0x01
  const ENCRYPTED_CONTROL: byte := 0x03
  const ENCRYPTED_DATA: byte := 0x02

  const OP_ERROR: byte := 0x00
  const OP_STEP1: byte := 0x01
  const OP_STEP2: byte := 0x02
  const OP_SET_KEY: byte := 0x03
  const OP_GET_VERSION: byte := 0x04

  predicate IsControl(control: byte) {
    And(control, REQUEST_FLAG) != 0
  }

  predicate IsEncrypted(control: byte) {
    And(control, ENCRYPTED_FLAG) != 0
  }

  /** The two flags of a control byte, as digits. */
  lemma FlagBits(control: byte)
    ensures IsControl(control) <==> control % 2 == 1
    ensures IsEncrypted(control) <==> control / 2 % 2 == 1
  {
    AndOne(control);
    AndOne(control / 2);
    AndDouble(control, 1);
  }

  datatype State = Ready | AuthStep1 | InSession

  /** The block cipher, and the 16-byte values the random source will produce, in order. */
  datatype Env = Env(cipher: Cipher, random: nat -> Block)

  /** One well-sized ciphertext that passed through the manager, or a reset. */
  datatype Entry =
    | Frame(sent: bool, key: Block, plain: bytes, cipher: bytes)
    | Cleared

  /** The manager's fields as a value. `drawn` counts random values used up, `log` is the ciphertext history. */
  datatype Manager = Manager(
    state: State,
    iv: Block,
    knKey: Block,
    sessionKey: Option<Block>,
    randomB: Option<Block>,
    randomA: Option<Block>,
    drawn: nat,
    log: seq<Entry>)

  function Fresh(knKey: Block): Manager {
    Manager(Ready, ZERO_BLOCK, knKey, None, None, None, 0, [])
  }

  function AfterReset(m: Manager): Manager {
    m.(state := Ready, iv := ZERO_BLOCK, sessionKey := None, randomB := None, randomA := None, log := m.log + [Cleared])
  }

  function CurrentKey(m: Manager): Block {
    if m.sessionKey.Some? then m.sessionKey.value else m.knKey
  }

  // ---------------------------------------------------------------- sealing

  /** Message, checksum, padding. */
  function Framed(data: bytes): (p: bytes)
    ensures |p| % 16 == 0 && |p| >= 16
  {
    Pad(data + Crc.Crc16Ssp(data))
  }

  function Seal(c: Cipher, key: Block, iv: Block, data: bytes): (cipher: bytes)
    ensures |cipher| % 16 == 0 && |cipher| >= 16
  {
    Encrypt(c, key, iv, Framed(data))
  }

  /** Undo `Framed`, with the errors the code reports. */
  function Unframed(plain: bytes): (r: Result<bytes>)
    ensures r.Err? ==> !r.error.InvalidState?
  {
    var unpadded := Unpad(plain);
    if unpadded.Err? then unpadded
    else
      var body := unpadded.value;
      if |body| < 2 then Err(InvalidData(NoRoomForCrc))
      else if body[|body| - 2..] != Crc.Crc16Ssp(body[..|body| - 2]) then Err(InvalidCrc)
      else Ok(body[..|body| - 2])
  }

  predicate WellSized(cipher: bytes) {
    |cipher| >= 16 && |cipher| % 16 == 0
  }

  function Open(c: Cipher, key: Block, iv: Block, cipher: bytes): Result<bytes> {
    if !WellSized(cipher) then Err(InvalidData(CiphertextLength))
    else Unframed(Decrypt(c, key, iv, cipher))
  }

  function EncryptPayload(env: Env, m: Manager, data: bytes): (Manager, bytes) {
    var key := CurrentKey(m);
    var cipher := Seal(env.cipher, key, m.iv, data);
    (m.(iv := LastBlock(m.iv, cipher), log := m.log + [Frame(true, key, Framed(data), cipher)]), cipher)
  }

  function DecryptPayload(env: Env, m: Manager, cipher: bytes): (Manager, Result<bytes>) {
    if !WellSized(cipher) then (m, Err(InvalidData(CiphertextLength)))
    else
      var key := CurrentKey(m);
      var plain := Decrypt(env.cipher, key, m.iv, cipher);
      (m.(iv := LastBlock(m.iv, cipher), log := m.log + [Frame(false, key, plain, cipher)]), Unframed(plain))
  }

  // ---------------------------------------------------------------- packets

  function OpenSessionStep1(env: Env, m: Manager, wasEncrypted: bool): (Manager, Result<bytes>) {
    if wasEncrypted then (m, Err(InvalidData(Step1MustBePlain)))
    else if m.state != Ready then (m, Err(InvalidState(NotReady)))
    else
      var b := env.random(m.drawn);
      var (m', cipher) := EncryptPayload(env, m.(randomB := Some(b), drawn := m.drawn + 1), [OP_STEP1] + b);
      (m'.(state := AuthStep1), Ok([ENCRYPTED_CONTROL] + cipher))
  }

  function OpenSessionStep2(env: Env, m: Manager, payload: bytes, wasEncrypted: bool): (Manager, Result<bytes>) {
    if !wasEncrypted then (m, Err(InvalidData(Step2MustBeEncrypted)))
    else if m.state != AuthStep1 then (m, Err(InvalidState(NotAuthStep1)))
    else if |payload| < 32 then (m, Err(InvalidData(Step2TooShort)))
    else if m.randomB.None? then (m, Err(InvalidState(RandomBNotFound)))
    else
      var a: Block, proof := payload[0..16], payload[16..32];
      if proof != RotateRight(m.randomB.value) then (m.(state := Ready), Err(AuthenticationFailed))
      else
        var (m', cipher) := EncryptPayload(env, m.(randomA := Some(a)), [OP_STEP2] + RotateRight(a));
        (m'.(sessionKey := Some(DeriveSessionKey(a, m.randomB.value)), state := InSession),
         Ok([ENCRYPTED_CONTROL] + cipher))
  }

  function SetKeyValue(env: Env, m: Manager, payload: bytes): (Manager, Result<bytes>) {
    if m.state != InSession then (m, Err(InvalidState(NotInSession)))
    else if |payload| < 17 then (m, Err(InvalidData(SetKeyTooShort)))
    else
      var (m', cipher) := EncryptPayload(env, m.(sessionKey := Some(payload[1..17])), [OP_SET_KEY]);
      (m', Ok([ENCRYPTED_CONTROL] + cipher))
  }

  /** SSP version 1.0, in the clear. */
  const VERSION_REPLY: bytes := [UNENCRYPTED_CONTROL, OP_GET_VERSION, 1, 0]

  function ControlPacket(env: Env, m: Manager, payload: bytes, wasEncrypted: bool): (Manager, Result<bytes>) {
    if payload == [] then (m, Err(InvalidData(EmptyControlPacket)))
    else if payload[0] == OP_ERROR then (m, Err(InvalidData(ErrorPacketReceived)))
    else if payload[0] == OP_STEP1 then OpenSessionStep1(env, m, wasEncrypted)
    else if payload[0] == OP_STEP2 then OpenSessionStep2(env, m, payload[1..], wasEncrypted)
    else if payload[0] == OP_SET_KEY then SetKeyValue(env, m, payload[1..])
    else if payload[0] == OP_GET_VERSION then (m, Ok(VERSION_REPLY))
    else (m, Err(InvalidData(UnknownOpCode)))
  }

  function DataPacket(m: Manager, payload: bytes): Result<bytes> {
    if m.state != InSession then Err(InvalidState(NotInSession)) else Ok(payload)
  }

  function ProcessPacket(env: Env, m: Manager, packet: bytes): (Manager, Result<bytes>) {
    if |packet| < 2 then (m, Err(InvalidData(PacketTooShort)))
    else
      var (m', payload) :=
        if IsEncrypted(packet[0]) then DecryptPayload(env, m, packet[1..]) else (m, Ok(packet[1..]));
      if payload.Err? then (m', payload)
      else if IsControl(packet[0]) then ControlPacket(env, m', payload.value, IsEncrypted(packet[0]))
      else (m', DataPacket(m', payload.value))
  }

  function WrapData(env: Env, m: Manager, data: bytes): (Manager, Result<bytes>) {
    if m.state != InSession then (m, Err(InvalidState(NotInSession)))
    else
      var (m', cipher) := EncryptPayload(env, m, data);
      (m', Ok([ENCRYPTED_DATA] + cipher))
  }

  function UnwrapData(env: Env, m: Manager, packet: bytes): (Manager, Result<bytes>) {
    if packet == [] then (m, Err(InvalidData(EmptyPacket)))
    else if !IsEncrypted(packet[0]) then (m, Err(InvalidData(ExpectedEncrypted)))
    else DecryptPayload(env, m, packet[1..])
  }

  // ---------------------------------------------------------------- the code

  class SecureProtocolManager {
    var state: State
    var iv: Block
    const knKey: Block
    var sessionKey: Option<Block>
    var randomB: Option<Block>
    var randomA: Option<Block>
    const env: Env
    var drawn: nat
    /** Every well-sized ciphertext so far, sent or received. */
    ghost var log: seq<Entry>

    ghost function Value(): Manager
      reads this
    {
      Manager(state, iv, knKey, sessionKey, randomB, randomA, drawn, log)
    }

    constructor (knKey: Block, env: Env)
      ensures Value() == Fresh(knKey) && this.env == env
    {
      this.state, this.iv, this.knKey := Ready, ZERO_BLOCK, knKey;
      this.sessionKey, this.randomB, this.randomA := None, None, None;
      this.env, this.drawn, this.log := env, 0, [];
    }

    method Reset()
      modifies this
      ensures Value() == AfterReset(old(Value()))
    {
      state := Ready;
      iv := ZERO_BLOCK;
      sessionKey := None;
      randomB := None;
      randomA := None;
      log := log + [Cleared];
    }

    method ProcessPacketBytes(packet: bytes) returns (r: Result<bytes>)
      modifies this
      ensures (Value(), r) == ProcessPacket(env, old(Value()), packet)
    {
      if |packet| < 2 {
        return Err(InvalidData(PacketTooShort));
      }
      var control := packet[0];
      var isEncrypted, isControl := IsEncrypted(control), IsControl(control);
      var payload := Ok(packet[1..]);
      if isEncrypted {
        payload := DecryptPayloadBytes(packet[1..]);
      }
      if payload.Err? {
        return payload;
      }
      if isControl {
        r := ProcessControlPacket(payload.value, isEncrypted);
      } else {
        r := ProcessDataPacket(payload.value);
      }
    }

    method ProcessControlPacket(payload: bytes, wasEncrypted: bool) returns (r: Result<bytes>)
      modifies this
      ensures (Value(), r) == ControlPacket(env, old(Value()), payload, wasEncrypted)
    {
      if payload == [] {
        return Err(InvalidData(EmptyControlPacket));
      }
      var opcode := payload[0];
      if opcode == OP_ERROR {
        r := Err(InvalidData(ErrorPacketReceived));
      } else if opcode == OP_STEP1 {
        r := HandleOpenSessionStep1(wasEncrypted);
      } else if opcode == OP_STEP2 {
        r := HandleOpenSessionStep2(payload[1..], wasEncrypted);
      } else if opcode == OP_SET_KEY {
        r := HandleSetKeyValue(payload[1..]);
      } else if opcode == OP_GET_VERSION {
        r := Ok(VERSION_REPLY);
      } else {
        r := Err(InvalidData(UnknownOpCode));
      }
    }

    method ProcessDataPacket(payload: bytes) returns (r: Result<bytes>)
      ensures r == DataPacket(Value(), payload)
    {
      if state != InSession {
        return Err(InvalidState(NotInSession));
      }
      r := Ok(payload);
    }

    method HandleOpenSessionStep1(wasEncrypted: bool) returns (r: Result<bytes>)
      modifies this
      ensures (Value(), r) == OpenSessionStep1(env, old(Value()), wasEncrypted)
    {
      if wasEncrypted {
        return Err(InvalidData(Step1MustBePlain));
      }
      if state != Ready {
        return Err(InvalidState(NotReady));
      }
      var b := env.random(drawn);
      drawn := drawn + 1;
      randomB := Some(b);
      var response := [OP_STEP1];
      response := response + b;
      var encrypted := EncryptPayloadBytes(response);
      state := AuthStep1;
      r := Ok([ENCRYPTED_CONTROL] + encrypted);
    }

    method HandleOpenSessionStep2(payload: bytes, wasEncrypted: bool) returns (r: Result<bytes>)
      modifies this
      ensures (Value(), r) == OpenSessionStep2(env, old(Value()), payload, wasEncrypted)
    {
      if !wasEncrypted {
        return Err(InvalidData(Step2MustBeEncrypted));
      }
      if state != AuthStep1 {
        return Err(InvalidState(NotAuthStep1));
      }
      if |payload| < 32 {
        return Err(InvalidData(Step2TooShort));
      }
      var a: Block, proof := payload[0..16], payload[16..32];
      if randomB.None? {
        return Err(InvalidState(RandomBNotFound));
      }
      var stored := randomB.value;
      var expected := RotateRightCopy(stored);
      if proof != expected {
        state := Ready;
        return Err(AuthenticationFailed);
      }
      randomA := Some(a);
      var rotated := RotateRightCopy(a);
      var response := [OP_STEP2];
      response := response + rotated;
      var encrypted := EncryptPayloadBytes(response);
      var key := FillSessionKey(a, stored);
      sessionKey := Some(key);
      state := InSession;
      r := Ok([ENCRYPTED_CONTROL] + encrypted);
    }

    method HandleSetKeyValue(payload: bytes) returns (r: Result<bytes>)
      modifies this
      ensures (Value(), r) == SetKeyValue(env, old(Value()), payload)
    {
      if state != InSession {
        return Err(InvalidState(NotInSession));
      }
      if |payload| < 17 {
        return Err(InvalidData(SetKeyTooShort));
      }
      sessionKey := Some(payload[1..17]);
      var encrypted := EncryptPayloadBytes([OP_SET_KEY]);
      r := Ok([ENCRYPTED_CONTROL] + encrypted);
    }

    method EncryptPayloadBytes(data: bytes) returns (ciphertext: bytes)
      modifies this
      ensures (Value(), ciphertext) == EncryptPayload(env, old(Value()), data)
    {
      var crc := Crc.Crc16SspNibbles(data);
      var padded := ApplyPadding(data + crc);
      var key := if sessionKey.Some? then sessionKey.value else knKey;
      ciphertext := EncryptAesCbc(env.cipher, key, iv, padded);
      log := log + [Frame(true, key, padded, ciphertext)];
      UpdateIv(ciphertext);
    }

    method DecryptPayloadBytes(ciphertext: bytes) returns (r: Result<bytes>)
      modifies this
      ensures (Value(), r) == DecryptPayload(env, old(Value()), ciphertext)
    {
      if |ciphertext| < 16 || |ciphertext| % 16 != 0 {
        return Err(InvalidData(CiphertextLength));
      }
      var key := if sessionKey.Some? then sessionKey.value else knKey;
      var decrypted := DecryptAesCbc(env.cipher, key, iv, ciphertext);
      log := log + [Frame(false, key, decrypted.value, ciphertext)];
      UpdateIv(ciphertext);
      var unpadded := RemovePadding(decrypted.value);
      if unpadded.Err? {
        return unpadded;
      }
      var body := unpadded.value;
      if |body| < 2 {
        return Err(InvalidData(NoRoomForCrc));
      }
      var data, received := body[..|body| - 2], body[|body| - 2..];
      var calculated := Crc.Crc16SspNibbles(data);
      if received != calculated {
        return Err(InvalidCrc);
      }
      r := Ok(data);
    }

    method UpdateIv(ciphertext: bytes)
      modifies this`iv
      ensures iv == LastBlock(old(iv), ciphertext)
    {
      if |ciphertext| >= 16 {
        iv := ciphertext[|ciphertext| - 16..];
      }
    }

    method WrapDataBytes(data: bytes) returns (r: Result<bytes>)
      modifies this
      ensures (Value(), r) == WrapData(env, old(Value()), data)
    {
      if state != InSession {
        return Err(InvalidState(NotInSession));
      }
      var encrypted := EncryptPayloadBytes(data);
      r := Ok([ENCRYPTED_DATA] + encrypted);
    }

    method UnwrapDataBytes(packet: bytes) returns (r: Result<bytes>)
      modifies this
      ensures (Value(), r) == UnwrapData(env, old(Value()), packet)
    {
      if packet == [] {
        return Err(InvalidData(EmptyPacket));
      }
      if !IsEncrypted(packet[0]) {
        return Err(InvalidData(ExpectedEncrypted));
      }
      r := DecryptPayloadBytes(packet[1..]);
    }
  }
}
