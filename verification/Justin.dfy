/** The command layer: crates/mkey-core/src/command/justin.rs. */
module Justin {
  import opened Bytes
  import Base62
  import Crc
  import MobileKey

  const OPEN: byte := 0x00
  const CLOSE: byte := 0x01
  const READ_TAG: byte := 0x02
  const WRITE_TAG: byte := 0x03

  const SUCCESS: byte := 0x00
  const GENERIC_ERROR: byte := 0x01
  const NOT_FOUND: byte := 0x02

  const TAG_AUDIT: byte := 0x0B
  const TAG_KN_KEY: byte := 0x02

  datatype State = Ready | Connected

  /** Where OPEN looks keys up. */
  type KeyStore = string -> Option<MobileKey.Key>

  /** The store that never resolves a key: in the v0200 flow the key is already selected. */
  function NoopStore(): KeyStore {
    _ => None
  }

  /** The manager's fields as a value. */
  datatype Manager = Manager(
    state: State,
    currentKey: Option<MobileKey.Key>,
    secureSession: bool,
    lastAuditOpResult: Option<byte>,
    knReadRefusals: nat)

  function NewWithKey(key: MobileKey.Key): Manager {
    Manager(Connected, Some(key), false, None, 0)
  }

  /** `base62(key id, checksum)`, the name under which OPEN looks a key up. */
  function KeyIdentifier(keyId: bytes): string
    requires |keyId| >= 8
  {
    Base62.Encode(keyId[..8] + Crc.Crc16Hasher(keyId))
  }

  /** Tags 0x00 to 0x02: no permission checks, never writable. */
  predicate IsLegacyTag(id: byte) {
    id <= 0x02
  }

  predicate RefusesKnKey(m: Manager, id: byte) {
    id == TAG_KN_KEY && !m.secureSession
  }

  predicate CanRead(m: Manager, id: byte, permissions: byte) {
    if RefusesKnKey(m, id) then false
    else if IsLegacyTag(id) then true
    else if !MobileKey.Contains(permissions, MobileKey.READABLE) then false
    else if m.secureSession then true
    else MobileKey.Contains(permissions, MobileKey.READ_WITHOUT_SECURITY)
  }

  predicate CanWrite(m: Manager, id: byte, permissions: byte) {
    if IsLegacyTag(id) then false
    else if id == TAG_AUDIT then true
    else if !MobileKey.Contains(permissions, MobileKey.WRITABLE) then false
    else if m.secureSession then true
    else MobileKey.Contains(permissions, MobileKey.WRITE_WITHOUT_SECURITY)
  }

  function Open(store: KeyStore, m: Manager, payload: bytes): (Manager, bytes) {
    if m.state == Connected then (m, [GENERIC_ERROR])
    else if |payload| < 8 then (m, [GENERIC_ERROR])
    else
      var key := store(KeyIdentifier(payload[..8]));
      if key.Some? then (m.(currentKey := key, state := Connected), [SUCCESS]) else (m, [NOT_FOUND])
  }

  function Close(m: Manager): (Manager, bytes) {
    if m.state != Connected then (m, [GENERIC_ERROR]) else (m.(state := Ready), [SUCCESS])
  }

  function ReadTag(m: Manager, payload: bytes): (Manager, bytes) {
    if m.state != Connected || payload == [] || m.currentKey.None? then (m, [GENERIC_ERROR])
    else
      var id := payload[0];
      var tag := m.currentKey.value.GetTag(id);
      if tag.None? then (m, [NOT_FOUND])
      else if RefusesKnKey(m, id) then (m.(knReadRefusals := m.knReadRefusals + 1), [GENERIC_ERROR])
      else if !CanRead(m, id, tag.value.permissions) then
        (m, if MobileKey.Contains(tag.value.permissions, MobileKey.READABLE) then [GENERIC_ERROR] else [NOT_FOUND])
      else (m, [SUCCESS] + tag.value.data)
  }

  function WriteTag(m: Manager, payload: bytes): (Manager, bytes) {
    if m.state != Connected || |payload| < 2 || IsLegacyTag(payload[0]) || m.currentKey.None? then (m, [GENERIC_ERROR])
    else
      var id, data := payload[0], payload[1..];
      var tag := m.currentKey.value.GetTag(id);
      if tag.None? then (m, [NOT_FOUND])
      else if !CanWrite(m, id, tag.value.permissions) then
        (m, if MobileKey.Contains(tag.value.permissions, MobileKey.WRITABLE) then [GENERIC_ERROR] else [NOT_FOUND])
      else
        var m' := m.(currentKey := Some(m.currentKey.value.SetTagData(id, data)));
        (if id == TAG_AUDIT then m'.(lastAuditOpResult := Some(data[0])) else m', [SUCCESS])
  }

  function Process(store: KeyStore, m: Manager, data: bytes): (Manager, Result<bytes>) {
    if data == [] then (m, Err(InvalidData(EmptyCommand)))
    else if data[0] > WRITE_TAG then (m, Err(InvalidData(UnknownCommand)))
    else
      var (m', reply) :=
        if data[0] == OPEN then Open(store, m, data[1..])
        else if data[0] == CLOSE then Close(m)
        else if data[0] == READ_TAG then ReadTag(m, data[1..])
        else WriteTag(m, data[1..]);
      (m', Ok(reply))
  }

  // ---------------------------------------------------------------- the code

  /** `compute_key_identifier`. */
  method ComputeKeyIdentifier(keyId: bytes) returns (r: string)
    requires |keyId| >= 8
    ensures r == KeyIdentifier(keyId)
  {
    var hash := Crc.Crc16HasherTable(keyId);
    var input := keyId[..8] + [hash[0]];
    input := input + [hash[|hash| - 1]];
    assert input == keyId[..8] + hash;
    r := Base62.EncodeBase62(input);
  }

  class JustinProtocolManager {
    var state: State
    const store: KeyStore
    var currentKey: Option<MobileKey.Key>
    var secureSession: bool
    var lastAuditOpResult: Option<byte>
    var knReadRefusals: nat

    ghost function Value(): Manager
      reads this
    {
      Manager(state, currentKey, secureSession, lastAuditOpResult, knReadRefusals)
    }

    constructor (store: KeyStore)
      ensures Value() == Manager(Ready, None, false, None, 0) && this.store == store
    {
      this.state, this.store, this.currentKey := Ready, store, None;
      this.secureSession, this.lastAuditOpResult, this.knReadRefusals := false, None, 0;
    }

    constructor WithKey(key: MobileKey.Key)
      ensures Value() == NewWithKey(key) && this.store == NoopStore()
    {
      this.state, this.store, this.currentKey := Connected, NoopStore(), Some(key);
      this.secureSession, this.lastAuditOpResult, this.knReadRefusals := false, None, 0;
    }

    method SetSecureSession(secure: bool)
      modifies this
      ensures Value() == old(Value()).(secureSession := secure)
    {
      secureSession := secure;
    }

    method ProcessCommand(data: bytes) returns (r: Result<bytes>)
      modifies this
      ensures (Value(), r) == Process(store, old(Value()), data)
    {
      if data == [] {
        return Err(InvalidData(EmptyCommand));
      }
      var reply: bytes;
      if data[0] == OPEN {
        reply := HandleOpen(data[1..]);
      } else if data[0] == CLOSE {
        reply := HandleClose();
      } else if data[0] == READ_TAG {
        reply := HandleReadTag(data[1..]);
      } else if data[0] == WRITE_TAG {
        reply := HandleWriteTag(data[1..]);
      } else {
        return Err(InvalidData(UnknownCommand));
      }
      r := Ok(reply);
    }

    method HandleOpen(payload: bytes) returns (reply: bytes)
      modifies this
      ensures (Value(), reply) == Open(store, old(Value()), payload)
    {
      if state == Connected {
        return [GENERIC_ERROR];
      }
      if |payload| < 8 {
        return [GENERIC_ERROR];
      }
      var identifier := ComputeKeyIdentifier(payload[..8]);
      var key := store(identifier);
      if key.None? {
        return [NOT_FOUND];
      }
      currentKey := key;
      state := Connected;
      reply := [SUCCESS];
    }

    method HandleClose() returns (reply: bytes)
      modifies this
      ensures (Value(), reply) == Close(old(Value()))
    {
      if state != Connected {
        return [GENERIC_ERROR];
      }
      state := Ready;
      reply := [SUCCESS];
    }

    method HandleReadTag(payload: bytes) returns (reply: bytes)
      modifies this
      ensures (Value(), reply) == ReadTag(old(Value()), payload)
    {
      if state != Connected {
        return [GENERIC_ERROR];
      }
      if payload == [] {
        return [GENERIC_ERROR];
      }
      if currentKey.None? {
        return [GENERIC_ERROR];
      }
      var id := payload[0];
      var tag := currentKey.value.GetTag(id);
      if tag.None? {
        return [NOT_FOUND];
      }
      if RefusesKn(id) {
        knReadRefusals := knReadRefusals + 1;
        return [GENERIC_ERROR];
      }
      if !CanReadTag(id, tag.value.permissions) {
        if !MobileKey.Contains(tag.value.permissions, MobileKey.READABLE) {
          return [NOT_FOUND];
        }
        return [GENERIC_ERROR];
      }
      reply := [SUCCESS];
      reply := reply + tag.value.data;
    }

    method HandleWriteTag(payload: bytes) returns (reply: bytes)
      modifies this
      ensures (Value(), reply) == WriteTag(old(Value()), payload)
    {
      if state != Connected {
        return [GENERIC_ERROR];
      }
      if |payload| < 2 {
        return [GENERIC_ERROR];
      }
      var id, data := payload[0], payload[1..];
      if IsLegacyTag(id) {
        return [GENERIC_ERROR];
      }
      if currentKey.None? {
        return [GENERIC_ERROR];
      }
      var tag := currentKey.value.GetTag(id);
      if tag.None? {
        return [NOT_FOUND];
      }
      if !CanWriteTag(id, tag.value.permissions) {
        if !MobileKey.Contains(tag.value.permissions, MobileKey.WRITABLE) {
          return [NOT_FOUND];
        }
        return [GENERIC_ERROR];
      }
      currentKey := Some(currentKey.value.SetTagData(id, data));
      if id == TAG_AUDIT && data != [] {
        lastAuditOpResult := Some(data[0]);
      }
      reply := [SUCCESS];
    }

    function RefusesKn(id: byte): (r: bool)
      reads this
      ensures r == RefusesKnKey(Value(), id)
    {
      id == TAG_KN_KEY && !secureSession
    }

    function CanReadTag(id: byte, permissions: byte): (r: bool)
      reads this
      ensures r == CanRead(Value(), id, permissions)
    {
      if RefusesKn(id) then false
      else if IsLegacyTag(id) then true
      else if !MobileKey.Contains(permissions, MobileKey.READABLE) then false
      else if secureSession then true
      else MobileKey.Contains(permissions, MobileKey.READ_WITHOUT_SECURITY)
    }

    function CanWriteTag(id: byte, permissions: byte): (r: bool)
      reads this
      ensures r == CanWrite(Value(), id, permissions)
    {
      if IsLegacyTag(id) then false
      else if id == TAG_AUDIT then true
      else if !MobileKey.Contains(permissions, MobileKey.WRITABLE) then false
      else if secureSession then true
      else MobileKey.Contains(permissions, MobileKey.WRITE_WITHOUT_SECURITY)
    }
  }

  // ------------------------------------------------- key identifiers

  /** Different 8-byte key ids have different identifiers. */
  lemma KeyIdentifierInjective(a: bytes, b: bytes)
    requires |a| == |b| == 8 && KeyIdentifier(a) == KeyIdentifier(b)
    ensures a == b
  {
    var x, y := a[..8] + Crc.Crc16Hasher(a), b[..8] + Crc.Crc16Hasher(b);
    Base62.EncodeInjective(x, y);
    assert a == x[..8] && b == y[..8];
  }

  // ------------------------------------------------- the permission rules

  // Permission bytes are read digit by digit here: 4 readable, 8 writable, 16 and 32 the same without security.

  /** Exactly when READ_TAG succeeds, and with what; and which status every other read gets. */
  lemma ReadSucceedsExactly(m: Manager, payload: bytes)
    ensures var reply := ReadTag(m, payload).1;
      reply != []
      && (reply[0] == 0x00 <==>
        && m.state == Connected && payload != [] && m.currentKey.Some?
        && var key, id := m.currentKey.value, payload[0];
        || id <= 0x01
        || (id == 0x02 && m.secureSession)
        || (id > 0x02 && id in key.tags
            && key.tags[id].permissions / 4 % 2 == 1
            && (m.secureSession || key.tags[id].permissions / 16 % 2 == 1)))
      && (reply[0] == 0x00 ==>
        var key, id := m.currentKey.value, payload[0];
        reply[1..] ==
          if id == 0x00 then key.tag0 else if id == 0x01 then key.tag1 else if id == 0x02 then key.knKey
          else key.tags[id].value)
      && (reply == [0x02] <==>
        && m.state == Connected && payload != [] && m.currentKey.Some?
        && var key, id := m.currentKey.value, payload[0];
        id > 0x02 && (id in key.tags ==> key.tags[id].permissions / 4 % 2 == 0))
      && (reply[0] != 0x00 ==> reply == [0x02] || reply == [0x01])
  {
    hide MobileKey.Contains;
    if payload != [] && m.currentKey.Some? && payload[0] in m.currentKey.value.tags {
      MobileKey.FlagDigits(m.currentKey.value.tags[payload[0]].permissions);
    }
    MobileKey.FlagDigits(0x04);
  }

  /** A refused kN read is counted, and nothing else about a read changes the manager. */
  lemma ReadCountsRefusals(m: Manager, payload: bytes)
    ensures ReadTag(m, payload).0 == m.(knReadRefusals := m.knReadRefusals +
      if m.state == Connected && m.currentKey.Some? && payload != [] && payload[0] == 0x02 && !m.secureSession
      then 1 else 0)
  {
  }

  /** Exactly when WRITE_TAG succeeds: an existing, non-legacy tag that is the audit tag or permits it. */
  lemma WriteSucceedsExactly(m: Manager, payload: bytes)
    ensures WriteTag(m, payload).1 == [0x00] <==>
        && m.state == Connected && |payload| >= 2 && m.currentKey.Some?
        && var key, id := m.currentKey.value, payload[0];
        && id > 0x02 && id in key.tags
        && (|| id == 0x0B
            || (&& key.tags[id].permissions / 8 % 2 == 1
                && (m.secureSession || key.tags[id].permissions / 32 % 2 == 1)))
    ensures WriteTag(m, payload).1 == [0x02] <==>
        && m.state == Connected && |payload| >= 2 && m.currentKey.Some?
        && var key, id := m.currentKey.value, payload[0];
        && id > 0x02
        && (id in key.tags ==> id != 0x0B && key.tags[id].permissions / 8 % 2 == 0)
    ensures WriteTag(m, payload).1 == [0x00] || WriteTag(m, payload).1 == [0x01] || WriteTag(m, payload).1 == [0x02]
  {
    hide MobileKey.Contains;
    if payload != [] && m.currentKey.Some? && payload[0] in m.currentKey.value.tags {
      MobileKey.FlagDigits(m.currentKey.value.tags[payload[0]].permissions);
    }
    MobileKey.FlagDigits(0x04);
  }

  /** A write changes the tag it names, when it succeeds, and the audit result, when that tag is the audit tag. */
  lemma WriteChangesExactly(m: Manager, payload: bytes)
    ensures var (m', reply) := WriteTag(m, payload);
      if reply != [0x00] then m' == m
      else
        && |payload| >= 2 && m.currentKey.Some?
        && m' == m.(currentKey := Some(m.currentKey.value.SetTagData(payload[0], payload[1..])),
                    lastAuditOpResult := if payload[0] == 0x0B then Some(payload[1]) else m.lastAuditOpResult)
  {
  }

  // ------------------------------------------------- opening and closing, and the opcodes

  /** OPEN looks a key up by the base-62 number of its id followed by the id's checksum, and only when not connected. */
  lemma OpenExactly(store: KeyStore, m: Manager, payload: bytes)
    ensures var (m', reply) := Process(store, m, [0x00] + payload);
      if m.state == Connected || |payload| < 8 then m' == m && reply == Ok([0x01])
      else
        exists name: string ::
          && Base62.Decode(name) == Base62.BigEndian(payload[..8] + Crc.Crc16Hasher(payload[..8]))
          && (Base62.BigEndian(payload[..8] + Crc.Crc16Hasher(payload[..8])) > 0 ==> name != "" && name[0] != '0')
          && (store(name).Some? ==>
            m' == m.(currentKey := store(name), state := Connected) && reply == Ok([0x00]))
          && (store(name).None? ==> m' == m && reply == Ok([0x02]))
  {
    hide Base62.Encode, Base62.Decode, Base62.BigEndian, Crc.Crc16Hasher;
    assert ([0x00] + payload)[1..] == payload;
    if m.state == Ready && |payload| >= 8 {
      var id := payload[..8];
      assert id[..8] == id;
      Base62.DecodeEncode(id + Crc.Crc16Hasher(id));
      assert KeyIdentifier(id) == Base62.Encode(id + Crc.Crc16Hasher(id));
    }
  }

  /** The other opcodes, and everything that is none. */
  lemma CommandsExactly(store: KeyStore, m: Manager, payload: bytes)
    ensures Process(store, m, [0x01] + payload)
      == if m.state == Connected then (m.(state := Ready), Ok([0x00])) else (m, Ok([0x01]))
    ensures Process(store, m, [0x02] + payload) == (ReadTag(m, payload).0, Ok(ReadTag(m, payload).1))
    ensures Process(store, m, [0x03] + payload) == (WriteTag(m, payload).0, Ok(WriteTag(m, payload).1))
    ensures Process(store, m, []) == (m, Err(InvalidData(EmptyCommand)))
    ensures forall opcode: byte :: opcode > 0x03 ==>
      Process(store, m, [opcode] + payload) == (m, Err(InvalidData(UnknownCommand)))
  {
    hide ReadTag, WriteTag, Open;
    assert ([0x01] + payload)[1..] == payload && ([0x02] + payload)[1..] == payload;
    assert ([0x03] + payload)[1..] == payload;
  }
}
