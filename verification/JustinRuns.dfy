/** The command layer over whole runs: a permission-checked tag store. */
module JustinRuns {
  import opened Bytes
  import opened Justin
  import MobileKey

  /** A command and the secure flag it is processed under. */
  datatype Command = Command(secure: bool, data: bytes)

  function Step(m: Manager, c: Command): (Manager, Result<bytes>) {
    Process(NoopStore(), m.(secureSession := c.secure), c.data)
  }

  /** The manager after some commands, started with a selected key. */
  function After(key: MobileKey.Key, commands: seq<Command>): Manager {
    if commands == [] then NewWithKey(key)
    else Step(After(key, commands[..|commands| - 1]), commands[|commands| - 1]).0
  }

  /** The answer to the last command. */
  function Reply(key: MobileKey.Key, commands: seq<Command>): Result<bytes>
    requires commands != []
  {
    Step(After(key, commands[..|commands| - 1]), commands[|commands| - 1]).1
  }

  predicate Succeeded(r: Result<bytes>) {
    r.Ok? && r.value != [] && r.value[0] == 0x00
  }

  /** The last command is an accepted WRITE_TAG to `id`. */
  predicate WritesLast(key: MobileKey.Key, commands: seq<Command>, id: byte)
    requires commands != []
  {
    var data := commands[|commands| - 1].data;
    |data| >= 3 && data[0] == 0x03 && data[1] == id && Succeeded(Reply(key, commands))
  }

  /** The last command is an accepted CLOSE. */
  predicate ClosesLast(key: MobileKey.Key, commands: seq<Command>)
    requires commands != []
  {
    var data := commands[|commands| - 1].data;
    data != [] && data[0] == 0x01 && Succeeded(Reply(key, commands))
  }

  /** The data of the last accepted write to `id`, from the history alone. */
  function LastWrite(key: MobileKey.Key, commands: seq<Command>, id: byte): Option<bytes> {
    if commands == [] then None
    else if WritesLast(key, commands, id) then Some(commands[|commands| - 1].data[2..])
    else LastWrite(key, commands[..|commands| - 1], id)
  }

  predicate Closed(key: MobileKey.Key, commands: seq<Command>) {
    commands != [] && (ClosesLast(key, commands) || Closed(key, commands[..|commands| - 1]))
  }

  /** What the history says tag `id` holds. */
  function Holds(key: MobileKey.Key, commands: seq<Command>, id: byte): bytes
    requires id in key.tags
  {
    var written := LastWrite(key, commands, id);
    if written.Some? then written.value else key.tags[id].value
  }

  /** The first byte of an audit write. */
  function FirstByte(written: Option<bytes>): Option<byte> {
    if written.Some? && written.value != [] then Some(written.value[0]) else None
  }

  /** The manager's state is the history's. */
  ghost predicate Refines(key: MobileKey.Key, commands: seq<Command>) {
    var m := After(key, commands);
    && m.currentKey.Some?
    && (m.state == Connected <==> !Closed(key, commands))
    && m.lastAuditOpResult == FirstByte(LastWrite(key, commands, 0x0B))
    && var now := m.currentKey.value;
    && now.tag0 == key.tag0 && now.tag1 == key.tag1 && now.knKey == key.knKey
    && now.tags.Keys == key.tags.Keys
    && forall id :: id in key.tags ==>
      now.tags[id] == key.tags[id].(value := Holds(key, commands, id))
  }

  lemma NotAWrite(key: MobileKey.Key, commands: seq<Command>)
    requires commands != [] && Refines(key, commands[..|commands| - 1])
    requires forall id: byte :: !WritesLast(key, commands, id)
    requires var m, m' := After(key, commands[..|commands| - 1]), After(key, commands);
      m' == m.(state := m'.state, secureSession := m'.secureSession, knReadRefusals := m'.knReadRefusals)
      && (m'.state == Connected <==> !Closed(key, commands))
    ensures Refines(key, commands)
  {
    forall id | id in key.tags
      ensures Holds(key, commands, id) == Holds(key, commands[..|commands| - 1], id)
    {
      assert !WritesLast(key, commands, id);
    }
    assert !WritesLast(key, commands, 0x0B);
  }

  lemma AWrite(key: MobileKey.Key, commands: seq<Command>)
    requires commands != [] && Refines(key, commands[..|commands| - 1])
    requires exists id: byte :: WritesLast(key, commands, id)
    ensures Refines(key, commands)
  {
    var before, last := commands[..|commands| - 1], commands[|commands| - 1];
    var id := last.data[1];
    assert WritesLast(key, commands, id);
    var m := After(key, before).(secureSession := last.secure);
    WriteSucceedsExactly(m, last.data[1..]);
    assert last.data[1..][1..] == last.data[2..];
    var now := After(key, commands).currentKey.value;
    forall other | other in key.tags
      ensures now.tags[other] == key.tags[other].(value := Holds(key, commands, other))
    {
      if other != id {
        assert !WritesLast(key, commands, other);
        assert now.tags[other] == m.currentKey.value.tags[other];
      }
    }
    if id != 0x0B {
      assert !WritesLast(key, commands, 0x0B);
    }
    assert !ClosesLast(key, commands);
  }

  /** In every run: the fixed part, the tag set and all permissions never change, and every value is the last write. */
  lemma {:induction false} StoreRefinement(key: MobileKey.Key, commands: seq<Command>)
    ensures Refines(key, commands)
  {
    if commands != [] {
      var before, last := commands[..|commands| - 1], commands[|commands| - 1];
      StoreRefinement(key, before);
      if exists id: byte :: WritesLast(key, commands, id) {
        AWrite(key, commands);
      } else {
        if |last.data| >= 3 {
          assert !WritesLast(key, commands, last.data[1]);
        }
        QuietStep(After(key, before), last);
        NotAWrite(key, commands);
      }
    }
  }

  /** A command that is not an accepted write changes no data, and the state only by an accepted close. */
  lemma QuietStep(m: Manager, c: Command)
    requires m.currentKey.Some?
    requires |c.data| >= 3 && c.data[0] == 0x03 ==> !Succeeded(Step(m, c).1)
    ensures var m' := Step(m, c).0;
      && m' == m.(state := m'.state, secureSession := m'.secureSession, knReadRefusals := m'.knReadRefusals)
      && (m'.state == Connected <==>
        m.state == Connected && !(c.data != [] && c.data[0] == 0x01 && Succeeded(Step(m, c).1)))
  {
  }

  /** Every successful READ_TAG returns the last accepted write to that tag, or the initial value. */
  lemma ReadsLastWrite(key: MobileKey.Key, commands: seq<Command>)
    requires commands != []
    requires var data := commands[|commands| - 1].data; data != [] && data[0] == 0x02
    requires Succeeded(Reply(key, commands))
    ensures var data := commands[|commands| - 1].data;
      && |data| >= 2
      && Reply(key, commands).value == [0x00] + (
        if data[1] == 0x00 then key.tag0
        else if data[1] == 0x01 then key.tag1
        else if data[1] == 0x02 then key.knKey
        else if data[1] in key.tags then Holds(key, commands[..|commands| - 1], data[1])
        else [])
      && (data[1] > 0x02 ==> data[1] in key.tags)
  {
    var before, last := commands[..|commands| - 1], commands[|commands| - 1];
    StoreRefinement(key, before);
    ReadSucceedsExactly(After(key, before).(secureSession := last.secure), last.data[1..]);
  }

  /** The latched audit result is the first byte of the last accepted write to tag 0x0B. */
  lemma {:induction false} AuditLatch(key: MobileKey.Key, commands: seq<Command>)
    ensures After(key, commands).lastAuditOpResult == FirstByte(LastWrite(key, commands, 0x0B))
  {
    StoreRefinement(key, commands);
  }

  /** After an accepted CLOSE no command succeeds, and nothing but the secure flag of the call changes. */
  lemma {:induction false} ClosedForGood(key: MobileKey.Key, commands: seq<Command>, later: seq<Command>)
    requires Closed(key, commands)
    ensures Closed(key, commands + later)
    ensures later != [] ==> !Succeeded(Reply(key, commands + later))
    ensures var m, m' := After(key, commands), After(key, commands + later);
      m' == m.(secureSession := m'.secureSession)
  {
    if later == [] {
      assert commands + later == commands;
    } else {
      var before, all := later[..|later| - 1], commands + later;
      assert all[..|all| - 1] == commands + before;
      ClosedForGood(key, commands, before);
      StoreRefinement(key, commands + before);
      ReadyStep(After(key, commands + before), later[|later| - 1]);
    }
  }

  /** How many times kN was asked for outside a secure session, from the history alone. */
  function KnRefusals(key: MobileKey.Key, commands: seq<Command>): nat {
    if commands == [] then 0
    else
      var before, last := commands[..|commands| - 1], commands[|commands| - 1];
      var asks := |last.data| >= 2 && last.data[0] == 0x02 && last.data[1] == 0x02;
      KnRefusals(key, before) + if asks && !last.secure && !Closed(key, before) then 1 else 0
  }

  /** The count of refused kN reads is the history's. */
  lemma {:induction false} RefusalsCounted(key: MobileKey.Key, commands: seq<Command>)
    ensures After(key, commands).knReadRefusals == KnRefusals(key, commands)
  {
    if commands != [] {
      var before, last := commands[..|commands| - 1], commands[|commands| - 1];
      RefusalsCounted(key, before);
      StoreRefinement(key, before);
      var m := After(key, before).(secureSession := last.secure);
      if last.data != [] {
        ReadCountsRefusals(m, last.data[1..]);
      }
    }
  }

  lemma ReadyStep(m: Manager, c: Command)
    requires m.state == Ready
    ensures !Succeeded(Step(m, c).1) && Step(m, c).0 == m.(secureSession := c.secure)
  {
  }
}
