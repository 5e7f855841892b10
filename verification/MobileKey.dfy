/** The mobile key and its byte form: crates/mkey-core/src/data/mobile_key.rs. */
module MobileKey {
  import opened Bytes
  import Tlv

  const WRITE_WITHOUT_SECURITY: byte := 0x20
  const READ_WITHOUT_SECURITY: byte := 0x10
  const WRITABLE: byte := 0x08
  const READABLE: byte := 0x04

  const DEPRECATED_AUDIT: byte := 0x0A
  const AUDIT: byte := 0x0B
  const OPENING_MODE: byte := 0x10

  /** `contains`: any common bit, not a subset. */
  predicate Contains(permissions: byte, flag: byte) {
    And(permissions, flag) != 0
  }

  /** The four permissions that matter, as digits of the permission byte. */
  lemma FlagDigits(p: byte)
    ensures Contains(p, READABLE) <==> p / 4 % 2 == 1
    ensures Contains(p, WRITABLE) <==> p / 8 % 2 == 1
    ensures Contains(p, READ_WITHOUT_SECURITY) <==> p / 16 % 2 == 1
    ensures Contains(p, WRITE_WITHOUT_SECURITY) <==> p / 32 % 2 == 1
  {
    hide And;
    FlagDigit(p, 0x02, 2, 1);
    FlagDigit(p, 0x04, 4, 2);
    FlagDigit(p, 0x08, 8, 4);
    FlagDigit(p, 0x10, 16, 8);
    FlagDigit(p, 0x20, 32, 16);
  }

  lemma {:induction false} FlagDigit(p: nat, flag: nat, power: nat, half: nat)
    requires flag == power == 2 * half && power in {2, 4, 8, 16, 32}
    ensures And(p, flag) != 0 <==> p / power % 2 == 1
    decreases power
  {
    hide And;
    AndDouble(p, half);
    if half == 1 {
      AndOne(p / 2);
    } else {
      FlagDigit(p / 2, half, half, half / 2);
      assert p / 2 / half == p / power;
    }
  }

  datatype Tag = Tag(id: byte, permissions: byte, value: bytes)

  datatype TagData = TagData(permissions: byte, data: bytes)

  datatype Key = Key(tag0: bytes, tag1: bytes, knKey: Block, tags: map<byte, Tag>) {

    function GetTag(id: byte): Option<TagData> {
      if id == 0x00 then Some(TagData(READABLE, tag0))
      else if id == 0x01 then Some(TagData(READABLE, tag1))
      else if id == 0x02 then Some(TagData(READABLE, knKey))
      else if id in tags then Some(TagData(tags[id].permissions, tags[id].value))
      else None
    }

    function SetTagData(id: byte, data: bytes): Key {
      var tag := if id in tags then tags[id].(value := data) else Tag(id, READABLE + WRITABLE, data);
      this.(tags := tags[id := tag])
    }
  }

  /** Which tags there are: the three fixed ones, readable and nothing else, and the ones in the map. */
  lemma GetTagExactly(key: Key, id: byte)
    ensures key.GetTag(id) ==
      if id == 0x00 then Some(TagData(0x04, key.tag0))
      else if id == 0x01 then Some(TagData(0x04, key.tag1))
      else if id == 0x02 then Some(TagData(0x04, key.knKey))
      else if id in key.tags then Some(TagData(key.tags[id].permissions, key.tags[id].value))
      else None
  {
  }

  /** Setting a tag replaces its value and keeps its permissions; a new tag is readable and writable; no other moves. */
  lemma SetTagDataExactly(key: Key, id: byte, data: bytes)
    ensures var now := key.SetTagData(id, data);
      && now.tags.Keys == key.tags.Keys + {id}
      && now.tags[id].value == data
      && now.tags[id].permissions == (if id in key.tags then key.tags[id].permissions else 0x0C)
      && (forall other :: other in key.tags && other != id ==> now.tags[other] == key.tags[other])
      && now.tag0 == key.tag0 && now.tag1 == key.tag1 && now.knKey == key.knKey
  {
  }

  /** Tags that never go on the wire. */
  predicate IsSystem(id: byte) {
    id == DEPRECATED_AUDIT || id == AUDIT || id == OPENING_MODE
  }

  // ---------------------------------------------------------------- encoding

  /** The contents of one 0x03 container: permissions, then the tag itself. */
  function ContainerValue(tag: Tag): bytes {
    [tag.permissions] + Tlv.Encode(tag.id, tag.value)
  }

  function FixedItems(key: Key): seq<Tlv.Item> {
    [Tlv.Item(0x00, key.tag0), Tlv.Item(0x01, key.tag1), Tlv.Item(0x02, key.knKey)]
  }

  /** The three fixed tags, then one 0x03 container per listed tag, system tags skipped. */
  function Items(key: Key, order: seq<byte>): seq<Tlv.Item>
    requires forall id :: id in order ==> id in key.tags
  {
    if order == [] then FixedItems(key)
    else
      var last := key.tags[order[|order| - 1]];
      Items(key, order[..|order| - 1])
      + (if IsSystem(last.id) then [] else [Tlv.Item(0x03, ContainerValue(last))])
  }

  /** `order` is a way to iterate over the tag map. */
  ghost predicate Enumerates(order: seq<byte>, tags: map<byte, Tag>) {
    && (forall id :: id in order <==> id in tags)
    && (forall i, j :: 0 <= i < j < |order| ==> order[i] != order[j])
  }

  /** The byte form of a key, for one iteration order of the hash map. */
  function Serialized(key: Key, order: seq<byte>): bytes
    requires forall id :: id in order ==> id in key.tags
  {
    Tlv.EncodeAll(Items(key, order))
  }

  lemma PushItem(items: seq<Tlv.Item>, item: Tlv.Item)
    ensures Tlv.EncodeAll(items + [item]) == Tlv.EncodeAll(items) + Tlv.Encode(item.number, item.value)
  {
    assert (items + [item])[..|items|] == items;
  }

  lemma FixedSerialized(key: Key)
    ensures Serialized(key, [])
      == Tlv.Encode(0x00, key.tag0) + Tlv.Encode(0x01, key.tag1) + Tlv.Encode(0x02, key.knKey)
  {
    var a, b, c := Tlv.Item(0x00, key.tag0), Tlv.Item(0x01, key.tag1), Tlv.Item(0x02, key.knKey);
    assert FixedItems(key) == (([] + [a]) + [b]) + [c];
    PushItem([], a);
    PushItem([] + [a], b);
    PushItem(([] + [a]) + [b], c);
  }

  lemma NextContainer(key: Key, order: seq<byte>, i: nat)
    requires i < |order| && forall id :: id in order ==> id in key.tags
    ensures var tag := key.tags[order[i]];
      Serialized(key, order[..i + 1])
      == if IsSystem(tag.id) then Serialized(key, order[..i])
         else Serialized(key, order[..i]) + Tlv.Encode(0x03, ContainerValue(tag))
  {
    assert order[..i + 1][..i] == order[..i];
    assert Items(key, order[..i]) + [] == Items(key, order[..i]);
    PushItem(Items(key, order[..i]), Tlv.Item(0x03, ContainerValue(key.tags[order[i]])));
  }

  /** `to_bytes`, for one iteration order of the hash map. */
  method ToBytes(key: Key, order: seq<byte>) returns (r: bytes)
    requires Enumerates(order, key.tags)
    ensures r == Serialized(key, order)
  {
    r := PushFixed(key);
    for i := 0 to |order|
      invariant r == Serialized(key, order[..i])
    {
      var tag := key.tags[order[i]];
      NextContainer(key, order, i);
      if IsSystem(tag.id) {
        continue;
      }
      r := PushContainer(r, tag);
    }
    assert order[..|order|] == order;
  }

  method PushFixed(key: Key) returns (r: bytes)
    ensures r == Serialized(key, [])
  {
    r := Tlv.EncodeTlv([], 0x00, key.tag0);
    r := Tlv.EncodeTlv(r, 0x01, key.tag1);
    r := Tlv.EncodeTlv(r, 0x02, key.knKey);
    FixedSerialized(key);
  }

  method PushContainer(result: bytes, tag: Tag) returns (r: bytes)
    ensures r == result + Tlv.Encode(0x03, ContainerValue(tag))
  {
    var container := [tag.permissions];
    container := Tlv.EncodeTlv(container, tag.id, tag.value);
    r := Tlv.EncodeTlv(result, 0x03, container);
  }

  // ---------------------------------------------------------------- parsing

  /** What the parsing loop has found so far. */
  datatype Found = Found(tag0: Option<bytes>, tag1: Option<bytes>, knKey: Option<Block>, tags: map<byte, Tag>)

  const NOTHING := Found(None, None, None, map[])

  /** The inner tags of a container, later ones winning. */
  function Inner(tags: map<byte, Tag>, permissions: byte, nodes: seq<Tlv.Node>): map<byte, Tag> {
    if nodes == [] then tags
    else
      var before := Inner(tags, permissions, nodes[..|nodes| - 1]);
      var node := nodes[|nodes| - 1];
      if node.Primitive() then
        var id := node.tag[0] % 32;
        before[id := Tag(id, permissions, node.value)]
      else before
  }

  function Absorb(f: Found, node: Tlv.Node): Result<Found> {
    if !node.Primitive() then Ok(f)
    else
      var number, value := node.tag[0] % 32, node.value;
      if number == 0x00 then Ok(f.(tag0 := Some(value)))
      else if number == 0x01 then Ok(f.(tag1 := Some(value)))
      else if number == 0x02 then
        if |value| != 16 then Err(InvalidKeyLength(|value|)) else Ok(f.(knKey := Some(value)))
      else if number == 0x03 && value != [] then
        Ok(f.(tags := Inner(f.tags, value[0], Tlv.ReadAll(value[1..]))))
      else Ok(f)
  }

  function AbsorbAll(f: Found, nodes: seq<Tlv.Node>): Result<Found> {
    if nodes == [] then Ok(f)
    else
      var before := AbsorbAll(f, nodes[..|nodes| - 1]);
      if before.Err? then before else Absorb(before.value, nodes[|nodes| - 1])
  }

  /** `entry(id).or_insert(...)` with the writable, empty system tag. */
  function Materialise(tags: map<byte, Tag>, id: byte): map<byte, Tag> {
    if id in tags then tags else tags[id := Tag(id, WRITABLE + WRITE_WITHOUT_SECURITY, [])]
  }

  function Complete(f: Found): Result<Key> {
    if f.tag0.None? then Err(MissingTag(0x00))
    else if f.tag1.None? then Err(MissingTag(0x01))
    else if f.knKey.None? then Err(MissingTag(0x02))
    else Ok(Key(f.tag0.value, f.tag1.value, f.knKey.value, Materialise(Materialise(f.tags, DEPRECATED_AUDIT), AUDIT)))
  }

  /** What `from_bytes` returns. */
  function Parse(data: bytes): Result<Key> {
    var found := AbsorbAll(NOTHING, Tlv.ReadAll(data));
    if found.Err? then Err(found.error) else Complete(found.value)
  }

  /** `from_bytes`: one pass over the top-level encodings, one over each container. */
  method FromBytes(data: bytes) returns (r: Result<Key>)
    ensures r == Parse(data)
  {
    var nodes := Tlv.ReadAll(data);
    var tag0: Option<bytes>, tag1: Option<bytes>, knKey: Option<Block> := None, None, None;
    var tags: map<byte, Tag> := map[];
    for i := 0 to |nodes|
      invariant AbsorbAll(NOTHING, nodes[..i]) == Ok(Found(tag0, tag1, knKey, tags))
    {
      assert nodes[..i + 1][..i] == nodes[..i];
      ErrorStays(NOTHING, nodes, i + 1);
      if !nodes[i].Primitive() {
        continue;
      }
      var number, value := nodes[i].tag[0] % 32, nodes[i].value;
      if number == 0x00 {
        tag0 := Some(value);
      } else if number == 0x01 {
        tag1 := Some(value);
      } else if number == 0x02 {
        if |value| != 16 {
          return Err(InvalidKeyLength(|value|));
        }
        knKey := Some(value);
      } else if number == 0x03 {
        if value == [] {
          continue;
        }
        tags := InsertInner(tags, value[0], Tlv.ReadAll(value[1..]));
      }
    }
    assert nodes[..|nodes|] == nodes;
    if DEPRECATED_AUDIT !in tags {
      tags := tags[DEPRECATED_AUDIT := Tag(DEPRECATED_AUDIT, WRITABLE + WRITE_WITHOUT_SECURITY, [])];
    }
    if AUDIT !in tags {
      tags := tags[AUDIT := Tag(AUDIT, WRITABLE + WRITE_WITHOUT_SECURITY, [])];
    }
    if tag0.None? {
      return Err(MissingTag(0x00));
    }
    if tag1.None? {
      return Err(MissingTag(0x01));
    }
    if knKey.None? {
      return Err(MissingTag(0x02));
    }
    r := Ok(Key(tag0.value, tag1.value, knKey.value, tags));
  }

  method InsertInner(before: map<byte, Tag>, permissions: byte, nodes: seq<Tlv.Node>) returns (tags: map<byte, Tag>)
    ensures tags == Inner(before, permissions, nodes)
  {
    tags := before;
    for i := 0 to |nodes|
      invariant tags == Inner(before, permissions, nodes[..i])
    {
      assert nodes[..i + 1][..i] == nodes[..i];
      if nodes[i].Primitive() {
        var id := nodes[i].tag[0] % 32;
        tags := tags[id := Tag(id, permissions, nodes[i].value)];
      }
    }
    assert nodes[..|nodes|] == nodes;
  }

  /** An error in a prefix is the error of the whole. */
  lemma {:induction false} ErrorStays(f: Found, nodes: seq<Tlv.Node>, i: nat)
    requires i <= |nodes|
    ensures AbsorbAll(f, nodes[..i]).Err? ==> AbsorbAll(f, nodes) == AbsorbAll(f, nodes[..i])
    decreases |nodes|
  {
    if i == |nodes| {
      assert nodes[..i] == nodes;
    } else {
      var n := |nodes| - 1;
      assert nodes[..n][..i] == nodes[..i];
      ErrorStays(f, nodes[..n], i);
    }
  }

  // ---------------------------------------------------------------- round trip

  // The round trip is stated without the codec's own vocabulary: ids and permissions are written out.

  /** Tags that a key's bytes carry: all but the two audit tags and the opening mode. */
  predicate OnWire(id: byte) {
    id != 0x0A && id != 0x0B && id != 0x10
  }

  /** Map ids match tag ids, and every length fits the three length octets the encoder has. */
  ghost predicate WellFormed(key: Key) {
    && |key.tag0| < Tlv.MAX_LENGTH
    && |key.tag1| < Tlv.MAX_LENGTH
    && forall id :: id in key.tags ==>
      && key.tags[id].id == id
      && (OnWire(id) ==> |ContainerValue(key.tags[id])| < Tlv.MAX_LENGTH)
  }

  /**
   * What a round trip leaves: every tag on the wire as it was, no opening mode, and the two audit tags made again,
   * writable with and without security, unreadable and empty.
   */
  function Normalized(key: Key): Key {
    var kept := map id | id in key.tags && OnWire(id) :: key.tags[id];
    key.(tags := kept[0x0A := Tag(0x0A, 0x28, [])][0x0B := Tag(0x0B, 0x28, [])])
  }

  /** Every tag that is written has a number that fits one identifier octet. */
  ghost predicate ShortNumbers(key: Key) {
    forall id :: id in key.tags && OnWire(id) ==> id <= 0x1E
  }

  /** The tags the containers of `order` parse to. */
  function ContainerTags(key: Key, order: seq<byte>): map<byte, Tag>
    requires forall id :: id in order ==> id in key.tags
  {
    if order == [] then map[]
    else
      var before := ContainerTags(key, order[..|order| - 1]);
      var last := key.tags[order[|order| - 1]];
      if IsSystem(last.id) then before
      else Inner(before, last.permissions, Tlv.ReadAll(Tlv.Encode(last.id, last.value)))
  }

  /** The fixed part of a key, as the loop has it after the first three encodings. */
  function FixedPart(key: Key, tags: map<byte, Tag>): Found {
    Found(Some(key.tag0), Some(key.tag1), Some(key.knKey), tags)
  }

  lemma AbsorbOne(f: Found, items: seq<Tlv.Item>, item: Tlv.Item)
    requires AbsorbAll(f, Tlv.NodesOf(items)).Ok?
    ensures AbsorbAll(f, Tlv.NodesOf(items + [item]))
         == Absorb(AbsorbAll(f, Tlv.NodesOf(items)).value, Tlv.NodeOf(item))
  {
    assert Tlv.NodesOf(items + [item])[..|items|] == Tlv.NodesOf(items);
  }

  lemma AbsorbFixed(key: Key)
    ensures AbsorbAll(NOTHING, Tlv.NodesOf(FixedItems(key))) == Ok(FixedPart(key, map[]))
  {
    var a, b, c := Tlv.Item(0x00, key.tag0), Tlv.Item(0x01, key.tag1), Tlv.Item(0x02, key.knKey);
    assert FixedItems(key) == (([] + [a]) + [b]) + [c];
    assert Tlv.NodesOf([]) == [];
    AbsorbOne(NOTHING, [], a);
    AbsorbOne(NOTHING, [] + [a], b);
    AbsorbOne(NOTHING, ([] + [a]) + [b], c);
  }

  lemma AbsorbContainer(f: Found, tag: Tag)
    ensures Absorb(f, Tlv.NodeOf(Tlv.Item(0x03, ContainerValue(tag))))
      == Ok(f.(tags := Inner(f.tags, tag.permissions, Tlv.ReadAll(Tlv.Encode(tag.id, tag.value)))))
  {
    var value := ContainerValue(tag);
    assert value[0] == tag.permissions && value[1..] == Tlv.Encode(tag.id, tag.value);
    AbsorbValue(f, value);
  }

  lemma AbsorbValue(f: Found, value: bytes)
    requires value != []
    ensures Absorb(f, Tlv.NodeOf(Tlv.Item(0x03, value)))
         == Ok(f.(tags := Inner(f.tags, value[0], Tlv.ReadAll(value[1..]))))
  {
    hide Inner, Tlv.ReadAll;
  }

  lemma {:induction false} AbsorbItems(key: Key, order: seq<byte>)
    requires forall id :: id in order ==> id in key.tags
    ensures AbsorbAll(NOTHING, Tlv.NodesOf(Items(key, order))) == Ok(FixedPart(key, ContainerTags(key, order)))
  {
    if order == [] {
      AbsorbFixed(key);
    } else {
      var before, last := order[..|order| - 1], key.tags[order[|order| - 1]];
      AbsorbItems(key, before);
      if IsSystem(last.id) {
        assert Items(key, order) == Items(key, before);
      } else {
        AbsorbOne(NOTHING, Items(key, before), Tlv.Item(0x03, ContainerValue(last)));
        AbsorbContainer(FixedPart(key, ContainerTags(key, before)), last);
      }
    }
  }

  lemma {:induction false} ItemsReadable(key: Key, order: seq<byte>)
    requires WellFormed(key) && forall id :: id in order ==> id in key.tags
    ensures Tlv.AllReadable(Items(key, order))
  {
    if order != [] {
      ItemsReadable(key, order[..|order| - 1]);
    }
  }

  /** Parsing always succeeds and gives the fixed part back; only the tag map can differ. */
  lemma ParseSerialized(key: Key, order: seq<byte>)
    requires WellFormed(key) && forall id :: id in order ==> id in key.tags
    ensures Parse(Serialized(key, order))
      == Ok(key.(tags := Materialise(Materialise(ContainerTags(key, order), DEPRECATED_AUDIT), AUDIT)))
  {
    ItemsReadable(key, order);
    Tlv.ReadBack(Items(key, order));
    AbsorbItems(key, order);
  }

  lemma InnerOne(tags: map<byte, Tag>, tag: Tag)
    requires tag.id <= 0x1E && |tag.value| < Tlv.MAX_LENGTH
    ensures Inner(tags, tag.permissions, Tlv.ReadAll(Tlv.Encode(tag.id, tag.value))) == tags[tag.id := tag]
  {
    var item := Tlv.Item(tag.id, tag.value);
    assert [item][..0] == [];
    assert Tlv.EncodeAll([item]) == Tlv.Encode(tag.id, tag.value);
    Tlv.ReadBack([item]);
    InnerNode(tags, tag);
  }

  lemma InnerNode(tags: map<byte, Tag>, tag: Tag)
    requires tag.id <= 0x1E
    ensures Inner(tags, tag.permissions, Tlv.NodesOf([Tlv.Item(tag.id, tag.value)])) == tags[tag.id := tag]
  {
    var nodes := Tlv.NodesOf([Tlv.Item(tag.id, tag.value)]);
    assert nodes[..0] == [];
    assert Inner(tags, tag.permissions, []) == tags;
  }

  lemma {:induction false} ContainerTagsExact(key: Key, order: seq<byte>)
    requires WellFormed(key) && ShortNumbers(key) && forall id :: id in order ==> id in key.tags
    ensures ContainerTags(key, order) == map id | id in order && !IsSystem(id) :: key.tags[id]
  {
    hide Inner, Tlv.ReadAll, Tlv.Encode;
    if order != [] {
      var before, last := order[..|order| - 1], order[|order| - 1];
      ContainerTagsExact(key, before);
      assert order == before + [last];
      if !IsSystem(last) {
        InnerOne(ContainerTags(key, before), key.tags[last]);
      }
    }
  }

  /** When every written tag number fits one octet, the round trip is exact, in every iteration order. */
  lemma RoundTrip(key: Key, order: seq<byte>)
    requires WellFormed(key) && ShortNumbers(key) && Enumerates(order, key.tags)
    ensures Parse(Serialized(key, order)) == Ok(Normalized(key))
  {
    hide Parse, Serialized, ContainerTags;
    ParseSerialized(key, order);
    ContainerTagsExact(key, order);
    var kept := map id | id in key.tags && OnWire(id) :: key.tags[id];
    assert ContainerTags(key, order) == kept;
    assert Materialise(Materialise(kept, DEPRECATED_AUDIT), AUDIT)
        == kept[0x0A := Tag(0x0A, 0x28, [])][0x0B := Tag(0x0B, 0x28, [])];
  }

  // ------------------------------------------------- exactly when it is exact

  /** Parsed ids are five bits wide. */
  lemma {:induction false} InnerIds(tags: map<byte, Tag>, permissions: byte, nodes: seq<Tlv.Node>, id: byte)
    requires id in Inner(tags, permissions, nodes) && id !in tags
    ensures id < 32
    ensures exists node :: node in nodes && Inner(tags, permissions, nodes)[id].value == node.value
  {
    var n := |nodes| - 1;
    var node := nodes[n];
    if node.Primitive() && node.tag[0] % 32 == id {
      assert node in nodes;
    } else {
      InnerIds(tags, permissions, nodes[..n], id);
      var earlier :| earlier in nodes[..n] && Inner(tags, permissions, nodes[..n])[id].value == earlier.value;
      assert earlier in nodes;
    }
  }

  lemma {:induction false} InnerKeepsOthers(tags: map<byte, Tag>, permissions: byte, nodes: seq<Tlv.Node>, id: byte)
    requires id in tags
    ensures id in Inner(tags, permissions, nodes)
    ensures Inner(tags, permissions, nodes)[id] == tags[id]
      || exists node :: node in nodes && Inner(tags, permissions, nodes)[id].value == node.value
  {
    if nodes != [] {
      var n := |nodes| - 1;
      InnerKeepsOthers(tags, permissions, nodes[..n], id);
      assert nodes[n] in nodes;
      if Inner(tags, permissions, nodes[..n])[id] != tags[id] {
        var earlier :| earlier in nodes[..n] && Inner(tags, permissions, nodes[..n])[id].value == earlier.value;
        assert earlier in nodes;
      }
    }
  }

  lemma {:induction false} ContainerIds(key: Key, order: seq<byte>, id: byte)
    requires forall i :: i in order ==> i in key.tags
    requires id in ContainerTags(key, order)
    ensures id < 32
  {
    var before, last := order[..|order| - 1], key.tags[order[|order| - 1]];
    if id in ContainerTags(key, before) {
      ContainerIds(key, before, id);
    } else {
      InnerIds(ContainerTags(key, before), last.permissions, Tlv.ReadAll(Tlv.Encode(last.id, last.value)), id);
    }
  }

  /** Tag 0x1F never comes back with its value. */
  lemma {:induction false} MarkerTagLost(key: Key, order: seq<byte>)
    requires WellFormed(key) && (forall id :: id in order ==> id in key.tags)
    requires forall id :: id in key.tags && !IsSystem(id) ==> id <= 0x1F
    requires 0x1F in key.tags
    ensures 0x1F in ContainerTags(key, order) ==>
      |ContainerTags(key, order)[0x1F].value| != |key.tags[0x1F].value|
  {
    if order != [] && 0x1F in ContainerTags(key, order) {
      var before, id := order[..|order| - 1], order[|order| - 1];
      var last, tags := key.tags[id], ContainerTags(key, before);
      MarkerTagLost(key, before);
      if !IsSystem(id) && id <= 0x1E {
        InnerOne(tags, last);
      } else if id == 0x1F {
        var nodes := Tlv.ReadAll(Tlv.Encode(0x1F, last.value));
        if 0x1F in tags {
          InnerKeepsOthers(tags, last.permissions, nodes, 0x1F);
        } else {
          InnerIds(tags, last.permissions, nodes, 0x1F);
        }
        forall node | node in nodes
          ensures |node.value| != |last.value|
        {
          Tlv.MarkerTagLosesValue(last.value, node);
        }
      }
    }
  }

  lemma LongNumberLost(key: Key, order: seq<byte>, id: byte)
    requires WellFormed(key) && Enumerates(order, key.tags)
    requires id in key.tags && !IsSystem(id) && id > 0x1F
    ensures Parse(Serialized(key, order)) != Ok(Normalized(key))
  {
    ParseSerialized(key, order);
    if id in ContainerTags(key, order) {
      ContainerIds(key, order, id);
    }
    assert id in Normalized(key).tags;
  }

  lemma MarkerNumberLost(key: Key, order: seq<byte>)
    requires WellFormed(key) && Enumerates(order, key.tags)
    requires forall id :: id in key.tags && !IsSystem(id) ==> id <= 0x1F
    requires 0x1F in key.tags
    ensures Parse(Serialized(key, order)) != Ok(Normalized(key))
  {
    ParseSerialized(key, order);
    MarkerTagLost(key, order);
    assert Normalized(key).tags[0x1F] == key.tags[0x1F];
  }

  /** For well-formed keys the round trip is exact if and only if every written tag number is at most 0x1E. */
  lemma RoundTripExactly(key: Key, order: seq<byte>)
    requires WellFormed(key) && Enumerates(order, key.tags)
    ensures Parse(Serialized(key, order)) == Ok(Normalized(key)) <==> ShortNumbers(key)
  {
    if ShortNumbers(key) {
      RoundTrip(key, order);
    } else if exists big :: big in key.tags && !IsSystem(big) && big > 0x1F {
      var big :| big in key.tags && !IsSystem(big) && big > 0x1F;
      LongNumberLost(key, order, big);
    } else {
      MarkerNumberLost(key, order);
    }
  }

  /** A concrete key that does not survive: one empty tag with number 0x1F. */
  lemma MarkerCounterexample(knKey: Block)
    ensures var key := Key([], [], knKey, map[0x1F := Tag(0x1F, READABLE, [])]);
      WellFormed(key) && Parse(Serialized(key, [0x1F])) != Ok(Normalized(key))
  {
    var key := Key([], [], knKey, map[0x1F := Tag(0x1F, READABLE, [])]);
    assert 0x1F in key.tags && !IsSystem(0x1F);
    RoundTripExactly(key, [0x1F]);
  }

  // ------------------------------------------------- what parsing guarantees

  lemma {:induction false} InnerMatches(tags: map<byte, Tag>, permissions: byte, nodes: seq<Tlv.Node>)
    requires IdsMatch(tags)
    ensures IdsMatch(Inner(tags, permissions, nodes))
  {
    if nodes != [] {
      InnerMatches(tags, permissions, nodes[..|nodes| - 1]);
    }
  }

  /** Map ids and tag ids agree, and fit five bits. */
  ghost predicate IdsMatch(tags: map<byte, Tag>) {
    forall id :: id in tags ==> tags[id].id == id && id < 32
  }

  lemma {:induction false} AbsorbMatches(nodes: seq<Tlv.Node>)
    ensures AbsorbAll(NOTHING, nodes).Ok? ==> IdsMatch(AbsorbAll(NOTHING, nodes).value.tags)
  {
    if nodes != [] {
      var before, node := nodes[..|nodes| - 1], nodes[|nodes| - 1];
      AbsorbMatches(before);
      if AbsorbAll(NOTHING, before).Ok? && node.value != [] {
        InnerMatches(AbsorbAll(NOTHING, before).value.tags, node.value[0], Tlv.ReadAll(node.value[1..]));
      }
    }
  }

  predicate Numbered(node: Tlv.Node, number: byte) {
    node.Primitive() && node.tag[0] % 32 == number
  }

  /** The value of the last top-level element with this number. */
  function LastValue(nodes: seq<Tlv.Node>, number: byte): Option<bytes> {
    if nodes == [] then None
    else if Numbered(nodes[|nodes| - 1], number) then Some(nodes[|nodes| - 1].value)
    else LastValue(nodes[..|nodes| - 1], number)
  }

  /** Some kN element does not hold a key. */
  predicate HasBadKn(nodes: seq<Tlv.Node>) {
    exists node :: node in nodes && Numbered(node, 0x02) && |node.value| != 16
  }

  lemma {:induction false} AbsorbedFixed(nodes: seq<Tlv.Node>)
    ensures AbsorbAll(NOTHING, nodes).Err? <==> HasBadKn(nodes)
    ensures AbsorbAll(NOTHING, nodes).Err? ==> AbsorbAll(NOTHING, nodes).error.InvalidKeyLength?
    ensures AbsorbAll(NOTHING, nodes).Ok? ==>
      var f := AbsorbAll(NOTHING, nodes).value;
      f.tag0 == LastValue(nodes, 0x00) && f.tag1 == LastValue(nodes, 0x01) && f.knKey == LastValue(nodes, 0x02)
  {
    if nodes != [] {
      var before, last := nodes[..|nodes| - 1], nodes[|nodes| - 1];
      AbsorbedFixed(before);
      assert nodes == before + [last];
      assert HasBadKn(nodes) <==> HasBadKn(before) || (Numbered(last, 0x02) && |last.value| != 16) by {
        assert last in nodes;
      }
    }
  }

  /** Exactly which bytes parse, with what error the others fail, and that the last fixed tag of each kind wins. */
  lemma ParsesExactly(data: bytes)
    ensures var (nodes, r) := (Tlv.ReadAll(data), Parse(data));
      var (tag0, tag1, kn) := (LastValue(nodes, 0x00), LastValue(nodes, 0x01), LastValue(nodes, 0x02));
      if HasBadKn(nodes) then r.Err? && r.error.InvalidKeyLength?
      else if tag0.None? then r == Err(MissingTag(0x00))
      else if tag1.None? then r == Err(MissingTag(0x01))
      else if kn.None? then r == Err(MissingTag(0x02))
      else r.Ok? && r.value.tag0 == tag0.value && r.value.tag1 == tag1.value && r.value.knKey == kn.value
  {
    AbsorbedFixed(Tlv.ReadAll(data));
  }

  /** The tags a container's contents carry, in order, all under the container's permissions. */
  function CarriedBy(permissions: byte, nodes: seq<Tlv.Node>): seq<Tag> {
    if nodes == [] then []
    else
      var last := nodes[|nodes| - 1];
      CarriedBy(permissions, nodes[..|nodes| - 1])
      + if last.Primitive() then [Tag(last.tag[0] % 32, permissions, last.value)] else []
  }

  /** The tags all containers carry, in order. */
  function Carried(nodes: seq<Tlv.Node>): seq<Tag> {
    if nodes == [] then []
    else
      var last := nodes[|nodes| - 1];
      Carried(nodes[..|nodes| - 1])
      + if Numbered(last, 0x03) && last.value != [] then CarriedBy(last.value[0], Tlv.ReadAll(last.value[1..])) else []
  }

  function LastTag(tags: seq<Tag>, id: byte): Option<Tag> {
    if tags == [] then None
    else if tags[|tags| - 1].id == id then Some(tags[|tags| - 1])
    else LastTag(tags[..|tags| - 1], id)
  }

  lemma {:induction false} LastTagJoin(a: seq<Tag>, b: seq<Tag>, id: byte)
    ensures LastTag(a + b, id) == if LastTag(b, id).Some? then LastTag(b, id) else LastTag(a, id)
  {
    if b == [] {
      assert a + b == a;
    } else {
      assert (a + b)[..|a + b| - 1] == a + b[..|b| - 1];
      LastTagJoin(a, b[..|b| - 1], id);
    }
  }

  lemma {:induction false} InnerCarries(tags: map<byte, Tag>, permissions: byte, nodes: seq<Tlv.Node>, id: byte)
    ensures var (last, now) := (LastTag(CarriedBy(permissions, nodes), id), Inner(tags, permissions, nodes));
      if last.Some? then id in now && now[id] == last.value
      else (id in now <==> id in tags) && (id in tags ==> now[id] == tags[id])
  {
    if nodes != [] {
      var before, last := nodes[..|nodes| - 1], nodes[|nodes| - 1];
      InnerCarries(tags, permissions, before, id);
      var more := if last.Primitive() then [Tag(last.tag[0] % 32, permissions, last.value)] else [];
      LastTagJoin(CarriedBy(permissions, before), more, id);
    }
  }

  lemma {:induction false} AbsorbCarries(nodes: seq<Tlv.Node>, id: byte)
    ensures AbsorbAll(NOTHING, nodes).Ok? ==>
      var (last, now) := (LastTag(Carried(nodes), id), AbsorbAll(NOTHING, nodes).value.tags);
      (last.Some? <==> id in now) && (last.Some? ==> now[id] == last.value)
  {
    if nodes != [] {
      var before, last := nodes[..|nodes| - 1], nodes[|nodes| - 1];
      AbsorbCarries(before, id);
      if AbsorbAll(NOTHING, before).Ok? {
        if Numbered(last, 0x03) && last.value != [] {
          var inner := Tlv.ReadAll(last.value[1..]);
          InnerCarries(AbsorbAll(NOTHING, before).value.tags, last.value[0], inner, id);
          LastTagJoin(Carried(before), CarriedBy(last.value[0], inner), id);
        } else {
          LastTagJoin(Carried(before), [], id);
        }
      }
    }
  }

  /**
   * Exactly which tags any parsed key has: of each id the last one its containers carry, and an audit tag that none
   * carries as a writable, unreadable and empty one.
   */
  lemma ParsedTagsExactly(data: bytes, id: byte)
    requires Parse(data).Ok?
    ensures var (last, tags) := (LastTag(Carried(Tlv.ReadAll(data)), id), Parse(data).value.tags);
      if last.Some? then id in tags && tags[id] == last.value
      else if id == 0x0A || id == 0x0B then id in tags && tags[id] == Tag(id, 0x28, [])
      else id !in tags
  {
    hide AbsorbAll, Carried, LastTag;
    AbsorbCarries(Tlv.ReadAll(data), id);
  }

  /** Whatever bytes are parsed, the ids agree and both audit tags exist. */
  lemma ParsedKey(data: bytes)
    requires Parse(data).Ok?
    ensures var tags := Parse(data).value.tags; IdsMatch(tags) && DEPRECATED_AUDIT in tags && AUDIT in tags
  {
    AbsorbMatches(Tlv.ReadAll(data));
  }
}
