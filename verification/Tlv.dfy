/** BER-TLV: the encoder of crates/mkey-core/src/data/mobile_key.rs and a reference parser. */
module Tlv {
  import opened Bytes

  const MAX_LENGTH: nat := 0x100_0000

  // ---------------------------------------------------------------- encoder

  /** The length octets `encode_tlv` writes; above three octets the high part is cut off. */
  function EncodedLength(n: nat): (l: bytes)
    ensures 1 <= |l| <= 4
  {
    if n < 128 then [n]
    else if n < 256 then [0x81, n]
    else if n < 65536 then [0x82, n / 256, n % 256]
    else [0x83, (n / 65536) % 256, (n / 256) % 256, n % 256]
  }

  /** One TLV with a private-class primitive tag: `0xC0 | (number & 0x1F)`. */
  function Encode(number: byte, value: bytes): (e: bytes)
    ensures |e| == 1 + |EncodedLength(|value|)| + |value|
  {
    [0xC0 + number % 32] + EncodedLength(|value|) + value
  }

  /**
   * The octets of X.690, sections 8.1.2 and 8.1.3: private class, primitive, the low five bits of the number; then the
   * length in the shortest definite form; then the value.
   */
  lemma EncodingShape(number: byte, value: bytes)
    requires |value| < MAX_LENGTH
    ensures var (e, n) := (Encode(number, value), |value|);
      && e[0] / 64 == 3 && e[0] / 32 % 2 == 0 && e[0] % 32 == number % 32
      && e[|e| - n..] == value
      && (n < 128 ==> |e| == 2 + n && e[1] == n)
      && (128 <= n < 256 ==> |e| == 3 + n && e[1..3] == [0x81, n])
      && (256 <= n < 65536 ==> |e| == 4 + n && e[1..4] == [0x82, n / 256, n % 256])
      && (65536 <= n ==> |e| == 5 + n && e[1..5] == [0x83, n / 65536, n / 256 % 256, n % 256])
  {
  }

  /** `encode_tlv`: push tag and length, then extend with the value. */
  method EncodeTlv(output: bytes, number: byte, value: bytes) returns (r: bytes)
    ensures r == output + Encode(number, value)
  {
    r := output + [0xC0 + number % 32];
    var len := |value|;
    if len < 128 {
      r := r + [len];
    } else if len < 256 {
      r := r + [0x81];
      r := r + [len];
    } else if len < 65536 {
      r := r + [0x82];
      r := r + [len / 256];
      r := r + [len % 256];
    } else {
      r := r + [0x83];
      r := r + [(len / 65536) % 256];
      r := r + [(len / 256) % 256];
      r := r + [len % 256];
    }
    assert r == output + ([0xC0 + number % 32] + EncodedLength(len));
    r := r + value;
  }

  // ---------------------------------------------------------------- reference parser

  /** An encoding as read: identifier octets and contents octets. */
  datatype Node = Node(tag: bytes, value: bytes) {
    /** Bit 6 of the first identifier octet (X.690, 8.1.2.5). */
    predicate Primitive() {
      tag != [] && (tag[0] / 32) % 2 == 0
    }
  }

  /** The number of subsequent identifier octets: up to and including the first without bit 8. */
  function TagTail(data: bytes): (n: Option<nat>)
    ensures n.Some? ==> 1 <= n.value <= |data|
  {
    if data == [] then None
    else if data[0] < 128 then Some(1)
    else
      var rest := TagTail(data[1..]);
      if rest.None? then None else Some(rest.value + 1)
  }

  /** Identifier octets (X.690, 8.1.2): one, or more when the low five bits are all ones. */
  function TagSize(data: bytes): (n: Option<nat>)
    ensures n.Some? ==> 1 <= n.value <= |data|
  {
    if data == [] then None
    else if data[0] % 32 != 31 then Some(1)
    else
      var tail := TagTail(data[1..]);
      if tail.None? then None else Some(tail.value + 1)
  }

  function Number(data: bytes): nat {
    if data == [] then 0 else Number(data[..|data| - 1]) * 256 + data[|data| - 1]
  }

  lemma NumberOfOne(data: bytes)
    requires data != []
    ensures |data| == 1 ==> Number(data) == data[0]
  {
    if |data| == 1 {
      assert data[..0] == [];
    }
  }

  /** Definite length octets (X.690, 8.1.3): how many there are, and the length they give. */
  function ReadLength(data: bytes): (r: Option<(nat, nat)>)
    ensures r.Some? ==> 1 <= r.value.0 <= |data|
    ensures r.Some? && r.value.0 == 1 ==> r.value.1 < 128
    ensures r.Some? && r.value.0 == 2 ==> r.value.1 < 256
  {
    if data == [] then None
    else if data[0] < 128 then Some((1, data[0]))
    else if data[0] == 128 || data[0] == 255 || |data| < data[0] - 127 then None
    else
      NumberOfOne(data[1..data[0] - 127]);
      Some((data[0] - 127, Number(data[1..data[0] - 127])))
  }

  /** One encoding from the front, and the bytes behind it. */
  function Read(data: bytes): (r: Option<(Node, bytes)>)
    ensures r.Some? ==> |r.value.1| < |data|
  {
    var tag := TagSize(data);
    if tag.None? then None
    else
      var length := ReadLength(data[tag.value..]);
      if length.None? then None
      else
        var from := tag.value + length.value.0;
        if from + length.value.1 > |data| then None
        else Some((Node(data[..tag.value], data[from..from + length.value.1]), data[from + length.value.1..]))
  }

  /** Encodings from the front until the data ends or stops making sense. */
  function ReadAll(data: bytes): seq<Node>
    decreases |data|
  {
    var first := Read(data);
    if first.None? then [] else [first.value.0] + ReadAll(first.value.1)
  }

  // ---------------------------------------------------------------- round trip

  lemma LengthRoundTrip(n: nat, rest: bytes)
    requires n < MAX_LENGTH
    ensures ReadLength(EncodedLength(n) + rest) == Some((|EncodedLength(n)|, n))
  {
    var l := EncodedLength(n);
    var data := l + rest;
    if n >= 128 {
      var octets := data[1..|l|];
      assert octets == l[1..];
      if n < 256 {
        assert octets == [n] && octets[..0] == [];
      } else if n < 65536 {
        NumberOfTwo(n / 256, n % 256);
        assert octets == [n / 256, n % 256];
      } else {
        NumberOfThree(n / 65536, (n / 256) % 256, n % 256);
        assert octets == [n / 65536, (n / 256) % 256, n % 256];
      }
    }
  }

  lemma NumberOfTwo(x: byte, y: byte)
    ensures Number([x, y]) == x * 256 + y
  {
    assert [x, y][..1] == [x];
    NumberOfOne([x]);
  }

  lemma NumberOfThree(x: byte, y: byte, z: byte)
    ensures Number([x, y, z]) == x * 65536 + y * 256 + z
  {
    NumberOfTwo(x, y);
    var s := [x, y, z];
    assert s[..|s| - 1] == [x, y];
    assert Number(s) == Number([x, y]) * 256 + z;
  }

  /** A tag number and its value, as handed to the encoder. */
  datatype Item = Item(number: byte, value: bytes)

  /** The items whose encodings can be read back. */
  predicate Readable(item: Item) {
    item.number <= 0x1E && |item.value| < MAX_LENGTH
  }

  function NodeOf(item: Item): Node {
    Node([0xC0 + item.number % 32], item.value)
  }

  /** A tag number up to 0x1E, which fits one identifier octet, is read back with its value. */
  lemma ReadEncode(item: Item, rest: bytes)
    requires Readable(item)
    ensures Read(Encode(item.number, item.value) + rest) == Some((NodeOf(item), rest))
  {
    var value := item.value;
    var l := EncodedLength(|value|);
    var data := Encode(item.number, value) + rest;
    assert data[..1] == [0xC0 + item.number];
    assert data[1..] == l + (value + rest);
    LengthRoundTrip(|value|, value + rest);
    assert data[1 + |l|..1 + |l| + |value|] == value;
    assert data[1 + |l| + |value|..] == rest;
  }

  lemma ReadItem(item: Item, rest: bytes, tail: bytes)
    requires Readable(item) && tail == Encode(item.number, item.value) + rest
    ensures ReadAll(tail) == [NodeOf(item)] + ReadAll(rest)
  {
    ReadEncode(item, rest);
  }

  function EncodeAll(items: seq<Item>): bytes {
    if items == [] then []
    else EncodeAll(items[..|items| - 1]) + Encode(items[|items| - 1].number, items[|items| - 1].value)
  }

  ghost predicate AllReadable(items: seq<Item>) {
    forall i :: 0 <= i < |items| ==> Readable(items[i])
  }

  function NodesOf(items: seq<Item>): (nodes: seq<Node>)
    ensures |nodes| == |items|
    ensures forall i :: 0 <= i < |items| ==> nodes[i] == NodeOf(items[i])
  {
    seq(|items|, i requires 0 <= i < |items| => NodeOf(items[i]))
  }

  /** Reading undoes encoding, whatever follows. */
  lemma {:induction false} ReadAllEncodeAll(items: seq<Item>, rest: bytes)
    requires AllReadable(items)
    ensures ReadAll(EncodeAll(items) + rest) == NodesOf(items) + ReadAll(rest)
    decreases |items|
  {
    if items == [] {
      assert EncodeAll(items) + rest == rest;
    } else {
      var before, last := items[..|items| - 1], items[|items| - 1];
      var tail := Encode(last.number, last.value) + rest;
      ReadItem(last, rest, tail);
      SplitLast(items, rest, tail);
      ReadAllEncodeAll(before, tail);
      JoinNodes(items, ReadAll(rest));
    }
  }

  lemma SplitLast(items: seq<Item>, rest: bytes, tail: bytes)
    requires items != [] && tail == Encode(items[|items| - 1].number, items[|items| - 1].value) + rest
    ensures EncodeAll(items) + rest == EncodeAll(items[..|items| - 1]) + tail
  {
  }

  lemma JoinNodes(items: seq<Item>, nodes: seq<Node>)
    requires items != []
    ensures NodesOf(items[..|items| - 1]) + ([NodeOf(items[|items| - 1])] + nodes) == NodesOf(items) + nodes
  {
  }

  lemma ReadBack(items: seq<Item>)
    requires AllReadable(items)
    ensures ReadAll(EncodeAll(items)) == NodesOf(items)
  {
    assert EncodeAll(items) + [] == EncodeAll(items);
    ReadAllEncodeAll(items, []);
    assert ReadAll([]) == [];
  }

  // ---------------------------------------------------------------- the multi-byte tag

  lemma {:induction false} ReadAllShorter(data: bytes, node: Node)
    requires node in ReadAll(data)
    ensures |node.value| + 2 <= |data|
    decreases |data|
  {
    var first := Read(data).value;
    if node != first.0 {
      assert node in ReadAll(first.1);
      ReadAllShorter(first.1, node);
    }
  }

  /** Tag number 0x1F is the multi-byte marker: length octets are eaten as tag, and the value never comes back. */
  lemma MarkerTagLosesValue(value: bytes, node: Node)
    requires |value| < MAX_LENGTH && node in ReadAll(Encode(0x1F, value))
    ensures |node.value| != |value|
  {
    var n, l := |value|, EncodedLength(|value|);
    var data := Encode(0x1F, value);
    var first := Read(data).value;
    var tag := TagSize(data).value;
    var length := ReadLength(data[tag..]).value;
    assert data[0] == 0xDF;
    MarkerTagSize(value);
    assert |first.1| + tag + length.0 + length.1 == |data| == 1 + |l| + n;
    if node == first.0 {
      assert |node.value| == length.1;
    } else {
      assert node in ReadAll(first.1);
      ReadAllShorter(first.1, node);
    }
  }

  lemma MarkerTagSize(value: bytes)
    requires TagSize(Encode(0x1F, value)).Some?
    ensures var tag, l := TagSize(Encode(0x1F, value)).value, |EncodedLength(|value|)|;
      tag >= (if l == 1 then 2 else if l == 2 then 4 else 3)
  {
    var l := EncodedLength(|value|);
    var data := Encode(0x1F, value);
    var tail := data[1..];
    assert tail == l + value;
    assert data[0] == 0xDF;
    if |l| >= 2 {
      assert tail[0] == l[0] >= 128;
      assert TagTail(tail) == (var r := TagTail(tail[1..]); if r.None? then None else Some(r.value + 1));
      if |l| == 2 {
        assert tail[1..][0] == l[1] >= 128;
      }
    }
  }
}
