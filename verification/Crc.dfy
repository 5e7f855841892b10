/** The two CRC-16 routines of crates/mkey-core/src/crypto/crc.rs and the bitwise recurrence behind both. */
module Crc {
  import opened Bytes

  // ---------------------------------------------------------------- reference

  /** One bit of the reflected CRC-16 with polynomial 0x8408: subtract the polynomial when a one falls out. */
  function BitStep(c: word): word {
    if c % 2 != 0 then XorWord(c / 2, 0x8408) else c / 2
  }

  function BitSteps(c: word, n: nat): word {
    if n == 0 then c else BitStep(BitSteps(c, n - 1))
  }

  /** Feed one byte, least significant bit first. */
  function ByteStep(c: word, b: byte): word {
    BitSteps(XorWord(c, b), 8)
  }

  /** Feed a whole message into register `c`. */
  function Register(c: word, data: bytes): word {
    if data == [] then c else ByteStep(Register(c, data[..|data| - 1]), data[|data| - 1])
  }

  const SSP_SEED: word := 0x6363
  const HASHER_SEED: word := 0xFFFF

  function LittleEndian(c: word): (r: bytes)
    ensures |r| == 2
  {
    [c % 256, c / 256]
  }

  /** The checksum `crc16_ssp` puts on the wire. */
  function Crc16Ssp(data: bytes): (r: bytes)
    ensures |r| == 2
  {
    LittleEndian(Register(SSP_SEED, data))
  }

  /** The checksum `crc16_hasher` computes: FCS-16 of RFC 1662, Appendix C.2. */
  function Crc16Hasher(data: bytes): (r: bytes)
    ensures |r| == 2
  {
    LittleEndian(XorWord(Register(HASHER_SEED, data), 0xFFFF))
  }

  // ---------------------------------------------------------------- linearity

  lemma BitStepLinear(a: word, b: word)
    ensures BitStep(XorWord(a, b)) == XorWord(BitStep(a), BitStep(b))
  {
    XorDigit(a, b);
    var p, q := a / 2, b / 2;
    XorRegroup(p, 0x8408, q, 0x8408);
    XorSelf(0x8408);
    XorZero(Xor(p, q));
    XorAssociates(p, q, 0x8408);
    XorAssociates(p, 0x8408, q);
    XorCommutes(q, 0x8408);
  }

  lemma {:induction false} BitStepsLinear(a: word, b: word, n: nat)
    ensures BitSteps(XorWord(a, b), n) == XorWord(BitSteps(a, n), BitSteps(b, n))
  {
    if n > 0 {
      BitStepsLinear(a, b, n - 1);
      BitStepLinear(BitSteps(a, n - 1), BitSteps(b, n - 1));
    }
  }

  lemma ByteStepLinear(a: word, b: word, x: byte, y: byte)
    ensures ByteStep(XorWord(a, b), XorByte(x, y)) == XorWord(ByteStep(a, x), ByteStep(b, y))
  {
    XorRegroup(a, b, x, y);
    BitStepsLinear(XorWord(a, x), XorWord(b, y), 8);
  }

  /** The register is linear in seed and message together. */
  lemma {:induction false} RegisterLinear(c: word, d: word, a: bytes, b: bytes)
    requires |a| == |b|
    ensures Register(XorWord(c, d), XorBytes(a, b)) == XorWord(Register(c, a), Register(d, b))
  {
    if a != [] {
      var n := |a| - 1;
      var x := XorBytes(a, b);
      assert x[..n] == XorBytes(a[..n], b[..n]);
      RegisterLinear(c, d, a[..n], b[..n]);
      ByteStepLinear(Register(c, a[..n]), Register(d, b[..n]), a[n], b[n]);
    }
  }

  // ------------------------------------------- the loops compute the reference

  lemma {:induction false} BitStepsCompose(c: word, m: nat, n: nat)
    ensures BitSteps(BitSteps(c, m), n) == BitSteps(c, m + n)
  {
    if n > 0 {
      BitStepsCompose(c, m, n - 1);
    }
  }

  lemma FourSteps(c: word, d: word, e: word, f: word, g: word)
    requires BitStep(c) == d && BitStep(d) == e && BitStep(e) == f && BitStep(f) == g
    ensures BitSteps(c, 4) == g
  {
    assert BitSteps(c, 1) == d;
    assert BitSteps(c, 2) == e;
    assert BitSteps(c, 3) == f;
  }

  lemma FirstBit(a: word)
    requires a == BitStep(1)
    ensures a == 0x8408
  {
    XorZero(0x8408);
  }

  /** A nibble with a single one: the polynomial comes in and moves down. */
  lemma NibbleBit(n: word)
    requires n in {1, 2, 4, 8}
    ensures BitSteps(n, 4) == n * 4225
  {
    var p := BitStep(1);
    FirstBit(p);
    var q, r, t := p / 2, p / 4, p / 8;
    BitStepTwice(q);
    BitStepTwice(r);
    BitStepTwice(t);
    BitStepTwice(1);
    BitStepTwice(2);
    BitStepTwice(4);
    if n == 1 {
      FourSteps(1, p, q, r, t);
    } else if n == 2 {
      FourSteps(2, 1, p, q, r);
    } else if n == 4 {
      FourSteps(4, 2, 1, p, q);
    } else {
      FourSteps(8, 4, 2, 1, p);
    }
  }

  lemma BitStepTwice(h: word)
    ensures 2 * h < 0x1_0000 ==> BitStep(2 * h) == h
  {
  }

  lemma XorSixteens(p: nat, q: nat, x: nat, y: nat)
    requires x < 16 && y < 16
    ensures Xor(16 * p + x, 16 * q + y) == 16 * Xor(p, q) + Xor(x, y)
  {
    var a, b := 16 * p + x, 16 * q + y;
    assert a / 16 == p && b / 16 == q && a % 16 == x && b % 16 == y;
    XorParts(a, b);
  }

  lemma XorTwos(p: nat, q: nat)
    ensures Xor(2 * p, 2 * q) == 2 * Xor(p, q)
  {
    XorDouble(p, q, 0, 0);
  }

  lemma XorEights(p: nat, q: nat, x: nat, y: nat)
    requires x == 8 * p && y == 8 * q
    ensures Xor(x, y) == 8 * Xor(p, q)
  {
    hide Xor;
    XorTwos(p, q);
    XorTwos(2 * p, 2 * q);
    XorTwos(4 * p, 4 * q);
  }

  lemma ThirtyThree(a: nat, b: nat, x: nat, y: nat)
    requires a < 16 && b < 16 && x == 33 * a && y == 33 * b
    ensures Xor(x, y) == 33 * Xor(a, b)
  {
    hide Xor;
    XorTwos(a, b);
    XorSixteens(2 * a, 2 * b, a, b);
  }

  /** Multiplication of nibbles by 4225 is carry-free. */
  lemma CarryFree(a: nat, b: nat)
    requires a < 16 && b < 16
    ensures Xor(a * 4225, b * 4225) == Xor(a, b) * 4225
  {
    hide Xor;
    var p, q := 33 * a, 33 * b;
    var x, y := 8 * p, 8 * q;
    ThirtyThree(a, b, p, q);
    XorEights(p, q, x, y);
    XorSixteens(x, y, a, b);
  }

  lemma NibbleSum(a: word, b: word, x: word, y: word, s: word, z: word)
    requires BitSteps(a, 4) == x && BitSteps(b, 4) == y
    requires Xor(a, b) == s && Xor(x, y) == z
    ensures BitSteps(s, 4) == z
  {
    hide BitSteps, Xor;
    BitStepsLinear(a, b, 4);
  }

  /** Multiplying a nibble by 4225 (0x1081) is four bit steps and never leaves 16 bits. */
  lemma {:induction false} NibbleProduct(n: word)
    requires n < 16
    ensures n * 4225 <= 63375
    ensures n * 4225 == BitSteps(n, 4)
  {
    hide BitSteps, Xor;
    if n == 0 {
      BitStepsZero(4);
    } else {
      var h := if n >= 8 then 8 else if n >= 4 then 4 else if n >= 2 then 2 else 1;
      NibbleBit(h);
      NibbleProduct(n - h);
      NibbleJoin(h, n - h, n);
    }
  }

  lemma NibbleJoin(h: word, l: word, n: word)
    requires h in {1, 2, 4, 8} && l < h && n == h + l
    requires BitSteps(h, 4) == h * 4225 && BitSteps(l, 4) == l * 4225
    ensures BitSteps(n, 4) == n * 4225
  {
    hide BitSteps, Xor;
    var x, y, z := h * 4225, l * 4225, n * 4225;
    TopBit(h, l);
    CarryFree(h, l);
    NibbleSum(h, l, x, y, n, z);
  }

  lemma TopBit(h: nat, l: nat)
    requires h in {1, 2, 4, 8} && l < h
    ensures Xor(h, l) == h + l
  {
    XorZero(0);
    XorDigit(h, l);
    XorDigit(h / 2, l / 2);
    XorDigit(h / 4, l / 4);
    XorDigit(h / 8, l / 8);
  }

  /** Whole nibbles only move down. */
  lemma MoveDown(h: word)
    requires h < 4096
    ensures BitSteps(16 * h, 4) == h
  {
    hide BitSteps, Xor;
    var b, c, d := 2 * h, 4 * h, 8 * h;
    BitStepTwice(h);
    BitStepTwice(b);
    BitStepTwice(c);
    BitStepTwice(d);
    FourSteps(16 * h, d, c, b, h);
  }

  /** Four bit steps: the low nibble becomes a multiple of 4225, the rest moves down. */
  lemma NibbleStep(x: word)
    ensures BitSteps(x, 4) == Xor(x / 16, (x % 16) * 4225)
  {
    hide BitSteps, Xor;
    var h, l := x / 16, x % 16;
    XorSixteens(h, 0, 0, l);
    XorZero(h);
    XorZero(l);
    MoveDown(h);
    NibbleProduct(l);
    BitStepsLinear(16 * h, l, 4);
  }

  lemma FirstNibble(c: word, b: byte, temp: word)
    requires temp == Xor(c / 16, (Xor(c, b) % 16) * 4225)
    ensures BitSteps(XorWord(c, b), 4) == Xor(temp, b / 16)
  {
    hide BitSteps, Xor;
    var x, high := XorWord(c, b), b / 16;
    var product := (x % 16) * 4225;
    XorParts(c, b);
    NibbleStep(x);
    XorAssociates(c / 16, high, product);
    XorCommutes(high, product);
    XorAssociates(c / 16, product, high);
  }

  lemma NibbleStepOf(x: word, h: word)
    requires h == x / 16
    ensures BitSteps(x, 4) == Xor(h, (x % 16) * 4225)
  {
    NibbleStep(x);
  }

  lemma SecondNibble(temp: word, high: byte)
    requires high < 16
    ensures BitSteps(XorWord(temp, high), 4) == Xor(temp / 16, (Xor(temp, high) % 16) * 4225)
  {
    hide BitSteps, Xor;
    XorParts(temp, high);
    XorZero(temp / 16);
    NibbleStepOf(XorWord(temp, high), temp / 16);
  }

  /** Splitting the byte in two nibbles gives the reference byte step. */
  lemma NibblesMakeAByte(c: word, b: byte, temp: word)
    requires temp == Xor(c / 16, (Xor(c, b) % 16) * 4225)
    ensures Xor(temp / 16, (Xor(temp, b / 16) % 16) * 4225) == ByteStep(c, b)
  {
    hide BitSteps, Xor;
    FirstNibble(c, b, temp);
    SecondNibble(temp, b / 16);
    BitStepsCompose(XorWord(c, b), 4, 4);
  }

  lemma RegisterNext(seed: word, data: bytes, i: nat)
    requires i < |data|
    ensures Register(seed, data[..i + 1]) == ByteStep(Register(seed, data[..i]), data[i])
  {
    assert data[..i + 1][..i] == data[..i];
  }

  /** `crc16_ssp`: two nibble multiplications per byte, none of which leaves 16 bits. */
  method Crc16SspNibbles(data: bytes) returns (r: bytes)
    ensures r == Crc16Ssp(data)
  {
    hide ByteStep, Xor;
    var crc := SSP_SEED;
    for i := 0 to |data|
      invariant crc == Register(SSP_SEED, data[..i])
    {
      var product: word := (XorWord(crc, data[i]) % 16) * 4225;
      var temp := XorWord(crc / 16, product);
      product := (XorWord(temp, data[i] / 16) % 16) * 4225;
      NibblesMakeAByte(crc, data[i], temp);
      RegisterNext(SSP_SEED, data, i);
      crc := XorWord(temp / 16, product);
    }
    assert data[..|data|] == data;
    r := [crc % 256, crc / 256];
  }

  /** The lookup table of `crc16_hasher`: eight bit steps of every byte value. */
  method BuildTable() returns (table: array<word>)
    ensures fresh(table) && table.Length == 256
    ensures forall i :: 0 <= i < 256 ==> table[i] == BitSteps(i, 8)
  {
    table := new word[256];
    for i := 0 to 256
      invariant forall k :: 0 <= k < i ==> table[k] == BitSteps(k, 8)
    {
      var crc: word := i;
      for k := 0 to 8
        invariant crc == BitSteps(i, k)
      {
        if crc % 2 != 0 {
          crc := XorWord(crc / 2, 0x8408);
        } else {
          crc := crc / 2;
        }
      }
      table[i] := crc;
    }
  }

  /** One table lookup replaces eight bit steps. */
  lemma TableStep(c: word, b: byte)
    ensures Xor(c % 256, b) < 256
    ensures Xor(BitSteps(Xor(c % 256, b), 8), c / 256) == ByteStep(c, b)
  {
    hide BitSteps, Xor;
    XorFits(c % 256, b);
    var h, l := c / 256, c % 256;
    XorSixteens(16 * h, 0, 0, 0);
    HighAndLow(h, l);
    XorAssociates(256 * h, l, b);
    MoveDown(16 * h);
    MoveDown(h);
    BitStepsCompose(256 * h, 4, 4);
    BitStepsLinear(256 * h, XorWord(l, b), 8);
    XorCommutes(h, BitSteps(XorWord(l, b), 8));
  }

  lemma TableStepEntry(c: word, b: byte, index: byte, entry: word)
    requires index == Xor(c % 256, b) && entry == BitSteps(index, 8)
    ensures XorWord(entry, c / 256) == ByteStep(c, b)
  {
    TableStep(c, b);
  }

  lemma HighAndLow(h: nat, l: nat)
    requires l < 256
    ensures Xor(256 * h, l) == 256 * h + l
  {
    hide Xor;
    var x, y := l / 16, l % 16;
    XorZero(y);
    XorSixteens(16 * h, x, 0, y);
    HighAndNibble(h, x);
  }

  lemma HighAndNibble(h: nat, x: nat)
    requires x < 16
    ensures Xor(16 * h, x) == 16 * h + x
  {
    hide Xor;
    XorSixteens(h, 0, 0, x);
    XorZero(h);
    XorZero(x);
  }

  /** `crc16_hasher`: one table lookup per byte. */
  method Crc16HasherTable(data: bytes) returns (r: bytes)
    ensures r == Crc16Hasher(data)
  {
    var table := BuildTable();
    var seed := HASHER_SEED;
    for i := 0 to |data|
      invariant seed == Register(HASHER_SEED, data[..i])
      invariant forall k :: 0 <= k < 256 ==> table[k] == BitSteps(k, 8)
    {
      var index := XorByte(seed % 256, data[i]);
      var entry := table[index];
      TableStepEntry(seed, data[i], index, entry);
      RegisterNext(HASHER_SEED, data, i);
      seed := XorWord(entry, seed / 256);
    }
    assert data[..|data|] == data;
    var result := XorWord(seed, 0xFFFF);
    r := [result % 256, result / 256];
  }

  /** One byte in the nibble form: two multiplications by 4225. */
  function NibbleByte(c: word, b: byte): word {
    var temp := XorWord(c / 16, (XorWord(c, b) % 16) * 4225);
    XorWord(temp / 16, (XorWord(temp, b / 16) % 16) * 4225)
  }

  /** One byte in the table form: one lookup. */
  function TableByte(c: word, b: byte): word {
    XorWord(BitSteps(XorByte(c % 256, b), 8), c / 256)
  }

  function NibbleFold(c: word, data: bytes): word {
    if data == [] then c else NibbleByte(NibbleFold(c, data[..|data| - 1]), data[|data| - 1])
  }

  function TableFold(c: word, data: bytes): word {
    if data == [] then c else TableByte(TableFold(c, data[..|data| - 1]), data[|data| - 1])
  }

  lemma OneByte(c: word, b: byte)
    ensures NibbleByte(c, b) == ByteStep(c, b) && TableByte(c, b) == ByteStep(c, b)
  {
    hide ByteStep, BitSteps, Xor;
    NibblesMakeAByte(c, b, XorWord(c / 16, (XorWord(c, b) % 16) * 4225));
    TableStepEntry(c, b, XorByte(c % 256, b), BitSteps(XorByte(c % 256, b), 8));
  }

  /** The three forms are one recurrence: nibbles, table and single bits agree from every seed on every input. */
  lemma {:induction false} OneRecurrence(c: word, data: bytes)
    ensures NibbleFold(c, data) == Register(c, data)
    ensures TableFold(c, data) == Register(c, data)
  {
    hide NibbleByte, TableByte, ByteStep;
    if data != [] {
      var before, last := data[..|data| - 1], data[|data| - 1];
      OneRecurrence(c, before);
      OneByte(Register(c, before), last);
    }
  }

  /** The two checksums of a message differ by a constant of its length alone. */
  lemma ChecksumsDifferByLength(a: bytes, b: bytes)
    requires |a| == |b|
    ensures XorBytes(Crc16Ssp(a), Crc16Hasher(a)) == XorBytes(Crc16Ssp(b), Crc16Hasher(b))
  {
    ChecksumDifference(a);
    ChecksumDifference(b);
  }

  lemma ChecksumDifference(a: bytes)
    ensures XorBytes(Crc16Ssp(a), Crc16Hasher(a))
         == LittleEndian(XorWord(Register(XorWord(SSP_SEED, HASHER_SEED), Zeros(|a|)), 0xFFFF))
  {
    forall i | 0 <= i < |a|
      ensures XorBytes(a, a)[i] == 0
    {
      XorSelf(a[i]);
    }
    assert XorBytes(a, a) == Zeros(|a|);
    RegisterLinear(SSP_SEED, HASHER_SEED, a, a);
    var s, h := Register(SSP_SEED, a), Register(HASHER_SEED, a);
    XorAssociates(s, h, 0xFFFF);
    LittleEndianXor(s, XorWord(h, 0xFFFF));
  }

  lemma LittleEndianXor(a: word, b: word)
    ensures XorBytes(LittleEndian(a), LittleEndian(b)) == LittleEndian(XorWord(a, b))
  {
    XorHalves(a, b);
    assert XorBytes(LittleEndian(a), LittleEndian(b)) == [Xor(a % 256, b % 256), Xor(a / 256, b / 256)];
  }

  lemma XorHalves(a: nat, b: nat)
    ensures Xor(a, b) % 256 == Xor(a % 256, b % 256)
    ensures Xor(a, b) / 256 == Xor(a / 256, b / 256)
  {
    XorJoin(a, b, a / 256, b / 256, a % 256, b % 256);
    HalvesOf(Xor(a, b), Xor(a / 256, b / 256), Xor(a % 256, b % 256));
  }

  lemma HalvesOf(x: nat, h: nat, l: nat)
    requires l < 256 && x == 256 * h + l
    ensures x / 256 == h && x % 256 == l
  {
  }

  lemma XorJoin(a: nat, b: nat, h: nat, g: nat, l: nat, m: nat)
    requires l < 256 && m < 256 && a == 256 * h + l && b == 256 * g + m
    ensures Xor(l, m) < 256
    ensures Xor(a, b) == 256 * Xor(h, g) + Xor(l, m)
  {
    var p, q, x, y := 256 * h, 256 * g, Xor(h, g), Xor(l, m);
    HighAndLow(h, l);
    HighAndLow(g, m);
    XorRegroup(p, l, q, m);
    TwoFiftySix(h, g);
    XorFits(l, m);
    HighAndLow(x, y);
  }

  lemma TwoFiftySix(h: nat, g: nat)
    ensures Xor(256 * h, 256 * g) == 256 * Xor(h, g)
  {
    XorZero(0);
    XorSixteens(16 * h, 16 * g, 0, 0);
    XorSixteens(h, g, 0, 0);
  }

  // ------------------------------------------------- residue and error detection

  lemma {:induction false} RegisterConcat(c: word, a: bytes, b: bytes)
    ensures Register(c, a + b) == Register(Register(c, a), b)
  {
    if b == [] {
      assert a + b == a;
    } else {
      var n := |b| - 1;
      assert (a + b)[..|a + b| - 1] == a + b[..n];
      RegisterConcat(c, a, b[..n]);
    }
  }

  /** The polynomial's top bit tells which branch was taken. */
  lemma BitStepTop(c: word)
    ensures BitStep(c) < 0x8000 <==> c % 2 == 0
    ensures c % 2 == 0 ==> c == 2 * BitStep(c)
  {
    if c % 2 != 0 {
      TopStays(c / 2, BitStep(c));
    }
  }

  lemma TopStays(a: nat, x: nat)
    requires a < 0x8000 && x == Xor(a, 0x8408)
    ensures x >= 0x8000
  {
    XorParts(a, 0x8408);
    TopOfByte(a / 256, x / 256);
  }

  lemma TopOfByte(a: nat, x: nat)
    requires a < 0x80 && x == Xor(a, 0x84)
    ensures x >= 0x80
  {
    XorParts(a, 0x84);
    TopOfNibble(a / 16, x / 16);
  }

  lemma TopOfNibble(a: nat, x: nat)
    requires a < 8 && x == Xor(a, 8)
    ensures x >= 8
  {
    XorDigit(a, 8);
    XorDigit(a / 2, 4);
    XorDigit(a / 4, 2);
  }

  lemma BitStepInjective(a: word, b: word)
    requires BitStep(a) == BitStep(b)
    ensures a == b
  {
    BitStepTop(a);
    BitStepTop(b);
    XorTwice(0x8408, a / 2);
    XorTwice(0x8408, b / 2);
  }

  lemma {:induction false} BitStepsInjective(a: word, b: word, n: nat)
    requires BitSteps(a, n) == BitSteps(b, n)
    ensures a == b
  {
    if n > 0 {
      BitStepInjective(BitSteps(a, n - 1), BitSteps(b, n - 1));
      BitStepsInjective(a, b, n - 1);
    }
  }

  lemma ByteStepInjective(a: word, b: word, w: byte)
    requires ByteStep(a, w) == ByteStep(b, w)
    ensures a == b
  {
    BitStepsInjective(XorWord(a, w), XorWord(b, w), 8);
    XorTwice(w, a);
    XorTwice(w, b);
  }

  /** Equal suffixes never merge two different registers. */
  lemma {:induction false} RegisterInjective(c: word, d: word, a: bytes)
    requires Register(c, a) == Register(d, a)
    ensures c == d
  {
    if a != [] {
      var n := |a| - 1;
      ByteStepInjective(Register(c, a[..n]), Register(d, a[..n]), a[n]);
      RegisterInjective(c, d, a[..n]);
    }
  }

  lemma {:induction false} BitStepsZero(n: nat)
    ensures BitSteps(0, n) == 0
  {
    if n > 0 {
      BitStepsZero(n - 1);
    }
  }

  /** A non-zero byte always reaches the upper half of the register. */
  lemma LowByteKernel(d: byte)
    requires BitSteps(d, 8) < 0x100
    ensures d == 0
  {
    var s := BitSteps(d, 8);
    WasShifted(d, 7, s);
    WasShifted(d, 6, 2 * s);
    WasShifted(d, 5, 4 * s);
    WasShifted(d, 4, 8 * s);
    WasShifted(d, 3, 16 * s);
    WasShifted(d, 2, 32 * s);
    WasShifted(d, 1, 64 * s);
    WasShifted(d, 0, 128 * s);
  }

  lemma WasShifted(d: word, n: nat, s: word)
    requires s == BitSteps(d, n + 1) && s < 0x8000
    ensures BitSteps(d, n) == 2 * s
  {
    BitStepTop(BitSteps(d, n));
  }

  lemma ByteStepZero(c: word, b: byte)
    ensures ByteStep(c, b) == 0 <==> c == b
  {
    BitStepsZero(8);
    XorIsZero(c, b);
    if ByteStep(c, b) == 0 {
      BitStepsInjective(XorWord(c, b), 0, 8);
    }
  }

  lemma TwoByteResidue(c: word, lo: byte, hi: byte)
    ensures ByteStep(ByteStep(c, lo), hi) == 0 <==> LittleEndian(c) == [lo, hi]
  {
    hide BitSteps, ByteStep, Xor;
    var d := XorByte(c % 256, lo);
    var t := BitSteps(d, 8);
    TableStep(c, lo);
    ByteStepZero(ByteStep(c, lo), hi);
    XorIsZero(c % 256, lo);
    if d == 0 {
      BitStepsZero(8);
      XorZero(c / 256);
    } else {
      if t < 0x100 {
        LowByteKernel(d);
      }
      XorParts(t, c / 256);
      XorZero(t / 256);
      assert LittleEndian(c)[0] != lo;
    }
  }

  lemma RegisterOfTwo(c: word, x: byte, y: byte)
    ensures Register(c, [x, y]) == ByteStep(ByteStep(c, x), y)
  {
    assert [x, y][..1] == [x];
    assert [x][..0] == [];
    assert Register(c, [x]) == ByteStep(c, x);
  }

  /** Appending the right checksum, and only that, takes the register to zero. */
  lemma ChecksumResidue(data: bytes, lo: byte, hi: byte)
    ensures Crc16Ssp(data) == [lo, hi] <==> Register(SSP_SEED, data + [lo, hi]) == 0
  {
    var c := Register(SSP_SEED, data);
    RegisterConcat(SSP_SEED, data, [lo, hi]);
    RegisterOfTwo(c, lo, hi);
    TwoByteResidue(c, lo, hi);
  }

  /** `a` and `b` agree everywhere but, possibly, at positions `i` and `i + 1`. */
  ghost predicate DifferOnlyAt(a: bytes, b: bytes, i: nat) {
    && |a| == |b|
    && forall k :: 0 <= k < |a| && k != i && k != i + 1 ==> a[k] == b[k]
  }

  /** On at most two bytes the register determines the message. */
  lemma ShortRegisterInjective(c: word, a: bytes, b: bytes)
    requires |a| == |b| <= 2
    requires Register(c, a) == Register(c, b)
    ensures a == b
  {
    var x := XorBytes(a, b);
    XorSelf(c);
    XorSelf(Register(c, a));
    RegisterLinear(c, c, a, b);
    assert Register(0, x) == 0;
    if |a| == 2 {
      assert x == [x[0], x[1]];
      RegisterOfTwo(0, x[0], x[1]);
      TwoByteResidue(0, x[0], x[1]);
      assert [0, 0] == [x[0], x[1]];
      XorIsZero(a[0], b[0]);
      XorIsZero(a[1], b[1]);
    } else if |a| == 1 {
      assert x[..0] == [];
      ByteStepZero(0, x[0]);
      XorIsZero(a[0], b[0]);
    }
  }

  /** From any seed, an error confined to two adjacent bytes always changes the register. */
  lemma WindowChangesRegister(c: word, a: bytes, b: bytes, i: nat)
    requires DifferOnlyAt(a, b, i) && a != b
    ensures Register(c, a) != Register(c, b)
  {
    var j := if i <= |a| then i else |a|;
    var e := if j + 2 <= |a| then j + 2 else |a|;
    assert a[..j] == b[..j] && a[e..] == b[e..];
    assert a == a[..j] + a[j..e] + a[e..];
    assert b == b[..j] + b[j..e] + b[e..];
    var start := Register(c, a[..j]);
    RegisterConcat(c, a[..j], a[j..e]);
    RegisterConcat(c, b[..j], b[j..e]);
    RegisterConcat(c, a[..j] + a[j..e], a[e..]);
    RegisterConcat(c, b[..j] + b[j..e], b[e..]);
    if Register(c, a) == Register(c, b) {
      RegisterInjective(Register(start, a[j..e]), Register(start, b[j..e]), a[e..]);
      ShortRegisterInjective(start, a[j..e], b[j..e]);
    }
  }

  lemma LittleEndianInjective(a: word, b: word)
    requires LittleEndian(a) == LittleEndian(b)
    ensures a == b
  {
    var x, y := LittleEndian(a), LittleEndian(b);
    assert x[0] == y[0] && x[1] == y[1];
  }

  /** Both checksums detect every error confined to two adjacent bytes. */
  lemma WindowDetected(a: bytes, b: bytes, i: nat)
    requires DifferOnlyAt(a, b, i) && a != b
    ensures Crc16Ssp(a) != Crc16Ssp(b)
    ensures Crc16Hasher(a) != Crc16Hasher(b)
  {
    WindowChangesRegister(SSP_SEED, a, b, i);
    WindowChangesRegister(HASHER_SEED, a, b, i);
    if Crc16Ssp(a) == Crc16Ssp(b) {
      LittleEndianInjective(Register(SSP_SEED, a), Register(SSP_SEED, b));
    }
    if Crc16Hasher(a) == Crc16Hasher(b) {
      var p, q := Register(HASHER_SEED, a), Register(HASHER_SEED, b);
      LittleEndianInjective(XorWord(p, 0xFFFF), XorWord(q, 0xFFFF));
      XorTwice(0xFFFF, p);
      XorTwice(0xFFFF, q);
    }
  }

  // ------------------------------------------------- known answers

  /** The checksums of the empty message: the seeds, least significant byte first, the second one inverted. */
  lemma EmptyChecksums()
    ensures Crc16Ssp([]) == [0x63, 0x63] && Crc16Hasher([]) == [0x00, 0x00]
  {
    XorSelf(0xFFFF);
  }
}
