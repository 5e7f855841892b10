/** Bytes, 16-bit words, blocks and the small vocabulary every other module shares. */
module Bytes {

  type byte = b: int | 0 <= b < 0x100

  type word = w: int | 0 <= w < 0x1_0000

  type bytes = seq<byte>

  /** A 16-byte array: an AES block, an AES-128 key, an IV or a random challenge. */
  type Block = b: bytes | |b| == 16
    witness [0, 0, 0, 0, 0, 0, 0, 0, 0, 0, 0, 0, 0, 0, 0, 0]

  const ZERO_BLOCK: Block := [0, 0, 0, 0, 0, 0, 0, 0, 0, 0, 0, 0, 0, 0, 0, 0]

  datatype Option<+T> = None | Some(value: T)

  datatype Result<+T> = Ok(value: T) | Err(error: Error)

  /** Which bytes were wrong: the source tells these apart by message text only. */
  datatype DataFault =
    | PacketTooShort
    | EmptyControlPacket
    | UnknownOpCode
    | ErrorPacketReceived
    | Step1MustBePlain
    | Step2MustBeEncrypted
    | Step2TooShort
    | SetKeyTooShort
    | CiphertextLength
    | NoRoomForCrc
    | EmptyPacket
    | ExpectedEncrypted
    | EmptyCommand
    | UnknownCommand
    | NonceTooShort
    | ResultTooShort

  /** Which state requirement was broken. */
  datatype StateFault =
    | NotReady
    | NotAuthStep1
    | NotInSession
    | RandomBNotFound
    | UnexpectedEvent
    | NothingPending

  /** The part of the shared failure vocabulary that the modelled code raises. */
  datatype Error =
    | InvalidData(data: DataFault)
    | InvalidState(fault: StateFault)
    | AuthenticationFailed
    | DecryptionFailed
    | InvalidCrc
    | InvalidPadding
    | InvalidProtocolVersion(major: byte)
    | InvalidKeyLength(length: nat)
    | MissingTag(tag: byte)
    | Timeout(afterMs: nat)
    | Disconnected
    | Cancelled
    | TransportFailed

  /** `n` zero bytes. */
  function Zeros(n: nat): (z: bytes)
    ensures |z| == n
    ensures forall i :: 0 <= i < n ==> z[i] == 0
  {
    seq(n, _ => 0)
  }

  // ---------------------------------------------------------------- bit operations

  /** Bitwise exclusive or, one binary digit at a time. */
  function Xor(a: nat, b: nat): nat
    decreases a + b
  {
    if a == 0 && b == 0 then 0 else 2 * Xor(a / 2, b / 2) + (if a % 2 == b % 2 then 0 else 1)
  }

  /** Bitwise and, one binary digit at a time. */
  function And(a: nat, b: nat): nat {
    if a == 0 then 0 else 2 * And(a / 2, b / 2) + (a % 2) * (b % 2)
  }

  lemma {:induction false} AndZero(a: nat)
    ensures And(a, 0) == 0
  {
    if a > 0 {
      AndZero(a / 2);
    }
  }

  /** Testing bit 0, and moving the test one bit up. */
  lemma AndOne(a: nat)
    ensures And(a, 1) == a % 2
  {
    AndZero(a / 2);
  }

  lemma {:induction false} AndDouble(a: nat, b: nat)
    ensures And(a, 2 * b) == 2 * And(a / 2, b)
  {
    var double := 2 * b;
    assert double / 2 == b && double % 2 == 0;
    if a > 0 {
      assert And(a, double) == 2 * And(a / 2, double / 2) + a % 2 * (double % 2);
    }
  }

  lemma {:induction false} XorZero(a: nat)
    ensures Xor(a, 0) == a && Xor(0, a) == a
  {
    if a > 0 {
      XorZero(a / 2);
    }
  }

  lemma {:induction false} XorSelf(a: nat)
    ensures Xor(a, a) == 0
  {
    if a > 0 {
      XorSelf(a / 2);
    }
  }

  lemma {:induction false} XorCommutes(a: nat, b: nat)
    ensures Xor(a, b) == Xor(b, a)
    decreases a + b
  {
    if a + b > 0 {
      XorCommutes(a / 2, b / 2);
    }
  }

  lemma {:induction false} XorAssociates(a: nat, b: nat, c: nat)
    ensures Xor(Xor(a, b), c) == Xor(a, Xor(b, c))
    decreases a + b + c
  {
    if a + b + c > 0 {
      var ab, bc := Xor(a, b), Xor(b, c);
      XorDigit(a, b);
      XorDigit(b, c);
      XorAssociates(a / 2, b / 2, c / 2);
      XorAssociatesOnce(a, b, c, ab, bc);
    }
  }

  lemma XorAssociatesOnce(a: nat, b: nat, c: nat, ab: nat, bc: nat)
    requires ab % 2 == if a % 2 == b % 2 then 0 else 1
    requires bc % 2 == if b % 2 == c % 2 then 0 else 1
    requires Xor(ab / 2, c / 2) == Xor(a / 2, bc / 2)
    ensures Xor(ab, c) == Xor(a, bc)
  {
    XorDigit(ab, c);
    XorDigit(a, bc);
    var x, y := Xor(ab, c), Xor(a, bc);
    assert x / 2 == y / 2 && x % 2 == y % 2;
  }

  /** The recurrence holds at zero too. */
  lemma XorDigit(a: nat, b: nat)
    ensures Xor(a, b) / 2 == Xor(a / 2, b / 2)
    ensures Xor(a, b) % 2 == if a % 2 == b % 2 then 0 else 1
  {
  }

  /** Exclusive or undoes itself. */
  lemma XorTwice(a: nat, b: nat)
    ensures Xor(a, Xor(a, b)) == b
    ensures Xor(Xor(b, a), a) == b
  {
    XorAssociates(a, a, b);
    XorAssociates(b, a, a);
    XorSelf(a);
    XorZero(b);
  }

  lemma XorIsZero(a: nat, b: nat)
    ensures Xor(a, b) == 0 <==> a == b
  {
    XorSelf(a);
    XorTwice(a, b);
    XorZero(a);
  }

  /** Regrouping a sum of four. */
  lemma XorRegroup(a: nat, b: nat, c: nat, d: nat)
    ensures Xor(Xor(a, b), Xor(c, d)) == Xor(Xor(a, c), Xor(b, d))
  {
    XorAssociates(a, b, Xor(c, d));
    XorAssociates(b, c, d);
    XorCommutes(b, c);
    XorAssociates(c, b, d);
    XorAssociates(a, c, Xor(b, d));
  }

  /** `a` without its `n` low digits, that is `a >> n`. */
  function Drop(a: nat, n: nat): nat
    decreases n
  {
    if n == 0 then a else Drop(a / 2, n - 1)
  }

  /** The `n` low digits of `a`. */
  function Low(a: nat, n: nat): nat
    decreases n
  {
    if n == 0 then 0 else 2 * Low(a / 2, n - 1) + a % 2
  }

  /** High and low digits are treated apart. */
  lemma {:induction false} XorSplit(a: nat, b: nat, n: nat)
    ensures Drop(Xor(a, b), n) == Xor(Drop(a, n), Drop(b, n))
    ensures Low(Xor(a, b), n) == Xor(Low(a, n), Low(b, n))
    decreases n
  {
    if n > 0 {
      XorDigit(a, b);
      XorSplit(a / 2, b / 2, n - 1);
      XorDouble(Low(a / 2, n - 1), Low(b / 2, n - 1), a % 2, b % 2);
    }
  }

  lemma XorDouble(a: nat, b: nat, x: nat, y: nat)
    requires x < 2 && y < 2
    ensures Xor(2 * a + x, 2 * b + y) == 2 * Xor(a, b) + (if x == y then 0 else 1)
  {
    XorDigit(2 * a + x, 2 * b + y);
  }

  lemma SplitFour(a: nat)
    ensures Drop(a, 4) == a / 16 && Low(a, 4) == a % 16
  {
    var b, c, d := a / 2, a / 2 / 2, a / 2 / 2 / 2;
    assert Drop(d, 1) == d / 2 && Low(d, 1) == d % 2;
    assert Drop(c, 2) == c / 4 && Low(c, 2) == c % 4;
    assert Drop(b, 3) == b / 8 && Low(b, 3) == b % 8;
  }

  lemma {:induction false} SplitMore(a: nat, m: nat, n: nat)
    ensures Drop(Drop(a, m), n) == Drop(a, m + n)
    decreases m
  {
    if m > 0 {
      SplitMore(a / 2, m - 1, n);
    }
  }

  lemma SplitByte(a: nat)
    ensures Drop(a, 8) == a / 256
  {
    SplitFour(a);
    SplitFour(a / 16);
    SplitMore(a, 4, 4);
  }

  /** Words split into bytes, bytes into nibbles. */
  lemma XorParts(a: nat, b: nat)
    ensures Xor(a, b) / 16 == Xor(a / 16, b / 16)
    ensures Xor(a, b) % 16 == Xor(a % 16, b % 16)
    ensures Xor(a, b) / 256 == Xor(a / 256, b / 256)
  {
    XorSplit(a, b, 4);
    XorSplit(a, b, 8);
    SplitFour(a);
    SplitFour(b);
    SplitFour(Xor(a, b));
    SplitByte(a);
    SplitByte(b);
    SplitByte(Xor(a, b));
  }

  lemma XorFits(a: nat, b: nat)
    ensures a < 16 && b < 16 ==> Xor(a, b) < 16
    ensures a < 0x100 && b < 0x100 ==> Xor(a, b) < 0x100
    ensures a < 0x1_0000 && b < 0x1_0000 ==> Xor(a, b) < 0x1_0000
  {
    XorZero(0);
    XorParts(a, b);
    XorParts(a / 256, b / 256);
  }

  function XorByte(a: byte, b: byte): (c: byte)
    ensures c == Xor(a, b)
  {
    XorFits(a, b);
    Xor(a, b)
  }

  function XorWord(a: word, b: word): (c: word)
    ensures c == Xor(a, b)
  {
    XorFits(a, b);
    Xor(a, b)
  }

  /** Bytewise exclusive or of equally long strings. */
  function XorBytes(a: bytes, b: bytes): (c: bytes)
    requires |a| == |b|
    ensures |c| == |a|
    ensures forall i :: 0 <= i < |a| ==> c[i] == Xor(a[i], b[i])
  {
    seq(|a|, i requires 0 <= i < |a| => XorByte(a[i], b[i]))
  }

  lemma XorBytesTwice(a: bytes, b: bytes)
    requires |a| == |b|
    ensures XorBytes(a, XorBytes(a, b)) == b
  {
    forall i | 0 <= i < |a|
      ensures XorBytes(a, XorBytes(a, b))[i] == b[i]
    {
      XorTwice(a[i], b[i]);
    }
  }
}
