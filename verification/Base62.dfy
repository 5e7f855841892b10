/** The base-62 encoder of crates/mkey-core/src/data/base62.rs: long division of a big-endian byte string. */
module Base62 {
  import opened Bytes

  const DIGITS: string := "0123456789"
  const LOWER: string := "abcdefghijklmnopqrstuvwxyz"
  const UPPER: string := "ABCDEFGHIJKLMNOPQRSTUVWXYZ"

  /** Digits, then lower case, then upper case. */
  const ALPHABET: string := DIGITS + LOWER + UPPER

  /** The number a byte string stands for, most significant byte first. */
  function BigEndian(s: bytes): nat {
    if s == [] then 0 else BigEndian(s[..|s| - 1]) * 256 + s[|s| - 1]
  }

  function Repeat(c: char, n: nat): (s: string)
    ensures |s| == n
    ensures forall i :: 0 <= i < n ==> s[i] == c
  {
    seq(n, _ => c)
  }

  /** The base-62 numeral of `n`, no digit at all for zero. */
  function Numeral(n: nat): string {
    if n == 0 then "" else Numeral(n / 62) + [ALPHABET[n % 62]]
  }

  /** What `encode_base62` returns, the quirk for numerically zero inputs included. */
  function Encode(data: bytes): string {
    if data == [] then ""
    else if BigEndian(data) == 0 then Repeat('0', |data| + 1)
    else Numeral(BigEndian(data))
  }

  // ---------------------------------------------------------------- the code

  lemma {:induction false} BigEndianZero(s: bytes)
    ensures BigEndian(s) == 0 <==> forall i :: 0 <= i < |s| ==> s[i] == 0
  {
    if s != [] {
      BigEndianZero(s[..|s| - 1]);
    }
  }

  function Reversed(s: string): (r: string)
    ensures |r| == |s|
    ensures forall i :: 0 <= i < |s| ==> r[i] == s[|s| - 1 - i]
  {
    seq(|s|, i requires 0 <= i < |s| => s[|s| - 1 - i])
  }

  lemma PushDigit(n: nat, digits: string)
    requires n > 0
    ensures Numeral(n / 62) + Reversed(digits + [ALPHABET[n % 62]]) == Numeral(n) + Reversed(digits)
  {
    var c := ALPHABET[n % 62];
    assert Reversed(digits + [c]) == [c] + Reversed(digits);
  }

  /** `encode_base62`: repeated in-place division of the whole buffer by 62. */
  method EncodeBase62(data: bytes) returns (r: string)
    ensures r == Encode(data)
  {
    if data == [] {
      return "";
    }
    BigEndianZero(data);
    if forall i :: 0 <= i < |data| ==> data[i] == 0 {
      return Repeat('0', |data| + 1);
    }

    var value := new byte[|data|](i requires 0 <= i < |data| => data[i]);
    assert value[..] == data;
    var start, digits := 0, "";
    ghost var n := BigEndian(data);
    while start < value.Length
      invariant 0 <= start <= value.Length
      invariant n == BigEndian(value[..])
      invariant start < value.Length ==> n > 0
      invariant start == value.Length ==> n == 0
      invariant forall i :: 0 <= i < start ==> value[i] == 0
      invariant Numeral(n) + Reversed(digits) == Numeral(BigEndian(data))
      decreases n
    {
      var remainder := DivideBy62(value, start);
      PushDigit(n, digits);
      digits := digits + [ALPHABET[remainder]];
      n := n / 62;
      start := SkipZeros(value, start);
      BigEndianZero(value[..]);
    }
    assert Numeral(0) + Reversed(digits) == Reversed(digits);
    r := Reversed(digits);
  }

  /** The next start: past the leading zero bytes. */
  method SkipZeros(value: array<byte>, from: nat) returns (start: nat)
    requires from <= value.Length && forall i :: 0 <= i < from ==> value[i] == 0
    ensures from <= start <= value.Length && forall i :: 0 <= i < start ==> value[i] == 0
    ensures start < value.Length ==> value[start] != 0
  {
    start := from;
    while start < value.Length && value[start] == 0
      invariant from <= start <= value.Length
      invariant forall i :: 0 <= i < start ==> value[i] == 0
    {
      start := start + 1;
    }
  }

  /**
   * One byte of the division: with a remainder below 62 no accumulator exceeds 15871, the quotient fits a byte,
   * and the value divided so far stays 62 quotients and a remainder.
   */
  lemma DivideStep(was: nat, quotient: nat, remainder: nat, next: byte)
    requires was == quotient * 62 + remainder && remainder < 62
    ensures var accumulator := remainder * 256 + next;
      && accumulator <= 15871 && accumulator / 62 < 256
      && was * 256 + next == (quotient * 256 + accumulator / 62) * 62 + accumulator % 62
  {
  }

  lemma BigEndianPush(s: bytes, b: byte)
    ensures BigEndian(s + [b]) == BigEndian(s) * 256 + b
  {
    assert (s + [b])[..|s|] == s;
  }

  /** The pass has divided `was` up to `i`, leaving `quotients` and a remainder; it goes one byte further. */
  lemma DivideNext(was: bytes, i: nat, quotients: bytes, remainder: nat)
    requires i < |was| && remainder < 62 && BigEndian(was[..i]) == BigEndian(quotients) * 62 + remainder
    ensures var accumulator := remainder * 256 + was[i];
      && accumulator <= 15871 && accumulator / 62 < 256
      && BigEndian(was[..i + 1]) == BigEndian(quotients + [accumulator / 62]) * 62 + accumulator % 62
  {
    hide BigEndian;
    var accumulator := remainder * 256 + was[i];
    DivideStep(BigEndian(was[..i]), BigEndian(quotients), remainder, was[i]);
    assert was[..i + 1] == was[..i] + [was[i]];
    BigEndianPush(was[..i], was[i]);
    BigEndianPush(quotients, accumulator / 62);
  }

  /** One pass of the long division of the whole buffer. */
  method DivideBy62(value: array<byte>, start: nat) returns (remainder: nat)
    requires start <= value.Length
    requires forall i :: 0 <= i < start ==> value[i] == 0
    modifies value
    ensures forall i :: 0 <= i < start ==> value[i] == 0
    ensures remainder == BigEndian(old(value[..])) % 62
    ensures BigEndian(value[..]) == BigEndian(old(value[..])) / 62
  {
    hide BigEndian;
    remainder := 0;
    ghost var was := value[..];
    BigEndianZero(was[..start]);
    for i := start to value.Length
      invariant remainder < 62
      invariant value[i..] == was[i..]
      invariant forall k :: 0 <= k < start ==> value[k] == 0
      invariant BigEndian(was[..i]) == BigEndian(value[..i]) * 62 + remainder
    {
      assert value[i] == value[i..][0] == was[i];
      ghost var quotients := value[..i];
      DivideNext(was, i, quotients, remainder);
      var accumulator: word := remainder * 256 + value[i];
      assert value[i + 1..] == was[i + 1..] by {
        assert value[i..][1..] == was[i..][1..];
      }
      value[i] := accumulator / 62;
      assert value[..i + 1] == quotients + [accumulator / 62];
      remainder := accumulator % 62;
    }
    assert was[..value.Length] == was && value[..value.Length] == value[..];
  }

  // ------------------------------------------------------------ properties

  /** The digit a character of the alphabet stands for. */
  function DigitOf(c: char): nat {
    if '0' <= c <= '9' then c as nat - '0' as nat
    else if 'a' <= c <= 'z' then c as nat - 'a' as nat + 10
    else if 'A' <= c <= 'Z' then c as nat - 'A' as nat + 36
    else 0
  }

  lemma DigitSymbol(d: nat)
    requires d < 10
    ensures DigitOf(DIGITS[d]) == d
  {
  }

  lemma LowerSymbol(d: nat)
    requires d < 26
    ensures LOWER[d] as nat == 'a' as nat + d
  {
  }

  lemma UpperSymbol(d: nat)
    requires d < 26
    ensures UPPER[d] as nat == 'A' as nat + d
  {
  }

  lemma AlphabetDigits(d: nat)
    requires d < 62
    ensures DigitOf(ALPHABET[d]) == d
  {
    if d < 10 {
      DigitSymbol(d);
    } else if d < 36 {
      LowerSymbol(d - 10);
    } else {
      UpperSymbol(d - 36);
    }
  }

  /** Reading a numeral back. */
  function Decode(s: string): nat {
    if s == "" then 0 else Decode(s[..|s| - 1]) * 62 + DigitOf(s[|s| - 1])
  }

  lemma {:induction false} DecodeNumeral(n: nat)
    ensures Decode(Numeral(n)) == n
    ensures n > 0 ==> Numeral(n) != "" && Numeral(n)[0] != '0'
  {
    if n > 0 {
      DecodeNumeral(n / 62);
      AlphabetDigits(n % 62);
      assert Numeral(n)[..|Numeral(n)| - 1] == Numeral(n / 62);
    }
  }

  /** Decoding gives the input's value back, and a non-zero input has no leading zero digit. */
  lemma DecodeEncode(data: bytes)
    ensures Decode(Encode(data)) == BigEndian(data)
    ensures BigEndian(data) > 0 ==> Encode(data) != "" && Encode(data)[0] != '0'
    ensures data == [] ==> Encode(data) == ""
    ensures data != [] && (forall i :: 0 <= i < |data| ==> data[i] == 0) ==>
      |Encode(data)| == |data| + 1 && forall i :: 0 <= i <= |data| ==> Encode(data)[i] == '0'
  {
    BigEndianZero(data);
    DecodeNumeral(BigEndian(data));
    DecodeZeros(|data| + 1);
  }

  lemma {:induction false} DecodeZeros(n: nat)
    ensures Decode(Repeat('0', n)) == 0
  {
    if n > 0 {
      assert Repeat('0', n)[..n - 1] == Repeat('0', n - 1);
      DecodeZeros(n - 1);
    }
  }

  lemma {:induction false} BigEndianInjective(a: bytes, b: bytes)
    requires |a| == |b| && BigEndian(a) == BigEndian(b)
    ensures a == b
  {
    if a != [] {
      var n := |a| - 1;
      BigEndianInjective(a[..n], b[..n]);
      assert a == a[..n] + [a[n]] && b == b[..n] + [b[n]];
    }
  }

  /** Equally long inputs with the same encoding are equal. */
  lemma EncodeInjective(a: bytes, b: bytes)
    requires |a| == |b| && Encode(a) == Encode(b)
    ensures a == b
  {
    if a != [] {
      DecodeEncode(a);
      DecodeEncode(b);
      BigEndianInjective(a, b);
    }
  }
}
