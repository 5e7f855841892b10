/** AES-CBC, padding, rotation and key derivation: crates/mkey-core/src/crypto. */
module Cbc {
  import opened Bytes

  /** A keyed block cipher: AES-128 enters the model only through its two inverse laws. */
  datatype Cipher = Cipher(enc: (Block, Block) -> Block, dec: (Block, Block) -> Block) {
    ghost predicate Valid() {
      forall k: Block, b: Block :: dec(k, enc(k, b)) == b && enc(k, dec(k, b)) == b
    }
  }

  // ---------------------------------------------------------------- cipher block chaining

  function XorBlock(a: Block, b: Block): Block {
    XorBytes(a, b)
  }

  lemma XorBlockTwice(a: Block, b: Block)
    ensures XorBlock(a, XorBlock(a, b)) == b
  {
    XorBytesTwice(a, b);
  }

  /** CBC encryption, section 6.2 of NIST SP 800-38A. */
  function Encrypt(c: Cipher, key: Block, iv: Block, plain: bytes): (out: bytes)
    requires |plain| % 16 == 0
    ensures |out| == |plain|
    decreases |plain|
  {
    if plain == [] then []
    else
      var block: Block := c.enc(key, XorBlock(iv, plain[..16]));
      block + Encrypt(c, key, block, plain[16..])
  }

  /** CBC decryption, section 6.2 of NIST SP 800-38A. */
  function Decrypt(c: Cipher, key: Block, iv: Block, cipher: bytes): (out: bytes)
    requires |cipher| % 16 == 0
    ensures |out| == |cipher|
    decreases |cipher|
  {
    if cipher == [] then []
    else XorBlock(iv, c.dec(key, cipher[..16])) + Decrypt(c, key, cipher[..16], cipher[16..])
  }

  /** The formula of section 6.2 of NIST SP 800-38A, block by block: each block is chained to the one before it. */
  lemma {:induction false} EncryptBlocks(c: Cipher, key: Block, iv: Block, plain: bytes, k: nat)
    requires |plain| % 16 == 0 && 16 * k + 16 <= |plain|
    ensures var out := Encrypt(c, key, iv, plain);
      var before: Block := if k == 0 then iv else out[16 * k - 16..16 * k];
      out[16 * k..16 * k + 16] == c.enc(key, XorBlock(before, plain[16 * k..16 * k + 16]))
    decreases k
  {
    var out := Encrypt(c, key, iv, plain);
    var block: Block := c.enc(key, XorBlock(iv, plain[..16]));
    var rest := Encrypt(c, key, block, plain[16..]);
    assert out == block + rest;
    if k > 0 {
      EncryptBlocks(c, key, block, plain[16..], k - 1);
      Shifted(plain, block, rest, k);
    }
  }

  lemma Shifted(plain: bytes, block: Block, rest: bytes, k: nat)
    requires k > 0 && 16 * k + 16 <= |plain| && |rest| == |plain| - 16
    ensures plain[16..][16 * (k - 1)..16 * (k - 1) + 16] == plain[16 * k..16 * k + 16]
    ensures rest[16 * (k - 1)..16 * (k - 1) + 16] == (block + rest)[16 * k..16 * k + 16]
    ensures k == 1 ==> (block + rest)[16 * k - 16..16 * k] == block
    ensures k > 1 ==> rest[16 * (k - 1) - 16..16 * (k - 1)] == (block + rest)[16 * k - 16..16 * k]
  {
  }

  /** And the inverse formula of the same section. */
  lemma {:induction false} DecryptBlocks(c: Cipher, key: Block, iv: Block, cipher: bytes, k: nat)
    requires |cipher| % 16 == 0 && 16 * k + 16 <= |cipher|
    ensures var before: Block := if k == 0 then iv else cipher[16 * k - 16..16 * k];
      Decrypt(c, key, iv, cipher)[16 * k..16 * k + 16] == XorBlock(before, c.dec(key, cipher[16 * k..16 * k + 16]))
    decreases k
  {
    var block := XorBlock(iv, c.dec(key, cipher[..16]));
    var rest := Decrypt(c, key, cipher[..16], cipher[16..]);
    assert Decrypt(c, key, iv, cipher) == block + rest;
    if k > 0 {
      DecryptBlocks(c, key, cipher[..16], cipher[16..], k - 1);
      Shifted(cipher, block, rest, k);
      assert k == 1 ==> cipher[..16] == cipher[16 * k - 16..16 * k];
      assert k > 1 ==> cipher[16..][16 * (k - 1) - 16..16 * (k - 1)] == cipher[16 * k - 16..16 * k];
    }
  }

  /** The IV left behind: the last ciphertext block, or the old IV when there is none. */
  function LastBlock(iv: Block, cipher: bytes): Block {
    if |cipher| < 16 then iv else cipher[|cipher| - 16..]
  }

  lemma {:induction false} DecryptEncrypt(c: Cipher, key: Block, iv: Block, plain: bytes)
    requires c.Valid() && |plain| % 16 == 0
    ensures Decrypt(c, key, iv, Encrypt(c, key, iv, plain)) == plain
    decreases |plain|
  {
    if plain != [] {
      var block: Block := c.enc(key, XorBlock(iv, plain[..16]));
      var rest := Encrypt(c, key, block, plain[16..]);
      assert (block + rest)[..16] == block && (block + rest)[16..] == rest;
      DecryptEncrypt(c, key, block, plain[16..]);
      XorBlockTwice(iv, plain[..16]);
      assert plain[..16] + plain[16..] == plain;
    }
  }

  lemma {:induction false} EncryptDecrypt(c: Cipher, key: Block, iv: Block, cipher: bytes)
    requires c.Valid() && |cipher| % 16 == 0
    ensures Encrypt(c, key, iv, Decrypt(c, key, iv, cipher)) == cipher
    decreases |cipher|
  {
    if cipher != [] {
      var block: Block := cipher[..16];
      var first: bytes := XorBlock(iv, c.dec(key, block));
      var rest := Decrypt(c, key, block, cipher[16..]);
      assert (first + rest)[..16] == first && (first + rest)[16..] == rest;
      XorBlockTwice(iv, c.dec(key, block));
      EncryptDecrypt(c, key, block, cipher[16..]);
      assert cipher[..16] + cipher[16..] == cipher;
    }
  }

  /** Two messages encrypted with a chained IV are one encryption of their concatenation. */
  lemma {:induction false} EncryptConcat(c: Cipher, key: Block, iv: Block, a: bytes, b: bytes)
    requires |a| % 16 == 0 && |b| % 16 == 0
    ensures |a + b| % 16 == 0
    ensures var first := Encrypt(c, key, iv, a);
      Encrypt(c, key, iv, a + b) == first + Encrypt(c, key, LastBlock(iv, first), b)
    decreases |a|
  {
    if a == [] {
      assert a + b == b;
    } else {
      var block: Block := c.enc(key, XorBlock(iv, a[..16]));
      assert (a + b)[..16] == a[..16] && (a + b)[16..] == a[16..] + b;
      EncryptConcat(c, key, block, a[16..], b);
      var rest := Encrypt(c, key, block, a[16..]);
      if rest == [] {
        assert block + rest == block;
      } else {
        assert (block + rest)[|block + rest| - 16..] == rest[|rest| - 16..];
      }
      assert block + (rest + Encrypt(c, key, LastBlock(block, rest), b))
          == (block + rest) + Encrypt(c, key, LastBlock(block, rest), b);
    }
  }

  lemma LastBlockConcat(iv: Block, a: bytes, b: bytes)
    requires |a| % 16 == 0 && |b| % 16 == 0
    ensures LastBlock(iv, a + b) == LastBlock(LastBlock(iv, a), b)
  {
    if |b| == 0 {
      assert a + b == a;
    } else {
      assert (a + b)[|a + b| - 16..] == b[|b| - 16..];
    }
  }

  lemma SplitRest(s: bytes, at: nat)
    requires at + 16 <= |s|
    ensures s[at..][..16] == s[at..at + 16] && s[at..][16..] == s[at + 16..]
  {
  }

  lemma WholeBlocks(length: nat, at: nat)
    requires length % 16 == 0 && at % 16 == 0 && at < length
    ensures at + 16 <= length && (length - at) % 16 == 0 && (at + 16) % 16 == 0
  {
  }

  lemma EncryptFrom(c: Cipher, key: Block, iv: Block, plain: bytes, at: nat, done: bytes)
    requires at + 16 <= |plain| && (|plain| - at) % 16 == 0
    ensures var block: Block := c.enc(key, XorBlock(iv, plain[at..at + 16]));
      done + Encrypt(c, key, iv, plain[at..]) == (done + block) + Encrypt(c, key, block, plain[at + 16..])
  {
    SplitRest(plain, at);
  }

  lemma DecryptFrom(c: Cipher, key: Block, iv: Block, cipher: bytes, at: nat, done: bytes)
    requires at + 16 <= |cipher| && (|cipher| - at) % 16 == 0
    ensures var block: Block := cipher[at..at + 16];
      done + Decrypt(c, key, iv, cipher[at..])
        == (done + XorBlock(iv, c.dec(key, block))) + Decrypt(c, key, block, cipher[at + 16..])
  {
    SplitRest(cipher, at);
  }

  /** Replace the block at the front of the untouched rest of a buffer. */
  method StoreBlock(buffer: array<byte>, at: nat, block: Block, ghost was: bytes)
    requires at + 16 <= buffer.Length == |was| && buffer[at..] == was[at..]
    modifies buffer
    ensures buffer[..at + 16] == old(buffer[..at]) + block
    ensures buffer[at + 16..] == was[at + 16..]
  {
    SplitRest(was, at);
    ghost var rest := buffer[at..];
    forall i | 0 <= i < 16 {
      buffer[at + i] := block[i];
    }
    assert forall i :: at + 16 <= i < buffer.Length ==> buffer[i] == old(buffer[i]);
    assert buffer[at + 16..] == rest[16..];
  }

  method LoadBlock(buffer: array<byte>, at: nat, ghost was: bytes) returns (block: Block)
    requires at + 16 <= buffer.Length == |was| && buffer[at..] == was[at..]
    ensures block == was[at..at + 16]
  {
    SplitRest(was, at);
    block := buffer[at..at + 16];
    assert block == buffer[at..][..16];
  }

  /** `encrypt_aes_cbc`: a copied buffer is encrypted in place, block after block. */
  method EncryptAesCbc(c: Cipher, key: Block, iv: Block, plain: bytes) returns (out: bytes)
    requires |plain| % 16 == 0
    ensures out == Encrypt(c, key, iv, plain)
  {
    var buffer := new byte[|plain|](i requires 0 <= i < |plain| => plain[i]);
    var chain, at := iv, 0;
    assert buffer[0..] == plain[0..] == plain;
    while at < buffer.Length
      invariant 0 <= at <= buffer.Length && at % 16 == 0
      invariant buffer[at..] == plain[at..]
      invariant buffer[..at] + Encrypt(c, key, chain, plain[at..]) == Encrypt(c, key, iv, plain)
    {
      WholeBlocks(|plain|, at);
      EncryptFrom(c, key, chain, plain, at, buffer[..at]);
      var block := LoadBlock(buffer, at, plain);
      chain := c.enc(key, XorBlock(chain, block));
      StoreBlock(buffer, at, chain, plain);
      at := at + 16;
    }
    assert plain[at..] == [] && buffer[..at] + [] == buffer[..];
    out := buffer[..];
  }

  /** `decrypt_aes_cbc`: fails exactly on lengths that are not whole blocks. */
  method DecryptAesCbc(c: Cipher, key: Block, iv: Block, cipher: bytes) returns (r: Result<bytes>)
    ensures r == if |cipher| % 16 == 0 then Ok(Decrypt(c, key, iv, cipher)) else Err(DecryptionFailed)
  {
    if |cipher| % 16 != 0 {
      return Err(DecryptionFailed);
    }
    var buffer := new byte[|cipher|](i requires 0 <= i < |cipher| => cipher[i]);
    var chain, at := iv, 0;
    assert buffer[0..] == cipher[0..] == cipher;
    while at < buffer.Length
      invariant 0 <= at <= buffer.Length && at % 16 == 0
      invariant buffer[at..] == cipher[at..]
      invariant buffer[..at] + Decrypt(c, key, chain, cipher[at..]) == Decrypt(c, key, iv, cipher)
    {
      WholeBlocks(|cipher|, at);
      DecryptFrom(c, key, chain, cipher, at, buffer[..at]);
      var block := LoadBlock(buffer, at, cipher);
      StoreBlock(buffer, at, XorBlock(chain, c.dec(key, block)), cipher);
      chain, at := block, at + 16;
    }
    assert cipher[at..] == [] && buffer[..at] + [] == buffer[..];
    r := Ok(buffer[..]);
  }

  // ---------------------------------------------------------------- padding

  /** ISO 7816-4 padding to the next block boundary, a whole block when already aligned. */
  function Pad(data: bytes): (p: bytes)
    ensures |p| % 16 == 0 && |p| > |data|
  {
    data + [0x80] + Zeros(15 - |data| % 16)
  }

  /** The data, the marker 0x80, then zeros, filling up the last block and never more than one block. */
  lemma PadShape(data: bytes)
    ensures var p := Pad(data);
      && |p| % 16 == 0 && |data| < |p| <= |data| + 16
      && p[..|data|] == data && p[|data|] == 0x80
      && forall i :: |data| < i < |p| ==> p[i] == 0x00
  {
  }

  /** `apply_padding`. */
  method ApplyPadding(data: bytes) returns (padded: bytes)
    ensures padded == Pad(data)
  {
    padded := data + [0x80];
    ghost var k := 0;
    while |padded| % 16 != 0
      invariant 0 <= k <= 15 - |data| % 16
      invariant padded == data + [0x80] + Zeros(k)
      decreases 15 - |data| % 16 - k
    {
      padded := padded + [0x00];
      k := k + 1;
      assert Zeros(k) == Zeros(k - 1) + [0x00];
    }
  }

  /** `data` is `body`, the marker and some zeros. */
  ghost predicate PaddedForm(data: bytes, body: bytes) {
    && |body| < |data|
    && data == body + [0x80] + Zeros(|data| - |body| - 1)
  }

  /** What `remove_padding` returns. */
  function Unpad(data: bytes): (r: Result<bytes>)
    ensures r.Err? ==> r.error == InvalidPadding
  {
    if data == [] then Err(InvalidPadding)
    else
      var last, rest := data[|data| - 1], data[..|data| - 1];
      if last == 0x00 then Unpad(rest)
      else if last == 0x80 then Ok(rest)
      else Err(InvalidPadding)
  }

  /** `remove_padding`: drop trailing zeros, then the marker. */
  method RemovePadding(data: bytes) returns (r: Result<bytes>)
    ensures r == Unpad(data)
  {
    var len := |data|;
    assert data[..len] == data;
    while len > 0 && data[len - 1] == 0x00
      invariant 0 <= len <= |data|
      invariant Unpad(data[..len]) == Unpad(data)
    {
      assert data[..len][..len - 1] == data[..len - 1];
      len := len - 1;
    }
    if len > 0 && data[len - 1] == 0x80 {
      assert data[..len][..len - 1] == data[..len - 1];
      r := Ok(data[..len - 1]);
    } else {
      r := Err(InvalidPadding);
    }
  }

  /** Unpadding finds the body of every padded form, and nothing else is accepted. */
  lemma {:induction false} UnpadExactly(data: bytes, body: bytes)
    ensures Unpad(data) == Ok(body) <==> PaddedForm(data, body)
  {
    if data != [] {
      var n := |data| - 1;
      var last, rest := data[n], data[..n];
      assert data == rest + [last];
      if last == 0x00 {
        UnpadExactly(rest, body);
        if |body| < n {
          var k := n - |body| - 1;
          assert Zeros(k + 1) == Zeros(k) + [0x00];
          assert body + [0x80] + Zeros(k + 1) == (body + [0x80] + Zeros(k)) + [0x00];
          if PaddedForm(data, body) {
            assert data[..n] == body + [0x80] + Zeros(k);
          }
        } else if |body| == n {
          assert (body + [0x80] + Zeros(0))[n] == 0x80;
        }
      } else if |body| < n {
        assert (body + [0x80] + Zeros(n - |body|))[n] == 0x00;
      } else if |body| == n {
        assert body + [0x80] + Zeros(0) == body + [0x80];
        assert (body + [0x80])[..n] == body;
      }
    }
  }

  /** Padding is undone whatever the data ends in. */
  lemma UnpadPad(data: bytes)
    ensures Unpad(Pad(data)) == Ok(data)
  {
    assert PaddedForm(Pad(data), data);
    UnpadExactly(Pad(data), data);
  }

  // ------------------------------------------------- rotation and key derivation

  /** The last byte moves to the front. */
  function RotateRight(data: bytes): (r: bytes)
    ensures |r| == |data|
  {
    if data == [] then [] else [data[|data| - 1]] + data[..|data| - 1]
  }

  /** `rotate_right`. */
  method RotateRightCopy(data: bytes) returns (result: bytes)
    ensures result == RotateRight(data)
  {
    if |data| == 0 {
      return [];
    }
    result := [data[|data| - 1]];
    result := result + data[..|data| - 1];
  }

  /** Byte by byte: the last byte comes first, every other moves one place back. */
  lemma RotateRightPositions(s: bytes)
    requires s != []
    ensures RotateRight(s)[0] == s[|s| - 1]
    ensures forall i :: 0 <= i < |s| - 1 ==> RotateRight(s)[i + 1] == s[i]
    ensures RotateRight(s)[1..] == s[..|s| - 1]
  {
  }

  lemma RotateRightInjective(a: bytes, b: bytes)
    requires RotateRight(a) == RotateRight(b)
    ensures a == b
  {
    var r := RotateRight(a);
    if r != [] {
      assert r[1..] == a[..|a| - 1] && r[1..] == b[..|b| - 1];
      assert a == r[1..] + [r[0]] && b == r[1..] + [r[0]];
    }
  }

  /** The session key: the outer words of both randoms. */
  function DeriveSessionKey(a: Block, b: Block): Block {
    a[0..4] + b[0..4] + a[12..16] + b[12..16]
  }

  /** `derive_session_key`: a zeroed key is filled slice by slice. */
  method FillSessionKey(a: Block, b: Block) returns (key: Block)
    ensures key == DeriveSessionKey(a, b)
  {
    var buffer := new byte[16](_ => 0);
    CopyWord(buffer, 0, a, 0);
    CopyWord(buffer, 4, b, 0);
    CopyWord(buffer, 8, a, 12);
    CopyWord(buffer, 12, b, 12);
    assert buffer[..] == buffer[0..4] + buffer[4..8] + buffer[8..12] + buffer[12..16];
    key := buffer[..];
  }

  method CopyWord(buffer: array<byte>, at: nat, source: Block, from: nat)
    requires buffer.Length == 16 && at + 4 <= 16 && from + 4 <= 16
    modifies buffer
    ensures buffer[at..at + 4] == source[from..from + 4]
    ensures buffer[..at] == old(buffer[..at])
    ensures buffer[at + 4..] == old(buffer[at + 4..])
    ensures forall i :: 0 <= i < 16 && !(at <= i < at + 4) ==> buffer[i] == old(buffer[i])
  {
    forall i | 0 <= i < 4 {
      buffer[at + i] := source[from + i];
    }
  }

  /** Word by word: first of one, first of the other, last of one, last of the other. */
  lemma KeyWords(a: Block, b: Block)
    ensures var k := DeriveSessionKey(a, b);
      k[0..4] == a[..4] && k[4..8] == b[..4] && k[8..12] == a[12..] && k[12..16] == b[12..]
      && k == k[0..4] + k[4..8] + k[8..12] + k[12..16]
  {
  }

  /** The session key depends on exactly eight bytes of each random. */
  lemma DeriveSessionKeyExactly(a: Block, b: Block, c: Block, d: Block)
    ensures DeriveSessionKey(a, b) == DeriveSessionKey(c, d)
       <==> a[..4] == c[..4] && a[12..] == c[12..] && b[..4] == d[..4] && b[12..] == d[12..]
  {
    KeyWords(a, b);
    KeyWords(c, d);
    assert a[0..4] == a[..4] && b[0..4] == b[..4] && a[12..16] == a[12..] && b[12..16] == b[12..];
    assert c[0..4] == c[..4] && d[0..4] == d[..4] && c[12..16] == c[12..] && d[12..16] == d[12..];
  }
}
