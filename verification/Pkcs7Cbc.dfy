/** PKCS#7 padding (section 6.3 of RFC 5652) under CBC (section 6.2 of NIST SP 800-38A),
    as cosy/crypto.go frames them around an AES block cipher. The cipher itself is any
    permutation of the blocks; the key is also the initialisation vector. */
module Pkcs7Cbc {
  import opened Prelude

  type Bytes = seq<Byte>

  const BLOCK: nat := 16

  datatype Error =
    | KeyLength
    | BlockSize
    | BadLength
    | BadCount(pad: nat)
    | Mismatch(at: nat)

  datatype Outcome = Ok(bytes: Bytes) | Fail(error: Error)

  // ---- Padding -----------------------------------------------------------------------

  function PadLength(n: nat, block: nat): (r: nat)
    requires block > 0
    ensures 1 <= r <= block && (n + r) % block == 0
  {
    PadFills(n, block);
    block - n % block
  }

  lemma PadFills(n: nat, block: nat)
    requires block > 0
    ensures (n + (block - n % block)) % block == 0
  {
    var q := n / block;
    assert n + (block - n % block) == block * (q + 1);
    MultipleMod(q + 1, block);
  }

  lemma {:induction false} MultipleMod(k: nat, block: nat)
    requires block > 0
    ensures (block * k) % block == 0
  {
    if k > 0 {
      MultipleMod(k - 1, block);
      assert block * k == block * (k - 1) + block;
      AddBlock(block * (k - 1), block);
    }
  }

  lemma AddBlock(m: nat, block: nat)
    requires block > 0
    ensures (m + block) % block == m % block
  {
    var q := m / block;
    assert m + block == block * (q + 1) + m % block;
    ModUnique(m + block, block, q + 1, m % block);
  }

  lemma ModUnique(m: nat, block: nat, q: nat, r: nat)
    requires block > 0 && r < block && m == block * q + r
    ensures m % block == r
  {
    QuotientUnique(block, q, r, m / block, m % block);
  }

  lemma QuotientUnique(block: nat, q: nat, r: nat, q': nat, r': nat)
    requires r < block && r' < block && block * q + r == block * q' + r'
    ensures r == r'
  {
    if q > q' {
      Exceeds(block, q, q');
    } else if q < q' {
      Exceeds(block, q', q);
    }
  }

  lemma {:induction false} Exceeds(block: nat, q: nat, q': nat)
    requires q > q'
    ensures block * q >= block * q' + block
  {
    assert block * q == block * (q - 1) + block;
    if q > q' + 1 {
      Exceeds(block, q - 1, q');
    }
  }

  /** Go's byte(n): the low eight bits. */
  function ByteOf(n: nat): Byte {
    n % 256
  }

  function Fill(n: nat, b: Byte): (r: Bytes)
    ensures |r| == n && forall i :: 0 <= i < n ==> r[i] == b
  {
    seq(n, _ => b)
  }

  function Padded(p: Bytes, block: nat): Bytes
    requires block > 0
  {
    var n := PadLength(|p|, block);
    p + Fill(n, ByteOf(n))
  }

  method Pkcs7Pad(plaintext: Bytes, blockSize: nat) returns (r: Bytes)
    requires blockSize > 0
    ensures r == Padded(plaintext, blockSize)
    ensures plaintext < r && |r| <= |plaintext| + blockSize && |r| % blockSize == 0
    ensures forall j :: |plaintext| <= j < |r| ==> r[j] == (|r| - |plaintext|) % 256
  {
    var padding := blockSize - |plaintext| % blockSize;
    var out := new Byte[|plaintext| + padding](i requires 0 <= i =>
      if i < |plaintext| then plaintext[i] else 0);
    var i := |plaintext|;
    while i < out.Length
      invariant |plaintext| <= i <= out.Length
      invariant forall j :: 0 <= j < |plaintext| ==> out[j] == plaintext[j]
      invariant forall j :: |plaintext| <= j < i ==> out[j] == ByteOf(padding)
    {
      out[i] := ByteOf(padding);
      i := i + 1;
    }
    r := out[..];
  }

  /** `data` is whole blocks and ends in a count of 1 to `block` bytes, each holding that
      count; `x` is what precedes them. */
  ghost predicate Unpads(data: Bytes, block: nat, x: Bytes)
    requires block > 0
  {
    && |data| % block == 0
    && |x| < |data| <= |x| + block
    && |data| - |x| < 256
    && data == x + Fill(|data| - |x|, ByteOf(|data| - |x|))
  }

  lemma UnpadsCount(data: Bytes, block: nat, x: Bytes)
    requires block > 0 && Unpads(data, block, x)
    ensures |data| > 0 && data[|data| - 1] == |data| - |x|
  {}

  /** Whole blocks, at least one, that end in a count and as many bytes holding it. */
  ghost predicate WellPadded(data: Bytes, block: nat)
    requires block > 0
  {
    && data != [] && |data| % block == 0
    && 1 <= data[|data| - 1] <= block
    && forall j :: 0 <= j < |data| && |data| - data[|data| - 1] <= j ==> data[j] == data[|data| - 1]
  }

  lemma UnpadsMeans(data: Bytes, block: nat, x: Bytes)
    requires block > 0 && Unpads(data, block, x)
    ensures WellPadded(data, block) && |data| - |x| == data[|data| - 1]
  {
    UnpadsCount(data, block, x);
  }

  lemma UnpadsUnique(data: Bytes, block: nat, x: Bytes, y: Bytes)
    requires block > 0 && Unpads(data, block, x) && Unpads(data, block, y)
    ensures x == y
  {
    UnpadsCount(data, block, x);
    UnpadsCount(data, block, y);
    assert x == data[..|x|] && y == data[..|y|];
  }

  method Pkcs7Unpad(data: Bytes, blockSize: nat) returns (r: Outcome)
    requires blockSize > 0
    ensures forall x :: r == Ok(x) <==> Unpads(data, blockSize, x)
    ensures r == Fail(BadLength) <==> data == [] || |data| % blockSize != 0
    ensures r.Fail? && r.error.BadCount? ==>
      data != [] && r.error.pad == data[|data| - 1] && !(1 <= r.error.pad <= blockSize)
    ensures r.Fail? && r.error.Mismatch? ==>
      && data != []
      && |data| - data[|data| - 1] <= r.error.at < |data|
      && data[r.error.at] != data[|data| - 1]
      && forall j :: 0 <= j && |data| - data[|data| - 1] <= j < r.error.at ==> data[j] == data[|data| - 1]
    ensures r.Fail? ==> r.error != KeyLength && r.error != BlockSize
  {
    hide Unpads;
    forall x | Unpads(data, blockSize, x)
      ensures WellPadded(data, blockSize) && |data| - |x| == data[|data| - 1]
    {
      UnpadsMeans(data, blockSize, x);
    }
    if |data| == 0 || |data| % blockSize != 0 {
      return Fail(BadLength);
    }
    var last := data[|data| - 1];
    var pad := last;
    if pad == 0 || pad > blockSize {
      return Fail(BadCount(pad));
    }
    WholeBlocks(|data|, blockSize);
    var i := |data| - pad;
    while i < |data|
      invariant |data| - pad <= i <= |data|
      invariant forall j :: |data| - pad <= j < i ==> data[j] == last
    {
      if data[i] != ByteOf(pad) {
        return Fail(Mismatch(i));
      }
      i := i + 1;
    }
    r := Ok(data[..|data| - pad]);
    StrippedUnpads(data, blockSize, pad);
    forall x | Unpads(data, blockSize, x)
      ensures r == Ok(x)
    {
      UnpadsUnique(data, blockSize, x, r.bytes);
    }
  }

  lemma WholeBlocks(n: nat, block: nat)
    requires block > 0 && n > 0 && n % block == 0
    ensures n >= block
  {}

  lemma StrippedUnpads(data: Bytes, block: nat, pad: nat)
    requires block > 0 && |data| % block == 0 && 1 <= pad <= block && pad <= |data| && pad < 256
    requires forall j :: |data| - pad <= j < |data| ==> data[j] == ByteOf(pad)
    ensures Unpads(data, block, data[..|data| - pad])
  {
    assert data == data[..|data| - pad] + Fill(pad, ByteOf(pad));
  }

  /** Unpadding recovers the plaintext exactly when the count fits in a byte. */
  lemma PadRoundTrip(p: Bytes, block: nat)
    requires block > 0
    ensures Unpads(Padded(p, block), block, p) <==> PadLength(|p|, block) < 256
  {}

  /** For a block that a byte can count, the well-padded strings are exactly the paddings. */
  lemma UnpadExact(data: Bytes, block: nat, x: Bytes)
    requires 0 < block < 256
    ensures Unpads(data, block, x) <==> data == Padded(x, block)
  {
    var n := PadLength(|x|, block);
    if Unpads(data, block, x) {
      PadLengthUnique(|x|, |data| - |x|, block);
    }
  }

  lemma PadLengthUnique(n: nat, m: nat, block: nat)
    requires block > 0 && 1 <= m <= block && (n + m) % block == 0
    ensures m == PadLength(n, block)
  {
    var q, r := n / block, n % block;
    if r + m < block {
      ModUnique(n + m, block, q, r + m);
    } else if r + m < 2 * block {
      assert n + m == block * (q + 1) + (r + m - block);
      ModUnique(n + m, block, q + 1, r + m - block);
    }
  }

  // ---- Cipher block chaining ---------------------------------------------------------

  /** The block cipher: for each key, a way to encrypt a block and a way to decrypt one. */
  datatype Cipher = Cipher(encrypt: (Bytes, Bytes) -> Bytes, decrypt: (Bytes, Bytes) -> Bytes)

  ghost predicate Inverts(c: Cipher, key: Bytes, block: Bytes) {
    && |c.encrypt(key, block)| == BLOCK
    && |c.decrypt(key, block)| == BLOCK
    && c.decrypt(key, c.encrypt(key, block)) == block
    && c.encrypt(key, c.decrypt(key, block)) == block
  }

  /** Every key permutes the blocks. */
  ghost predicate Permutes(c: Cipher) {
    forall key: Bytes, block: Bytes :: |block| == BLOCK ==> Inverts(c, key, block)
  }

  function Two(w: nat): nat {
    if w == 0 then 1 else 2 * Two(w - 1)
  }

  /** Exclusive or of the low `w` bits. */
  function BitsXor(a: nat, b: nat, w: nat): (r: nat)
    ensures r < Two(w)
  {
    if w == 0 then 0 else 2 * BitsXor(a / 2, b / 2, w - 1) + if a % 2 == b % 2 then 0 else 1
  }

  lemma HalfAndBit(half: nat, bit: nat)
    requires bit < 2
    ensures (2 * half + bit) / 2 == half && (2 * half + bit) % 2 == bit
  {}

  lemma {:induction false} BitsXorTwice(a: nat, b: nat, w: nat)
    requires a < Two(w)
    ensures BitsXor(BitsXor(a, b, w), b, w) == a
  {
    if w > 0 {
      var half := BitsXor(a / 2, b / 2, w - 1);
      var bit := if a % 2 == b % 2 then 0 else 1;
      HalfAndBit(half, bit);
      assert BitsXor(a, b, w) == 2 * half + bit;
      BitsXorTwice(a / 2, b / 2, w - 1);
    }
  }

  /** Bit `k` of `n`, the lowest being bit 0. */
  predicate Bit(n: nat, k: nat) {
    if k == 0 then n % 2 == 1 else Bit(n / 2, k - 1)
  }

  /** A bit of the exclusive or is set exactly if the bits of the operands differ. */
  lemma {:induction false} BitsXorBit(a: nat, b: nat, w: nat, k: nat)
    requires k < w
    ensures Bit(BitsXor(a, b, w), k) <==> Bit(a, k) != Bit(b, k)
  {
    var half := BitsXor(a / 2, b / 2, w - 1);
    var bit := if a % 2 == b % 2 then 0 else 1;
    HalfAndBit(half, bit);
    assert BitsXor(a, b, w) == 2 * half + bit;
    if k > 0 {
      BitsXorBit(a / 2, b / 2, w - 1, k - 1);
    }
  }

  /** Numbers of `w` bits that agree in all of them are equal. */
  lemma {:induction false} BitsDetermine(a: nat, b: nat, w: nat)
    requires a < Two(w) && b < Two(w) && forall k: nat :: k < w ==> (Bit(a, k) <==> Bit(b, k))
    ensures a == b
  {
    if w > 0 {
      assert Bit(a, 0) <==> Bit(b, 0);
      forall k: nat | k < w - 1
        ensures Bit(a / 2, k) <==> Bit(b / 2, k)
      {
        assert Bit(a, k + 1) <==> Bit(b, k + 1);
      }
      BitsDetermine(a / 2, b / 2, w - 1);
    }
  }

  function ByteXor(a: Byte, b: Byte): Byte {
    assert Two(8) == 256;
    BitsXor(a, b, 8)
  }

  function Xor(a: Bytes, b: Bytes): (r: Bytes)
    requires |a| == |b|
    ensures |r| == |a|
  {
    seq(|a|, i requires 0 <= i < |a| => ByteXor(a[i], b[i]))
  }

  lemma XorTwice(a: Bytes, b: Bytes)
    requires |a| == |b|
    ensures Xor(Xor(a, b), b) == a
  {
    assert Two(8) == 256;
    forall i | 0 <= i < |a|
      ensures Xor(Xor(a, b), b)[i] == a[i]
    {
      BitsXorTwice(a[i], b[i], 8);
    }
  }

  /** Byte by byte, the bits of `m` that are set are those in which `a` and `b` differ. */
  ghost predicate Masks(m: Bytes, a: Bytes, b: Bytes) {
    && |m| == |a| == |b|
    && forall i, k: nat :: 0 <= i < |a| && k < 8 ==> (Bit(m[i], k) <==> Bit(a[i], k) != Bit(b[i], k))
  }

  lemma XorMasks(a: Bytes, b: Bytes)
    requires |a| == |b|
    ensures Masks(Xor(a, b), a, b)
  {
    forall i, k: nat | 0 <= i < |a| && k < 8
      ensures Bit(Xor(a, b)[i], k) <==> Bit(a[i], k) != Bit(b[i], k)
    {
      BitsXorBit(a[i], b[i], 8, k);
    }
  }

  lemma MaskIsUnique(m: Bytes, n: Bytes, a: Bytes, b: Bytes)
    requires Masks(m, a, b) && Masks(n, a, b)
    ensures m == n
  {
    assert Two(8) == 256;
    forall i | 0 <= i < |a|
      ensures m[i] == n[i]
    {
      forall k: nat | k < 8
        ensures Bit(m[i], k) <==> Bit(n[i], k)
      {
        assert Bit(m[i], k) <==> Bit(a[i], k) != Bit(b[i], k);
      }
      BitsDetermine(m[i], n[i], 8);
    }
  }

  function Chain(c: Cipher, key: Bytes, iv: Bytes, p: Bytes): (r: Bytes)
    requires Permutes(c) && |iv| == BLOCK && |p| % BLOCK == 0
    ensures |r| == |p|
    decreases |p|
  {
    if p == [] then []
    else
      assert Inverts(c, key, Xor(p[..BLOCK], iv));
      var b := c.encrypt(key, Xor(p[..BLOCK], iv));
      b + Chain(c, key, b, p[BLOCK..])
  }

  function Unchain(c: Cipher, key: Bytes, iv: Bytes, d: Bytes): (r: Bytes)
    requires Permutes(c) && |iv| == BLOCK && |d| % BLOCK == 0
    ensures |r| == |d|
    decreases |d|
  {
    if d == [] then []
    else
      assert Inverts(c, key, d[..BLOCK]);
      Xor(c.decrypt(key, d[..BLOCK]), iv) + Unchain(c, key, d[..BLOCK], d[BLOCK..])
  }

  function BlockAt(s: Bytes, j: nat): (r: Bytes)
    requires BLOCK * (j + 1) <= |s|
    ensures |r| == BLOCK
  {
    s[BLOCK * j..BLOCK * (j + 1)]
  }

  lemma BlockAfter(first: Bytes, rest: Bytes, j: nat)
    requires |first| == BLOCK && 1 <= j && BLOCK * j <= |rest|
    ensures BlockAt(first + rest, j) == BlockAt(rest, j - 1)
  {}

  /** The standard's equation: each output block encrypts the plaintext block masked by the
      output block before it, the vector standing before the first. */
  lemma {:induction false} ChainAt(c: Cipher, key: Bytes, iv: Bytes, p: Bytes, j: nat)
    requires Permutes(c) && |iv| == BLOCK && |p| % BLOCK == 0 && BLOCK * (j + 1) <= |p|
    ensures var out := Chain(c, key, iv, p);
      BlockAt(out, j) == c.encrypt(key, Xor(BlockAt(p, j), if j == 0 then iv else BlockAt(out, j - 1)))
    decreases j
  {
    var out := Chain(c, key, iv, p);
    assert Inverts(c, key, Xor(p[..BLOCK], iv));
    var b := c.encrypt(key, Xor(p[..BLOCK], iv));
    var rest := Chain(c, key, b, p[BLOCK..]);
    assert out == b + rest;
    if j == 0 {
      assert BlockAt(out, 0) == b && BlockAt(p, 0) == p[..BLOCK];
    } else {
      ChainAt(c, key, b, p[BLOCK..], j - 1);
      BlockAfter(b, rest, j);
      assert p == p[..BLOCK] + p[BLOCK..];
      BlockAfter(p[..BLOCK], p[BLOCK..], j);
      if j == 1 {
        assert BlockAt(out, 0) == b;
      } else {
        BlockAfter(b, rest, j - 1);
      }
    }
  }

  lemma {:induction false} UnchainChain(c: Cipher, key: Bytes, iv: Bytes, p: Bytes)
    requires Permutes(c) && |iv| == BLOCK && |p| % BLOCK == 0
    ensures Unchain(c, key, iv, Chain(c, key, iv, p)) == p
    decreases |p|
  {
    if p != [] {
      var masked := Xor(p[..BLOCK], iv);
      assert Inverts(c, key, masked);
      var b := c.encrypt(key, masked);
      var out := Chain(c, key, iv, p);
      assert out[..BLOCK] == b && out[BLOCK..] == Chain(c, key, b, p[BLOCK..]);
      XorTwice(p[..BLOCK], iv);
      UnchainChain(c, key, b, p[BLOCK..]);
      assert p == p[..BLOCK] + p[BLOCK..];
    }
  }

  lemma {:induction false} ChainUnchain(c: Cipher, key: Bytes, iv: Bytes, d: Bytes)
    requires Permutes(c) && |iv| == BLOCK && |d| % BLOCK == 0
    ensures Chain(c, key, iv, Unchain(c, key, iv, d)) == d
    decreases |d|
  {
    if d != [] {
      assert Inverts(c, key, d[..BLOCK]);
      var plain := c.decrypt(key, d[..BLOCK]);
      var p := Unchain(c, key, iv, d);
      assert p[..BLOCK] == Xor(plain, iv) && p[BLOCK..] == Unchain(c, key, d[..BLOCK], d[BLOCK..]);
      XorTwice(plain, iv);
      ChainUnchain(c, key, d[..BLOCK], d[BLOCK..]);
      assert d == d[..BLOCK] + d[BLOCK..];
    }
  }

  // ---- The two operations ------------------------------------------------------------

  /** The key sizes that AES takes. */
  predicate AesKey(key: Bytes) {
    |key| == 16 || |key| == 24 || |key| == 32
  }

  lemma PaddedBlocks(p: Bytes)
    ensures |Padded(p, BLOCK)| % BLOCK == 0
  {}

  function Encrypted(c: Cipher, key: Bytes, p: Bytes): Bytes
    requires Permutes(c) && AesKey(key)
  {
    Chain(c, key, key[..BLOCK], Padded(p, BLOCK))
  }

  /** The standard's equation: each ciphertext block encrypts the padded plaintext block whose
      bits are flipped where the ciphertext block before it has ones, the key's first block
      standing before the first. */
  lemma EncryptedAt(c: Cipher, key: Bytes, p: Bytes, j: nat) returns (m: Bytes)
    requires Permutes(c) && AesKey(key) && BLOCK * (j + 1) <= |Padded(p, BLOCK)|
    ensures |Encrypted(c, key, p)| == |Padded(p, BLOCK)|
    ensures Masks(m, BlockAt(Padded(p, BLOCK), j), if j == 0 then key[..16] else BlockAt(Encrypted(c, key, p), j - 1))
    ensures BlockAt(Encrypted(c, key, p), j) == c.encrypt(key, m)
  {
    hide Xor, Padded, Chain, Masks;
    PaddedBlocks(p);
    ChainAt(c, key, key[..BLOCK], Padded(p, BLOCK), j);
    var before := if j == 0 then key[..BLOCK] else BlockAt(Encrypted(c, key, p), j - 1);
    m := Xor(BlockAt(Padded(p, BLOCK), j), before);
    XorMasks(BlockAt(Padded(p, BLOCK), j), before);
  }

  method AesCbcEncrypt(c: Cipher, plaintext: Bytes, key: Bytes) returns (r: Outcome)
    requires Permutes(c)
    ensures r == if AesKey(key) then Ok(Encrypted(c, key, plaintext)) else Fail(KeyLength)
    ensures r == Fail(KeyLength) <==> |key| !in {16, 24, 32}
  {
    if !AesKey(key) {
      return Fail(KeyLength);
    }
    var padded := Pkcs7Pad(plaintext, BLOCK);
    r := Ok(Chain(c, key, key[..BLOCK], padded));
  }

  /** Decryption succeeds exactly on the encryptions, and returns what was encrypted. */
  method AesCbcDecrypt(c: Cipher, ciphertext: Bytes, key: Bytes) returns (r: Outcome)
    requires Permutes(c)
    ensures AesKey(key) ==> forall x :: r == Ok(x) <==> ciphertext == Encrypted(c, key, x)
    ensures r == Fail(KeyLength) <==> !AesKey(key)
    ensures r == Fail(BlockSize) <==> AesKey(key) && |ciphertext| % BLOCK != 0
  {
    if !AesKey(key) {
      return Fail(KeyLength);
    }
    if |ciphertext| % BLOCK != 0 {
      return Fail(BlockSize);
    }
    var out := Unchain(c, key, key[..BLOCK], ciphertext);
    r := Pkcs7Unpad(out, BLOCK);
    forall x
      ensures Unpads(out, BLOCK, x) <==> ciphertext == Encrypted(c, key, x)
    {
      DecryptExact(c, key, ciphertext, x);
    }
  }

  lemma DecryptExact(c: Cipher, key: Bytes, d: Bytes, x: Bytes)
    requires Permutes(c) && AesKey(key) && |d| % BLOCK == 0
    ensures Unpads(Unchain(c, key, key[..BLOCK], d), BLOCK, x) <==> d == Encrypted(c, key, x)
  {
    hide Padded, Unpads, Chain, Unchain;
    var iv := key[..BLOCK];
    PaddedBlocks(x);
    UnpadExact(Unchain(c, key, iv, d), BLOCK, x);
    ChainUnchain(c, key, iv, d);
    UnchainChain(c, key, iv, Padded(x, BLOCK));
  }

  /** One key encrypts no two plaintexts alike. */
  lemma EncryptInjective(c: Cipher, key: Bytes, x: Bytes, y: Bytes)
    requires Permutes(c) && AesKey(key) && Encrypted(c, key, x) == Encrypted(c, key, y)
    ensures x == y
  {
    var d := Encrypted(c, key, x);
    DecryptExact(c, key, d, x);
    DecryptExact(c, key, d, y);
    UnpadsUnique(Unchain(c, key, key[..BLOCK], d), BLOCK, x, y);
  }
}
