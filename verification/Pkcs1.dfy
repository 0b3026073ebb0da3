/** PKCS#1 v1.5 encryption (section 7.2 of RFC 8017) as cosy/crypto.go writes it out: the
    padded block drawn from an entropy source, and the fixed-size ciphertext. */
module Pkcs1 {
  import opened Prelude

  type Bytes = seq<Byte>

  /** The bytes that successive reads return; a read that fails has none. */
  type Entropy = nat -> Option<Byte>

  const MAX_RETRIES: nat := 1024

  // ---- Integers and their octets -----------------------------------------------------

  function Pow(k: nat): nat {
    if k == 0 then 1 else 256 * Pow(k - 1)
  }

  /** big.Int.SetBytes: big-endian. */
  function Value(s: Bytes): nat {
    if s == [] then 0 else 256 * Value(s[..|s| - 1]) + s[|s| - 1]
  }

  /** big.Int.Bytes: no leading zero. */
  function Minimal(n: nat): Bytes {
    if n == 0 then [] else Minimal(n / 256) + [n % 256]
  }

  function Zeros(k: nat): (r: Bytes)
    ensures |r| == k && forall i :: 0 <= i < k ==> r[i] == 0
  {
    seq(k, _ => 0)
  }

  function LeftPad(s: Bytes, size: nat): Bytes {
    if |s| < size then Zeros(size - |s|) + s else s
  }

  lemma {:induction false} ValueBound(s: Bytes)
    ensures Value(s) < Pow(|s|)
  {
    if s != [] {
      ValueBound(s[..|s| - 1]);
    }
  }

  lemma {:induction false} MinimalValue(n: nat)
    ensures Value(Minimal(n)) == n
  {
    if n > 0 {
      MinimalValue(n / 256);
      assert Minimal(n)[..|Minimal(n)| - 1] == Minimal(n / 256);
    }
  }

  /** The length of the shortest form is the least `k` with n < 256^k. */
  lemma {:induction false} MinimalLength(n: nat, k: nat)
    ensures |Minimal(n)| <= k <==> n < Pow(k)
  {
    if n > 0 && k > 0 {
      MinimalLength(n / 256, k - 1);
    } else if n == 0 {
      PowPositive(k);
    }
  }

  lemma {:induction false} PowPositive(k: nat)
    ensures Pow(k) > 0
  {
    if k > 0 {
      PowPositive(k - 1);
    }
  }

  lemma {:induction false} LeadingZeros(k: nat, s: Bytes)
    ensures Value(Zeros(k) + s) == Value(s)
    decreases k + |s|
  {
    var t := Zeros(k) + s;
    if s != [] {
      assert t[..|t| - 1] == Zeros(k) + s[..|s| - 1];
      LeadingZeros(k, s[..|s| - 1]);
    } else if k > 0 {
      assert t[..|t| - 1] == Zeros(k - 1) + [];
      LeadingZeros(k - 1, []);
    } else {
      assert t == s;
    }
  }

  /** The integer of a string is that of its front, moved up by the length of the rest, and
      that of the rest. */
  lemma {:induction false} ValueAppends(s: Bytes, t: Bytes)
    ensures Value(s + t) == Value(s) * Pow(|t|) + Value(t)
    ensures |t| == 1 ==> Value(t) == t[0]
  {
    if t == [] {
      assert s + t == s;
    } else {
      var front, last := t[..|t| - 1], t[|t| - 1];
      ValueAppends(s, front);
      assert (s + t)[..|s + t| - 1] == s + front;
      assert Value(s + t) == 256 * Value(s + front) + last;
      assert Value(t) == 256 * Value(front) + last && Pow(|t|) == 256 * Pow(|front|);
      hide Value, Pow;
      MovesUp(Value(s), Pow(|front|), Value(front));
    }
  }

  lemma MovesUp(v: nat, p: nat, w: nat)
    ensures 256 * (v * p + w) == v * (256 * p) + 256 * w
  {}

  lemma {:induction false} ValueInjective(s: Bytes, t: Bytes)
    requires |s| == |t| && Value(s) == Value(t)
    ensures s == t
  {
    if s != [] {
      ValueInjective(s[..|s| - 1], t[..|t| - 1]);
      assert s == s[..|s| - 1] + [s[|s| - 1]] && t == t[..|t| - 1] + [t[|t| - 1]];
    }
  }

  /** Padding to a size that the integer fits keeps the integer and gives that size. */
  lemma LeftPadKeeps(n: nat, size: nat)
    requires n < Pow(size)
    ensures |LeftPad(Minimal(n), size)| == size && Value(LeftPad(Minimal(n), size)) == n
  {
    MinimalValue(n);
    MinimalLength(n, size);
    LeadingZeros(size - |Minimal(n)|, Minimal(n));
  }

  /** A string of that size is recovered from its integer. */
  lemma LeftPadRecovers(s: Bytes)
    ensures LeftPad(Minimal(Value(s)), |s|) == s
  {
    ValueBound(s);
    LeftPadKeeps(Value(s), |s|);
    ValueInjective(LeftPad(Minimal(Value(s)), |s|), s);
  }

  // ---- The block ---------------------------------------------------------------------

  predicate NonZero(s: Bytes) {
    forall i :: 0 <= i < |s| ==> s[i] != 0
  }

  function Framed(ps: Bytes, message: Bytes): Bytes {
    [0, 2] + ps + [0] + message
  }

  function FirstZero(s: Bytes, from: nat): (r: nat)
    requires from <= |s|
    ensures from <= r <= |s|
    ensures r < |s| ==> s[r] == 0
    ensures forall i :: from <= i < r ==> s[i] != 0
    decreases |s| - from
  {
    if from == |s| || s[from] == 0 then from else FirstZero(s, from + 1)
  }

  /** How a receiver reads a block (section 7.2.2 of RFC 8017): the message follows the first
      zero, which at least eight padding bytes precede. */
  function Recovered(block: Bytes): Option<Bytes> {
    if |block| < 2 || block[0] != 0 || block[1] != 2 then None
    else
      var z := FirstZero(block, 2);
      if z == |block| || z < 10 then None else Some(block[z + 1..])
  }

  lemma FramedRecovers(ps: Bytes, message: Bytes)
    requires NonZero(ps) && |ps| >= 8
    ensures Recovered(Framed(ps, message)) == Some(message)
  {
    var b := Framed(ps, message);
    var z := FirstZero(b, 2);
    assert b[2 + |ps|] == 0;
    assert forall i :: 2 <= i < 2 + |ps| ==> b[i] == ps[i - 2];
    assert z == 2 + |ps|;
    assert b[z + 1..] == message;
  }

  /** What a receiver accepts is exactly what is framed with eight non-zero bytes or more. */
  lemma RecoveredExact(block: Bytes, message: Bytes)
    ensures Recovered(block) == Some(message) <==>
      exists ps :: NonZero(ps) && |ps| >= 8 && block == Framed(ps, message)
  {
    if Recovered(block) == Some(message) {
      var z := FirstZero(block, 2);
      var ps := block[2..z];
      assert block == [block[0], block[1]] + ps + [block[z]] + block[z + 1..];
      assert NonZero(ps) && |ps| >= 8 && block == Framed(ps, message);
    }
    forall ps | NonZero(ps) && |ps| >= 8 && block == Framed(ps, message)
      ensures Recovered(block) == Some(message)
    {
      FramedRecovers(ps, message);
    }
  }

  // ---- Drawing the padding -----------------------------------------------------------

  predicate Zero(e: Entropy, j: nat) {
    e(j) == Some(0)
  }

  /** The non-zero bytes among the first `n` reads, in order. */
  function Kept(e: Entropy, n: nat): (r: Bytes)
    ensures NonZero(r)
  {
    if n == 0 then []
    else if e(n - 1).Some? && !Zero(e, n - 1) then Kept(e, n - 1) + [e(n - 1).value]
    else Kept(e, n - 1)
  }

  /** The reads before `n` that gave a byte other than zero. */
  ghost function Useful(e: Entropy, n: nat): set<nat> {
    set j: nat | j < n && e(j).Some? && e(j).value != 0
  }

  lemma KeptStep(e: Entropy, n: nat)
    requires n > 0
    ensures (n - 1 in Useful(e, n)) <==> e(n - 1).Some? && e(n - 1).value != 0
    ensures n - 1 !in Useful(e, n - 1)
    ensures n - 1 in Useful(e, n) ==>
      Useful(e, n) == Useful(e, n - 1) + {n - 1} && Kept(e, n) == Kept(e, n - 1) + [e(n - 1).value]
    ensures n - 1 !in Useful(e, n) ==> Useful(e, n) == Useful(e, n - 1) && Kept(e, n) == Kept(e, n - 1)
  {}

  lemma {:induction false} KeptCount(e: Entropy, n: nat)
    ensures |Kept(e, n)| == |Useful(e, n)|
  {
    if n > 0 {
      KeptCount(e, n - 1);
      KeptStep(e, n);
      hide Kept, Useful;
    }
  }

  /** Each useful read is kept, at the place given by the number of useful reads before it,
      and nothing else is. */
  lemma {:induction false} KeptInOrder(e: Entropy, n: nat, j: nat)
    requires j in Useful(e, n)
    ensures e(j).Some?
    ensures |Useful(e, j)| < |Kept(e, n)| == |Useful(e, n)| && Kept(e, n)[|Useful(e, j)|] == e(j).value
  {
    KeptCount(e, n);
    KeptCount(e, n - 1);
    KeptStep(e, n);
    if j < n - 1 {
      assert j in Useful(e, n - 1);
      KeptInOrder(e, n - 1, j);
    }
    hide Kept, Useful;
  }

  /** Read `j` is one zero too many: it and the 1024 before it are all zero. */
  ghost predicate Dry(e: Entropy, j: nat) {
    j >= MAX_RETRIES && forall k :: j - MAX_RETRIES <= k <= j ==> Zero(e, k)
  }

  ghost predicate Stops(e: Entropy, need: nat, j: nat) {
    e(j).None? || Dry(e, j) || |Kept(e, j + 1)| >= need
  }

  /** The last of `used` reads is the first that ends the drawing. */
  ghost predicate StopsAfter(e: Entropy, need: nat, used: nat) {
    used > 0 && Stops(e, need, used - 1) && forall j :: 0 <= j < used - 1 ==> !Stops(e, need, j)
  }

  datatype Error = KeyTooLong | ReadFailed | EntropyExhausted

  datatype Outcome = Ok(bytes: Bytes) | Fail(error: Error)

  /** How the drawing of `need` bytes ended, after `used` reads. */
  ghost predicate Drawn(e: Entropy, need: nat, used: nat, error: Option<Error>) {
    && StopsAfter(e, need, used)
    && used <= (MAX_RETRIES + 1) * need
    && match error
       case Some(ReadFailed) => e(used - 1).None?
       case Some(EntropyExhausted) => Dry(e, used - 1)
       case Some(KeyTooLong) => false
       case None => |Kept(e, used)| == need
  }

  /** A zero read after `retries` others is one too many exactly at the limit. */
  lemma DryIffTooMany(e: Entropy, used: nat, retries: nat)
    requires retries <= MAX_RETRIES && retries <= used && Zero(e, used)
    requires forall k :: used - retries <= k < used ==> Zero(e, k)
    requires retries < used ==> !Zero(e, used - retries - 1)
    ensures Dry(e, used) <==> retries == MAX_RETRIES
  {}

  method DrawPadding(entropy: Entropy, block: array<Byte>, padding: nat)
    returns (error: Option<Error>, used: nat)
    requires 0 < padding <= block.Length - 2
    modifies block
    ensures Drawn(entropy, padding, used, error)
    ensures error.None? ==> block[2..2 + padding] == Kept(entropy, used)
    ensures forall j :: 0 <= j < block.Length && !(2 <= j < 2 + padding) ==> block[j] == old(block[j])
  {
    used := 0;
    var retries := 0;
    var i := 0;
    while i < padding
      invariant i <= padding && retries <= MAX_RETRIES && retries <= used
      invariant used <= (MAX_RETRIES + 1) * i + retries
      invariant forall k :: used - retries <= k < used ==> Zero(entropy, k)
      invariant retries < used ==> !Zero(entropy, used - retries - 1)
      invariant i == |Kept(entropy, used)| && block[2..2 + i] == Kept(entropy, used)
      invariant i < padding ==> forall j :: 0 <= j < used ==> !Stops(entropy, padding, j)
      invariant i == padding ==> retries == 0 && StopsAfter(entropy, padding, used)
      invariant forall j :: 0 <= j < block.Length && !(2 <= j < 2 + padding) ==> block[j] == old(block[j])
      decreases padding - i, MAX_RETRIES - retries
    {
      var one := entropy(used);
      used := used + 1;
      if one.None? {
        return Some(ReadFailed), used;
      }
      if one.value == 0 {
        DryIffTooMany(entropy, used - 1, retries);
        retries := retries + 1;
        if retries > MAX_RETRIES {
          return Some(EntropyExhausted), used;
        }
      } else {
        retries := 0;
        block[2 + i] := one.value;
        i := i + 1;
      }
    }
    return None, used;
  }

  // ---- Encryption --------------------------------------------------------------------

  /** A modulus and the power that encrypts: m to m^e mod N. */
  datatype PublicKey = PublicKey(modulus: nat, power: nat -> nat)

  ghost predicate Valid(key: PublicKey) {
    forall m: nat :: key.power(m) < key.modulus
  }

  /** The modulus in whole bytes. */
  function Size(key: PublicKey): nat {
    |Minimal(key.modulus)|
  }

  method RsaEncryptPkcs1v15(entropy: Entropy, key: PublicKey, message: Bytes)
    returns (r: Outcome, used: nat)
    requires Valid(key)
    ensures r == Fail(KeyTooLong) <==> |message| > Size(key) - 11
    ensures r == Fail(KeyTooLong) ==> used == 0
    ensures r != Fail(KeyTooLong) ==> Drawn(entropy, Size(key) - |message| - 3, used,
                                            if r.Ok? then None else Some(r.error))
    ensures r.Ok? ==>
      && |Kept(entropy, used)| >= 8
      && |Framed(Kept(entropy, used), message)| == Size(key)
      && |r.bytes| == Size(key)
      && Value(r.bytes) == key.power(Value(Framed(Kept(entropy, used), message)))
  {
    hide Kept, Value, Minimal, Drawn;
    used := 0;
    var size := Size(key);
    if |message| > size - 11 {
      return Fail(KeyTooLong), used;
    }
    var block := new Byte[size](_ => 0);
    block[1] := 2;
    var padding := size - |message| - 3;
    var error;
    error, used := DrawPadding(entropy, block, padding);
    DrawnErrors(entropy, padding, used, error);
    if error.Some? {
      return Fail(error.value), used;
    }
    block[2 + padding] := 0;
    forall j | 0 <= j < |message| {
      block[3 + padding + j] := message[j];
    }
    assert block[..] == Framed(block[2..2 + padding], message);
    assert block[2..2 + padding] == Kept(entropy, used);
    var c := key.power(Value(block[..]));
    MinimalLength(key.modulus, size);
    LeftPadKeeps(c, size);
    r := Ok(LeftPad(Minimal(c), size));
  }

  lemma DrawnErrors(e: Entropy, need: nat, used: nat, error: Option<Error>)
    requires Drawn(e, need, used, error)
    ensures error != Some(KeyTooLong)
    ensures error.None? ==> |Kept(e, used)| == need
  {}

  /** A block of the key's size is an integer below the modulus, as encryption needs. */
  lemma BlockInRange(key: PublicKey, ps: Bytes, message: Bytes)
    requires |Framed(ps, message)| == Size(key)
    ensures Value(Framed(ps, message)) < key.modulus
  {
    var b := Framed(ps, message);
    assert b == Zeros(1) + b[1..];
    LeadingZeros(1, b[1..]);
    ValueBound(b[1..]);
    MinimalLength(key.modulus, |b| - 1);
  }

  /** Whoever can invert the power reads the message back from the ciphertext. */
  lemma Deciphered(key: PublicKey, inverse: nat -> nat, ps: Bytes, message: Bytes, c: Bytes)
    requires forall m: nat :: m < key.modulus ==> inverse(key.power(m)) == m
    requires NonZero(ps) && |ps| >= 8 && |Framed(ps, message)| == Size(key)
    requires Value(c) == key.power(Value(Framed(ps, message)))
    ensures Recovered(LeftPad(Minimal(inverse(Value(c))), Size(key))) == Some(message)
  {
    BlockInRange(key, ps, message);
    LeftPadRecovers(Framed(ps, message));
    FramedRecovers(ps, message);
  }
}
