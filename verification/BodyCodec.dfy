/** The request body encoding (cosy/encoding.go): strict base64 over a private alphabet
    (section 4 of RFC 4648), then the outer thirds swapped. The base64 laws hold for
    every alphabet that base64.NewEncoding takes. */
module BodyCodec {
  import opened Prelude

  type Sextet = x: int | 0 <= x < 64

  datatype Code = Code(digits: string, padding: char)

  /** 64 different digits, no padding or line break among them. */
  ghost predicate Usable(e: Code) {
    && |e.digits| == 64 && Distinct(e.digits)
    && e.padding !in e.digits && '\n' !in e.digits && '\r' !in e.digits
    && e.padding != '\n' && e.padding != '\r'
  }

  // ---- The alphabet in use ----

  const ALPHABET := "_doRTgHZBKcGVjlv" + "pC,@aFSx#DPuNJme" + "&i*MzLOEn)sUrthb" + "f%Y^w.(kIQyXqWA!"
  const PADDING := '$'

  /** The alphabet's inverse written out. */
  function Inverse(c: char): Option<Sextet> {
    match c
    case '_' => Some(0) case 'd' => Some(1) case 'o' => Some(2) case 'R' => Some(3)
    case 'T' => Some(4) case 'g' => Some(5) case 'H' => Some(6) case 'Z' => Some(7)
    case 'B' => Some(8) case 'K' => Some(9) case 'c' => Some(10) case 'G' => Some(11)
    case 'V' => Some(12) case 'j' => Some(13) case 'l' => Some(14) case 'v' => Some(15)
    case 'p' => Some(16) case 'C' => Some(17) case ',' => Some(18) case '@' => Some(19)
    case 'a' => Some(20) case 'F' => Some(21) case 'S' => Some(22) case 'x' => Some(23)
    case '#' => Some(24) case 'D' => Some(25) case 'P' => Some(26) case 'u' => Some(27)
    case 'N' => Some(28) case 'J' => Some(29) case 'm' => Some(30) case 'e' => Some(31)
    case '&' => Some(32) case 'i' => Some(33) case '*' => Some(34) case 'M' => Some(35)
    case 'z' => Some(36) case 'L' => Some(37) case 'O' => Some(38) case 'E' => Some(39)
    case 'n' => Some(40) case ')' => Some(41) case 's' => Some(42) case 'U' => Some(43)
    case 'r' => Some(44) case 't' => Some(45) case 'h' => Some(46) case 'b' => Some(47)
    case 'f' => Some(48) case '%' => Some(49) case 'Y' => Some(50) case '^' => Some(51)
    case 'w' => Some(52) case '.' => Some(53) case '(' => Some(54) case 'k' => Some(55)
    case 'I' => Some(56) case 'Q' => Some(57) case 'y' => Some(58) case 'X' => Some(59)
    case 'q' => Some(60) case 'W' => Some(61) case 'A' => Some(62) case '!' => Some(63)
    case _ => None
  }

  lemma InverseOf(v: Sextet)
    ensures Inverse(ALPHABET[v]) == Some(v)
  {
    if v < 16 {
      InverseOf0(v);
    } else if v < 32 {
      InverseOf1(v);
    } else if v < 48 {
      InverseOf2(v);
    } else {
      InverseOf3(v);
    }
  }

  lemma InverseOf0(v: Sextet)
    requires v < 16
    ensures Inverse(ALPHABET[v]) == Some(v)
  {}

  lemma InverseOf1(v: Sextet)
    requires 16 <= v < 32
    ensures Inverse(ALPHABET[v]) == Some(v)
  {}

  lemma InverseOf2(v: Sextet)
    requires 32 <= v < 48
    ensures Inverse(ALPHABET[v]) == Some(v)
  {}

  lemma InverseOf3(v: Sextet)
    requires 48 <= v
    ensures Inverse(ALPHABET[v]) == Some(v)
  {}

  /** Digits that have an inverse are all different, and nothing without one is a digit. */
  lemma InvertedIsUsable(digits: string, padding: char)
    requires |digits| == 64 && forall v: Sextet :: Inverse(digits[v]) == Some(v)
    requires Inverse(padding).None? && Inverse('\n').None? && Inverse('\r').None?
    requires padding != '\n' && padding != '\r'
    ensures Usable(Code(digits, padding))
  {
    hide Inverse;
    forall i, j | 0 <= i < j < |digits|
      ensures Apart(digits, i, j)
    {
      var v: Sextet, w: Sextet := i, j;
      assert Inverse(digits[v]) != Inverse(digits[w]);
    }
    forall c | Inverse(c).None?
      ensures c !in digits
    {}
  }

  /** The private alphabet has no character twice, and neither padding nor line breaks. */
  lemma AlphabetIsUsable()
    ensures Usable(Code(ALPHABET, PADDING))
  {
    forall v: Sextet
      ensures Inverse(ALPHABET[v]) == Some(v)
    {
      InverseOf(v);
    }
    NotDigits();
    hide Inverse, Usable;
    InvertedIsUsable(ALPHABET, PADDING);
  }

  lemma NotDigits()
    ensures Inverse(PADDING).None? && Inverse('\n').None? && Inverse('\r').None?
    ensures |ALPHABET| == 64 && PADDING != '\n' && PADDING != '\r'
  {}

  // ---- Digits ----

  type Encoding = e: Code | Usable(e) witness (AlphabetIsUsable(); Code(ALPHABET, PADDING))

  function Digit(e: Encoding, v: Sextet): char {
    e.digits[v]
  }

  /** The place of `c` among the first `n` digits. */
  function Place(e: Encoding, c: char, n: nat): (r: Option<Sextet>)
    requires n <= 64
    ensures r.Some? ==> r.value < n && Digit(e, r.value) == c
    ensures r.None? ==> forall v: Sextet :: v < n ==> Digit(e, v) != c
    decreases n
  {
    if n == 0 then None else if Digit(e, n - 1) == c then Some(n - 1) else Place(e, c, n - 1)
  }

  /** The decoding table: the place of each character of the alphabet. */
  function Rank(e: Encoding, c: char): Option<Sextet> {
    Place(e, c, 64)
  }

  /** The table undoes the alphabet. */
  lemma RankOfDigit(e: Encoding, v: Sextet)
    ensures Rank(e, Digit(e, v)) == Some(v)
  {
    var r := Place(e, Digit(e, v), 64);
    if r.value != v {
      DistinctAt(e.digits, r.value, v);
    }
  }

  lemma DigitOfRank(e: Encoding, c: char)
    requires Rank(e, c).Some?
    ensures Digit(e, Rank(e, c).value) == c
  {}

  // ---- Strict base64 ----

  // Four sextets hold the bits of three bytes.

  function Sextet0(a: Byte): Sextet { a / 4 }
  function Sextet1(a: Byte, b: Byte): Sextet { a % 4 * 16 + b / 16 }
  function Sextet2(b: Byte, c: Byte): Sextet { b % 16 * 4 + c / 64 }
  function Sextet3(c: Byte): Sextet { c % 64 }

  function Byte0(p: Sextet, q: Sextet): Byte { p * 4 + q / 16 }
  function Byte1(q: Sextet, r: Sextet): Byte { q % 16 * 16 + r / 4 }
  function Byte2(r: Sextet, t: Sextet): Byte { r % 4 * 64 + t }

  /** The sextets of three bytes are the base-64 digits of the 24-bit number they form. */
  lemma SextetsAreDigits(a: Byte, b: Byte, c: Byte)
    ensures (a * 256 + b) * 256 + c
      == ((Sextet0(a) * 64 + Sextet1(a, b)) * 64 + Sextet2(b, c)) * 64 + Sextet3(c)
  {}

  /** Splitting three bytes into sextets and joining them again. */
  lemma SplitJoin(a: Byte, b: Byte, c: Byte)
    ensures Byte0(Sextet0(a), Sextet1(a, b)) == a
    ensures Byte1(Sextet1(a, b), Sextet2(b, c)) == b
    ensures Byte2(Sextet2(b, c), Sextet3(c)) == c
    ensures Sextet1(a, 0) % 16 == 0 && Sextet2(b, 0) % 4 == 0
  {
    ComeApart(a % 4, b / 16, 16);
    ComeApart(b % 16, c / 64, 4);
  }

  /** A high and a low digit come apart again. */
  lemma ComeApart(high: nat, low: nat, base: nat)
    requires low < base && (base == 4 || base == 16)
    ensures (high * base + low) / base == high && (high * base + low) % base == low
  {}

  /** Joining four sextets into bytes and splitting them again. */
  lemma JoinSplit(p: Sextet, q: Sextet, r: Sextet, t: Sextet)
    ensures var a, b, c := Byte0(p, q), Byte1(q, r), Byte2(r, t);
      Sextet0(a) == p && Sextet1(a, b) == q && Sextet2(b, c) == r && Sextet3(c) == t
    ensures q % 16 == 0 ==> Sextet1(Byte0(p, q), 0) == q
    ensures r % 4 == 0 ==> Sextet2(Byte1(q, r), 0) == r
  {}

  function Encode(e: Encoding, raw: seq<Byte>): string {
    if raw == [] then ""
    else if |raw| == 1 then
      [Digit(e, Sextet0(raw[0])), Digit(e, Sextet1(raw[0], 0)), e.padding, e.padding]
    else if |raw| == 2 then
      [Digit(e, Sextet0(raw[0])), Digit(e, Sextet1(raw[0], raw[1])), Digit(e, Sextet2(raw[1], 0)), e.padding]
    else
      Quantum(e, raw[0], raw[1], raw[2]) + Encode(e, raw[3..])
  }

  /** Three bytes as four digits. */
  function Quantum(e: Encoding, a: Byte, b: Byte, c: Byte): (s: string)
    ensures |s| == 4
  {
    [Digit(e, Sextet0(a)), Digit(e, Sextet1(a, b)), Digit(e, Sextet2(b, c)), Digit(e, Sextet3(c))]
  }

  /** Strict decoding: whole quanta, padding only at the end, no stray bits under it. */
  function Decode(e: Encoding, s: string): Option<seq<Byte>> {
    if s == "" then Some([])
    else if |s| < 4 || Rank(e, s[0]).None? || Rank(e, s[1]).None? then None
    else
      var p, q := Rank(e, s[0]).value, Rank(e, s[1]).value;
      if s[2] == e.padding then
        if s[3] == e.padding && |s| == 4 && q % 16 == 0 then Some([Byte0(p, q)]) else None
      else if Rank(e, s[2]).None? then None
      else
        var r := Rank(e, s[2]).value;
        if s[3] == e.padding then
          if |s| == 4 && r % 4 == 0 then Some([Byte0(p, q), Byte1(q, r)]) else None
        else if Rank(e, s[3]).None? then None
        else
          var rest := Decode(e, s[4..]);
          if rest.None? then None
          else Some([Byte0(p, q), Byte1(q, r), Byte2(r, Rank(e, s[3]).value)] + rest.value)
  }

  lemma {:induction false} EncodeLength(e: Encoding, raw: seq<Byte>)
    ensures |Encode(e, raw)| == (|raw| + 2) / 3 * 4
  {
    hide Digit, Usable, Sextet0, Sextet1, Sextet2, Sextet3;
    if |raw| >= 3 {
      EncodeLength(e, raw[3..]);
      hide Quantum;
      assert |Encode(e, raw)| == 4 + |Encode(e, raw[3..])|;
    }
  }

  predicate IsEncodedChar(e: Encoding, s: string, i: nat)
    requires i < |s|
  {
    Rank(e, s[i]).Some? || (s[i] == e.padding && i >= |s| - 2)
  }

  /** Encoded text is over the alphabet, with at most two padding characters at its end. */
  lemma {:induction false} EncodeAlphabet(e: Encoding, raw: seq<Byte>, i: nat)
    requires i < |Encode(e, raw)|
    ensures IsEncodedChar(e, Encode(e, raw), i)
  {
    hide Digit, Rank, Sextet0, Sextet1, Sextet2, Sextet3;
    if |raw| == 1 {
      RankOfDigit(e, Sextet0(raw[0]));
      RankOfDigit(e, Sextet1(raw[0], 0));
    } else if |raw| == 2 {
      QuantumRanks(e, raw[0], raw[1], 0);
    } else if i < 4 {
      QuantumRanks(e, raw[0], raw[1], raw[2]);
    } else {
      EncodeAlphabet(e, raw[3..], i - 4);
    }
  }

  lemma QuantumRanks(e: Encoding, a: Byte, b: Byte, c: Byte)
    ensures Rank(e, Digit(e, Sextet0(a))) == Some(Sextet0(a)) && Rank(e, Digit(e, Sextet1(a, b))) == Some(Sextet1(a, b))
    ensures Rank(e, Digit(e, Sextet2(b, c))) == Some(Sextet2(b, c)) && Rank(e, Digit(e, Sextet3(c))) == Some(Sextet3(c))
  {
    RankOfDigit(e, Sextet0(a));
    RankOfDigit(e, Sextet1(a, b));
    RankOfDigit(e, Sextet2(b, c));
    RankOfDigit(e, Sextet3(c));
  }

  lemma PaddingHasNoRank(e: Encoding)
    ensures Rank(e, e.padding).None? && Rank(e, '\n').None? && Rank(e, '\r').None?
  {}

  lemma DecodeQuantum(e: Encoding, a: Byte, b: Byte, c: Byte, rest: string)
    ensures Decode(e, Quantum(e, a, b, c) + rest) ==
      if Decode(e, rest).None? then None else Some([a, b, c] + Decode(e, rest).value)
  {
    hide Rank, Digit, Sextet0, Sextet1, Sextet2, Sextet3, Byte0, Byte1, Byte2;
    PaddingHasNoRank(e);
    QuantumRanks(e, a, b, c);
    SplitJoin(a, b, c);
    assert (Quantum(e, a, b, c) + rest)[4..] == rest;
  }

  lemma {:induction false} DecodeEncode(e: Encoding, raw: seq<Byte>)
    ensures Decode(e, Encode(e, raw)) == Some(raw)
  {
    hide Rank, Digit, Sextet0, Sextet1, Sextet2, Sextet3, Byte0, Byte1, Byte2;
    PaddingHasNoRank(e);
    if raw == [] {
    } else if |raw| == 1 {
      QuantumRanks(e, raw[0], 0, 0);
      SplitJoin(raw[0], 0, 0);
      assert raw == [raw[0]];
    } else if |raw| == 2 {
      QuantumRanks(e, raw[0], raw[1], 0);
      SplitJoin(raw[0], raw[1], 0);
      assert raw == [raw[0], raw[1]];
    } else {
      DecodeEncode(e, raw[3..]);
      DecodeQuantum(e, raw[0], raw[1], raw[2], Encode(e, raw[3..]));
      hide Decode;
      assert raw == [raw[0], raw[1], raw[2]] + raw[3..];
    }
  }

  lemma {:induction false} EncodeDecode(e: Encoding, s: string)
    requires Decode(e, s).Some?
    ensures Encode(e, Decode(e, s).value) == s
  {
    hide Rank, Digit, Sextet0, Sextet1, Sextet2, Sextet3, Byte0, Byte1, Byte2;
    if s != "" {
      PaddingHasNoRank(e);
      DigitOfRank(e, s[0]);
      DigitOfRank(e, s[1]);
      var p, q := Rank(e, s[0]).value, Rank(e, s[1]).value;
      if s[2] == e.padding {
        JoinSplit(p, q, 0, 0);
        assert s == [s[0], s[1], e.padding, e.padding];
      } else {
        DigitOfRank(e, s[2]);
        var r := Rank(e, s[2]).value;
        if s[3] == e.padding {
          JoinSplit(p, q, r, 0);
          assert s == [s[0], s[1], s[2], e.padding];
        } else {
          DigitOfRank(e, s[3]);
          EncodeDecode(e, s[4..]);
          JoinSplit(p, q, r, Rank(e, s[3]).value);
          assert Decode(e, s).value[3..] == Decode(e, s[4..]).value;
          assert s == [s[0], s[1], s[2], s[3]] + s[4..];
        }
      }
    }
  }

  /** Decoding succeeds with `raw` on exactly one text: its encoding. */
  lemma DecodeExact(e: Encoding, s: string, raw: seq<Byte>)
    ensures Decode(e, s) == Some(raw) <==> s == Encode(e, raw)
  {
    DecodeEncode(e, raw);
    if Decode(e, s) == Some(raw) {
      EncodeDecode(e, s);
    }
  }

  /** Whole groups of three bytes are encoded on their own. */
  lemma {:induction false} EncodeAppends(e: Encoding, whole: seq<Byte>, rest: seq<Byte>)
    requires |whole| % 3 == 0
    ensures Encode(e, whole + rest) == Encode(e, whole) + Encode(e, rest)
  {
    if whole == [] {
      assert whole + rest == rest;
    } else {
      var all := whole + rest;
      assert |whole[3..]| % 3 == 0 && all[3..] == whole[3..] + rest;
      EncodeGroup(e, whole);
      EncodeGroup(e, all);
      EncodeAppends(e, whole[3..], rest);
      hide Encode;
      assert all[0] == whole[0] && all[1] == whole[1] && all[2] == whole[2];
    }
  }

  lemma EncodeGroup(e: Encoding, raw: seq<Byte>)
    requires |raw| >= 3
    ensures Encode(e, raw) == Quantum(e, raw[0], raw[1], raw[2]) + Encode(e, raw[3..])
  {
    hide Usable, Digit, Quantum;
  }

  /** A group of three bytes becomes the four characters whose places in the alphabet are the
      base-64 digits of the 24-bit number that the bytes form. A shorter group is encoded as if
      zero bytes followed, with padding in place of the characters that hold none of its bits. */
  lemma GroupIsNumber(e: Encoding, a: Byte, b: Byte, c: Byte) returns (p: Sextet, q: Sextet, r: Sextet, t: Sextet)
    ensures Encode(e, [a, b, c]) == [e.digits[p], e.digits[q], e.digits[r], e.digits[t]]
    ensures ((p * 64 + q) * 64 + r) * 64 + t == (a * 256 + b) * 256 + c
    ensures Encode(e, [a, b]) == Encode(e, [a, b, 0])[..3] + [e.padding]
    ensures Encode(e, [a]) == Encode(e, [a, 0, 0])[..2] + [e.padding, e.padding]
  {
    hide Usable;
    p, q, r, t := Sextet0(a), Sextet1(a, b), Sextet2(b, c), Sextet3(c);
    SextetsAreDigits(a, b, c);
    EncodeOne(e, a, b, c);
    EncodeOne(e, a, b, 0);
    EncodeOne(e, a, 0, 0);
    hide Sextet0, Sextet1, Sextet2, Sextet3;
  }

  lemma EncodeOne(e: Encoding, a: Byte, b: Byte, c: Byte)
    ensures Encode(e, [a, b, c]) == Quantum(e, a, b, c)
  {
    EncodeGroup(e, [a, b, c]);
    assert Encode(e, [a, b, c][3..]) == "";
  }

  // ---- The swap ----

  /** Trailing third, middle, leading third; the middle takes the remainder. */
  function SwapOuterThirds<T>(src: seq<T>): (out: seq<T>)
    ensures |out| == |src|
  {
    var q := |src| / 3;
    src[|src| - q..] + src[q..|src| - q] + src[..q]
  }

  /** Where the element at `i` of the result comes from. */
  function Source(n: nat, i: nat): nat
    requires i < n
  {
    var q := n / 3;
    if i < q then n - q + i else if i < n - q then i else i - (n - q)
  }

  /** The swap is the permutation `Source`, which is its own inverse, for every length. */
  lemma SwapIsInvolution<T>(src: seq<T>)
    ensures forall i :: 0 <= i < |src| ==> SwapOuterThirds(src)[i] == src[Source(|src|, i)]
    ensures forall i :: 0 <= i < |src| ==> Source(|src|, i) < |src| && Source(|src|, Source(|src|, i)) == i
    ensures SwapOuterThirds(SwapOuterThirds(src)) == src
  {
    var out := SwapOuterThirds(src);
    assert SwapOuterThirds(out) == src;
  }

  /** In parts: the outer thirds change places and the middle stays. */
  lemma SwapsOuterThirds<T>(a: seq<T>, b: seq<T>, c: seq<T>)
    requires |a| == |c| == |a + b + c| / 3
    ensures SwapOuterThirds(a + b + c) == c + b + a
  {
    var s := a + b + c;
    assert s[|s| - |a|..] == c && s[|a|..|s| - |a|] == b && s[..|a|] == a;
  }

  // ---- The body codec ----

  function Body(): Encoding {
    AlphabetIsUsable();
    Code(ALPHABET, PADDING)
  }

  /** The decoder skips line breaks wherever they stand. */
  function StripBreaks(s: string): string {
    if s == "" then ""
    else (if s[0] == '\r' || s[0] == '\n' then "" else [s[0]]) + StripBreaks(s[1..])
  }

  function EncodeBody(raw: seq<Byte>): string {
    SwapOuterThirds(Encode(Body(), raw))
  }

  /** None stands for the nil slice returned on an error. */
  function DecodeBody(encoded: string): Option<seq<Byte>> {
    Decode(Body(), StripBreaks(SwapOuterThirds(encoded)))
  }

  /** Line breaks are dropped and everything else is kept, in order. */
  lemma {:induction false} BreaksAreDropped(s: string, t: string, c: char)
    ensures StripBreaks(s + t) == StripBreaks(s) + StripBreaks(t)
    ensures StripBreaks([c]) == if c == '\n' || c == '\r' then "" else [c]
  {
    assert [c][1..] == "";
    if s == "" {
      assert s + t == t;
    } else {
      assert (s + t)[1..] == s[1..] + t;
      BreaksAreDropped(s[1..], t, c);
    }
  }

  lemma {:induction false} NothingToStrip(s: string)
    requires forall i :: 0 <= i < |s| ==> s[i] != '\r' && s[i] != '\n'
    ensures StripBreaks(s) == s
  {
    if s != "" {
      NothingToStrip(s[1..]);
      assert s == [s[0]] + s[1..];
    }
  }

  lemma EncodeHasNoBreaks(raw: seq<Byte>)
    ensures StripBreaks(Encode(Body(), raw)) == Encode(Body(), raw)
  {
    var s := Encode(Body(), raw);
    forall i | 0 <= i < |s|
      ensures s[i] != '\r' && s[i] != '\n'
    {
      EncodeAlphabet(Body(), raw, i);
      PaddingHasNoRank(Body());
    }
    NothingToStrip(s);
  }

  /** Decoding undoes encoding for every byte sequence. */
  lemma BodyRoundTrip(raw: seq<Byte>)
    ensures DecodeBody(EncodeBody(raw)) == Some(raw)
    ensures |EncodeBody(raw)| == (|raw| + 2) / 3 * 4
  {
    SwapIsInvolution(Encode(Body(), raw));
    EncodeHasNoBreaks(raw);
    DecodeEncode(Body(), raw);
    EncodeLength(Body(), raw);
  }

  /** Exactly the texts that decode to `raw`: those that give its encoding once the
      thirds are swapped back and line breaks dropped. */
  lemma BodyExact(encoded: string, raw: seq<Byte>)
    ensures DecodeBody(encoded) == Some(raw) <==> StripBreaks(SwapOuterThirds(encoded)) == Encode(Body(), raw)
  {
    DecodeExact(Body(), StripBreaks(SwapOuterThirds(encoded)), raw);
  }
}
