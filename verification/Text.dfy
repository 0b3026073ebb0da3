/** Trimming and lower case, as the `strings` and `bytes` packages do them, on ASCII. */
module Text {

  predicate IsSpace(c: char) {
    c == ' ' || '\t' <= c <= '\r'
  }

  predicate IsLineEnd(c: char) {
    c == '\r' || c == '\n'
  }

  predicate All(s: string, p: char -> bool) {
    forall i :: 0 <= i < |s| ==> p(s[i])
  }

  function TrimLeft(s: string, p: char -> bool): string {
    if s == "" || !p(s[0]) then s else TrimLeft(s[1..], p)
  }

  function TrimRight(s: string, p: char -> bool): string {
    if s == "" || !p(s[|s| - 1]) then s else TrimRight(s[..|s| - 1], p)
  }

  lemma {:induction false} TrimLeftEnds(s: string, p: char -> bool)
    ensures var t := TrimLeft(s, p);
      |t| <= |s| && t == s[|s| - |t|..] && (t == "" || !p(t[0]))
  {
    if s != "" && p(s[0]) {
      TrimLeftEnds(s[1..], p);
    }
  }

  lemma {:induction false} TrimRightEnds(s: string, p: char -> bool)
    ensures var t := TrimRight(s, p);
      t <= s && (t == "" || !p(t[|t| - 1])) && All(s[|t|..], p)
  {
    if s != "" && p(s[|s| - 1]) {
      TrimRightEnds(s[..|s| - 1], p);
      var n := |TrimRight(s, p)|;
      forall i | 0 <= i < |s| - n
        ensures p(s[n..][i])
      {
        assert n + i < |s| - 1 ==> s[n..][i] == s[..|s| - 1][n..][i];
      }
    }
  }

  function Trim(s: string): string {
    TrimLeft(TrimRight(s, IsSpace), IsSpace)
  }

  predicate Blank(s: string) {
    Trim(s) == ""
  }

  /** Neither end of `s` is a space. */
  predicate Trimmed(s: string) {
    s == "" || (!IsSpace(s[0]) && !IsSpace(s[|s| - 1]))
  }

  lemma TrimLeftPad(a: string, s: string, p: char -> bool)
    requires All(a, p)
    ensures TrimLeft(a + s, p) == TrimLeft(s, p)
  {
    if a == "" {
      assert a + s == s;
    } else {
      assert (a + s)[1..] == a[1..] + s;
      TrimLeftPad(a[1..], s, p);
    }
  }

  lemma TrimRightPad(s: string, b: string, p: char -> bool)
    requires All(b, p)
    ensures TrimRight(s + b, p) == TrimRight(s, p)
  {
    if b == "" {
      assert s + b == s;
    } else {
      assert (s + b)[..|s + b| - 1] == s + b[..|b| - 1];
      TrimRightPad(s, b[..|b| - 1], p);
    }
  }

  /** `Trim` is determined by what it promises: drop spaces, keep the rest. */
  lemma TrimUnique(a: string, t: string, b: string)
    requires All(a, IsSpace) && All(b, IsSpace) && Trimmed(t)
    ensures Trim(a + t + b) == t
  {
    TrimRightPad(a + t, b, IsSpace);
    if t == "" {
      assert a + t == "" + a;
      TrimRightPad("", a, IsSpace);
    } else {
      assert TrimRight(a + t, IsSpace) == a + t;
      TrimLeftPad(a, t, IsSpace);
    }
  }

  lemma TrimTrims(s: string)
    ensures Trimmed(Trim(s))
  {
    var r := TrimRight(s, IsSpace);
    var t := TrimLeft(r, IsSpace);
    TrimRightEnds(s, IsSpace);
    TrimLeftEnds(r, IsSpace);
    if t != "" {
      assert t[|t| - 1] == r[|r| - 1];
    }
  }

  lemma TrimFixed(t: string)
    requires Trimmed(t)
    ensures Trim(t) == t
  {
    TrimUnique("", t, "");
    assert "" + t + "" == t;
  }

  /** `s` is `t`, which neither starts nor ends with a space, with spaces around it. */
  ghost predicate Spaced(s: string, t: string) {
    Trimmed(t) && exists a, b :: All(a, IsSpace) && All(b, IsSpace) && s == a + t + b
  }

  lemma {:induction false} TrimLeftDrops(s: string, p: char -> bool)
    ensures exists a :: All(a, p) && s == a + TrimLeft(s, p)
  {
    if s == "" || !p(s[0]) {
      assert All("", p) && s == "" + TrimLeft(s, p);
    } else {
      TrimLeftDrops(s[1..], p);
      var a :| All(a, p) && s[1..] == a + TrimLeft(s[1..], p);
      assert All([s[0]] + a, p) && s == [s[0]] + a + TrimLeft(s, p);
    }
  }

  /** Trimming takes away the spaces at both ends, all of them and nothing else. */
  lemma TrimIffSpaced(s: string, t: string)
    ensures Trim(s) == t <==> Spaced(s, t)
  {
    hide Trim, Trimmed;
    if Spaced(s, t) {
      var a, b :| All(a, IsSpace) && All(b, IsSpace) && s == a + t + b;
      TrimUnique(a, t, b);
    }
    if Trim(s) == t {
      TrimTrims(s);
      var a, b := TrimParts(s);
      hide All;
    }
  }

  lemma TrimParts(s: string) returns (a: string, b: string)
    ensures All(a, IsSpace) && All(b, IsSpace) && s == a + Trim(s) + b
  {
    var r := TrimRight(s, IsSpace);
    TrimRightEnds(s, IsSpace);
    TrimLeftDrops(r, IsSpace);
    hide All;
    a :| All(a, IsSpace) && r == a + TrimLeft(r, IsSpace);
    b := s[|r|..];
  }

  /** The ASCII white space of Go's `unicode.IsSpace`. */
  lemma SpacesAre(c: char)
    ensures IsSpace(c) <==> c in [' ', '\t', '\n', '\U{b}', '\U{c}', '\r']
  {
    if '\t' <= c <= '\r' {
      assert c as int in [9, 10, 11, 12, 13];
    }
  }

  lemma TrimPad(a: string, s: string, b: string)
    requires All(a, IsSpace) && All(b, IsSpace)
    ensures Trim(a + s + b) == Trim(s)
  {
    TrimRightPad(a + s, b, IsSpace);
    var r := TrimRight(s, IsSpace);
    TrimRightEnds(s, IsSpace);
    if r == "" {
      assert All(a + s, IsSpace);
      TrimRightPad("", a + s, IsSpace);
      assert "" + (a + s) == a + s;
    } else {
      assert a + s == a + r + s[|r|..];
      TrimRightPad(a + r, s[|r|..], IsSpace);
      assert TrimRight(a + r, IsSpace) == a + r;
      TrimLeftPad(a, r, IsSpace);
    }
  }

  lemma {:induction false} BlankIsSpaces(s: string)
    requires Blank(s)
    ensures forall i :: 0 <= i < |s| ==> IsSpace(s[i])
  {
    if s == "" {
    } else if IsSpace(s[|s| - 1]) {
      BlankIsSpaces(s[..|s| - 1]);
    } else {
      LastSurvives(s);
    }
  }

  lemma {:induction false} LastSurvives(s: string)
    requires s != "" && !IsSpace(s[|s| - 1])
    ensures TrimLeft(s, IsSpace) != ""
  {
    if IsSpace(s[0]) {
      LastSurvives(s[1..]);
    }
  }

  lemma {:induction false} SpacesAreBlank(s: string)
    requires forall i :: 0 <= i < |s| ==> IsSpace(s[i])
    ensures Blank(s)
  {
    if s != "" {
      SpacesAreBlank(s[..|s| - 1]);
    }
  }

  // ---- ASCII case ----

  function LowerChar(c: char): char {
    if 'A' <= c <= 'Z' then (c as int + 32) as char else c
  }

  function ToLower(s: string): (t: string)
    ensures |t| == |s| && forall i :: 0 <= i < |s| ==> t[i] == LowerChar(s[i])
  {
    seq(|s|, i requires 0 <= i < |s| => LowerChar(s[i]))
  }

  /** The same character, or the two cases of one ASCII letter. */
  predicate SameLetter(a: char, b: char) {
    a == b || ('A' <= a <= 'Z' && b as int == a as int + 32) || ('A' <= b <= 'Z' && a as int == b as int + 32)
  }

  lemma LowerIffSame(a: char, b: char)
    ensures LowerChar(a) == LowerChar(b) <==> SameLetter(a, b)
  {}

  predicate OccursAt(s: string, pat: string, p: nat) {
    p + |pat| <= |s| && s[p..p + |pat|] == pat
  }

  predicate Contains(s: string, pat: string) {
    exists p :: 0 <= p <= |s| && OccursAt(s, pat, p)
  }
}
