/** Detection of the rate-limit phrase in text that arrives in pieces
    (qoderstream.go IsRateLimitText, sse.go rateTail). */
module RateLimit {
  import opened Prelude
  import opened Text

  const DASHED := "available upstream accounts are rate-limited"
  const SPACED := "available upstream accounts are rate limited"
  const LENGTH := 44
  const MAX_TAIL := 96

  predicate IsRateLimitText(content: string) {
    Contains(ToLower(content), DASHED) || Contains(ToLower(content), SPACED)
  }

  function RateTail(prev: string, add: string): string {
    var s := prev + add;
    if |s| > MAX_TAIL then s[|s| - MAX_TAIL..] else s
  }

  // ---- Occurrences ----

  /** One of the two phrases stands at position `p`, in any ASCII case. */
  predicate PhraseAt(s: string, p: nat) {
    OccursAt(ToLower(s), DASHED, p) || OccursAt(ToLower(s), SPACED, p)
  }

  lemma TextIffPhrase(s: string)
    ensures IsRateLimitText(s) <==> exists p: nat :: PhraseAt(s, p)
  {
    hide OccursAt, ToLower;
    if IsRateLimitText(s) {
      var p: nat :| OccursAt(ToLower(s), DASHED, p) || OccursAt(ToLower(s), SPACED, p);
      assert PhraseAt(s, p);
    }
    if p: nat :| PhraseAt(s, p) {
      assert p <= |s| by {
        InRange(s, p);
      }
    }
  }

  /** The phrase is read at `p`, letter by letter, in capitals or not. */
  ghost predicate ReadsAt(s: string, phrase: string, p: nat) {
    p + |phrase| <= |s| && forall q :: 0 <= q < |phrase| ==> SameLetter(s[p + q], phrase[q])
  }

  lemma OccursIffReads(s: string, phrase: string, p: nat)
    requires forall q :: 0 <= q < |phrase| ==> LowerChar(phrase[q]) == phrase[q]
    ensures OccursAt(ToLower(s), phrase, p) <==> ReadsAt(s, phrase, p)
  {
    if p + |phrase| <= |s| {
      var t := ToLower(s)[p..p + |phrase|];
      forall q | 0 <= q < |phrase|
        ensures t[q] == phrase[q] <==> SameLetter(s[p + q], phrase[q])
      {
        assert t[q] == LowerChar(s[p + q]);
        LowerIffSame(s[p + q], phrase[q]);
      }
      hide SameLetter, LowerChar, ToLower;
      assert t == phrase <==> forall q :: 0 <= q < |phrase| ==> t[q] == phrase[q];
    }
  }

  /** Text is flagged exactly when one of the two phrases can be read in it, letter by
      letter, whichever letters are capitals. */
  lemma FlaggedIffRead(s: string)
    ensures IsRateLimitText(s) <==> exists p: nat :: ReadsAt(s, DASHED, p) || ReadsAt(s, SPACED, p)
  {
    TextIffPhrase(s);
    forall p: nat
      ensures PhraseAt(s, p) <==> ReadsAt(s, DASHED, p) || ReadsAt(s, SPACED, p)
    {
      forall q | 0 <= q < LENGTH
        ensures LowerChar(DASHED[q]) == DASHED[q] && LowerChar(SPACED[q]) == SPACED[q]
      {
        LowerFixed(q);
      }
      hide LowerChar, ReadsAt, OccursAt;
      OccursIffReads(s, DASHED, p);
      OccursIffReads(s, SPACED, p);
    }
    hide IsRateLimitText, PhraseAt, ReadsAt;
  }

  lemma InRange(s: string, p: nat)
    requires PhraseAt(s, p)
    ensures p + LENGTH <= |s|
  {}

  /** Whether a phrase stands at `p` depends on the 44 characters there alone. */
  lemma PhraseIsLocal(s: string, p: nat, t: string, q: nat)
    requires p + LENGTH <= |s| && q + LENGTH <= |t|
    requires ToLower(s[p..p + LENGTH]) == ToLower(t[q..q + LENGTH])
    ensures PhraseAt(s, p) <==> PhraseAt(t, q)
  {
    assert ToLower(s)[p..p + LENGTH] == ToLower(s[p..p + LENGTH]);
    assert ToLower(t)[q..q + LENGTH] == ToLower(t[q..q + LENGTH]);
  }

  lemma NoLaterV(q: nat)
    requires 2 <= q < LENGTH
    ensures DASHED[q] != 'v' && SPACED[q] != 'v'
  {}

  lemma LowerFixed(q: nat)
    requires q < LENGTH
    ensures LowerChar(DASHED[q]) == DASHED[q] && LowerChar(SPACED[q]) == SPACED[q]
  {}

  // ---- The tail ----

  /** The last 96 characters of `s`, or all of it. */
  function TailOf(s: string): string {
    if |s| > MAX_TAIL then s[|s| - MAX_TAIL..] else s
  }

  lemma DropDrop(s: string, d: nat, k: nat)
    requires d + k <= |s|
    ensures s[d..][k..] == s[d + k..]
  {}

  lemma DropAppend(s: string, d: nat, t: string)
    requires d <= |s|
    ensures (s + t)[d..] == s[d..] + t
  {}

  /** The last 96 characters of what is left after dropping some are the same. */
  lemma TailOfDrop(s: string, d: nat)
    requires d + MAX_TAIL <= |s|
    ensures TailOf(s[d..]) == TailOf(s)
  {
    DropDrop(s, d, |s| - d - MAX_TAIL);
  }

  /** The rolling tail of a run of text is always the last 96 characters of the run. */
  lemma TailIsLast(run: string, add: string)
    ensures RateTail(TailOf(run), add) == TailOf(run + add)
  {
    if |run| > MAX_TAIL {
      var d := |run| - MAX_TAIL;
      DropAppend(run, d, add);
      TailOfDrop(run + add, d);
    }
  }

  /** The tail is flagged exactly when a phrase stands within the last 96 characters. */
  lemma TailExact(s: string)
    ensures IsRateLimitText(TailOf(s)) <==> exists p: nat :: p + MAX_TAIL >= |s| && PhraseAt(s, p)
  {
    var d := |s| - |TailOf(s)|;
    TextIffPhrase(TailOf(s));
    forall p: nat | p >= d && p + LENGTH <= |s|
      ensures PhraseAt(s, p) <==> PhraseAt(TailOf(s), p - d)
    {
      PhraseIsLocal(s, p, TailOf(s), p - d);
    }
    if p: nat :| PhraseAt(TailOf(s), p) {
      InRange(TailOf(s), p);
      assert PhraseAt(s, p + d);
    }
    if p: nat :| p + MAX_TAIL >= |s| && PhraseAt(s, p) {
      InRange(s, p);
      assert PhraseAt(TailOf(s), p - d);
    }
  }

  // ---- When the rolling detector equals the naive one ----

  /** The detector raises on `add` after a run of text: classifyChoices looks at the
      delta alone, dispatch at the rolling tail. */
  predicate Raised(run: string, add: string) {
    IsRateLimitText(add) || IsRateLimitText(RateTail(TailOf(run), add))
  }

  /** `add` starts with the last `j` characters of a phrase. */
  predicate Completes(add: string, j: nat)
    requires j <= |add| && j <= LENGTH
  {
    ToLower(add[..j]) == DASHED[LENGTH - j..] || ToLower(add[..j]) == SPACED[LENGTH - j..]
  }

  /** No phrase can end in `add` with more than 52 characters after its end. In
      particular, any delta of at most 53 characters is safe. */
  predicate SafeDelta(add: string) {
    forall j :: 1 <= j < LENGTH && j + 52 < |add| ==> !Completes(add, j)
  }

  /** No text without the phrase is ever flagged. */
  lemma NoFalseAlarm(run: string, add: string)
    requires Raised(run, add)
    ensures IsRateLimitText(run + add)
  {
    hide PhraseAt, IsRateLimitText, ToLower;
    TextIffPhrase(run + add);
    TextIffPhrase(add);
    TailIsLast(run, add);
    TailExact(run + add);
    if p: nat :| PhraseAt(add, p) {
      InRange(add, p);
      assert (run + add)[|run| + p..|run| + p + LENGTH] == add[p..p + LENGTH];
      PhraseIsLocal(run + add, |run| + p, add, p);
    }
  }

  lemma SafeCatches(run: string, add: string)
    requires SafeDelta(add) && !IsRateLimitText(run) && IsRateLimitText(run + add)
    ensures Raised(run, add)
  {
    var s := run + add;
    TextIffPhrase(s);
    TextIffPhrase(run);
    TextIffPhrase(add);
    TailIsLast(run, add);
    TailExact(s);
    var p: nat :| PhraseAt(s, p);
    InRange(s, p);
    if p + LENGTH <= |run| {
      PhraseIsLocal(s, p, run, p);
      assert false;
    } else if p >= |run| {
      PhraseIsLocal(s, p, add, p - |run|);
    } else {
      var j := p + LENGTH - |run|;
      CompletesHere(run, add, p);
      assert j + 52 >= |add|;
    }
  }

  lemma CompletesHere(run: string, add: string, p: nat)
    requires PhraseAt(run + add, p) && p < |run| < p + LENGTH <= |run| + |add|
    ensures Completes(add, p + LENGTH - |run|)
  {
    if OccursAt(ToLower(run + add), DASHED, p) {
      EndsInside(run, add, p, DASHED);
    } else {
      EndsInside(run, add, p, SPACED);
    }
  }

  lemma EndsInside(run: string, add: string, p: nat, pat: string)
    requires |pat| == LENGTH && OccursAt(ToLower(run + add), pat, p)
    requires p < |run| < p + LENGTH <= |run| + |add|
    ensures ToLower(add[..p + LENGTH - |run|]) == pat[|run| - p..]
  {
    var s, j := ToLower(run + add), p + LENGTH - |run|;
    forall i | 0 <= i < j
      ensures ToLower(add[..j])[i] == pat[|run| - p..][i]
    {
      assert s[p..p + LENGTH][|run| - p + i] == s[|run| + i];
    }
  }

  lemma StartsWithAV(s: string, p: nat)
    requires PhraseAt(s, p)
    ensures p + LENGTH <= |s| && LowerChar(s[p]) == 'a' && LowerChar(s[p + 1]) == 'v'
  {
    assert ToLower(s)[p..p + LENGTH][0] == 'a' && ToLower(s)[p..p + LENGTH][1] == 'v';
  }

  lemma NoPhraseWithoutA(s: string)
    requires forall i :: 0 <= i < |s| ==> LowerChar(s[i]) != 'a'
    ensures !IsRateLimitText(s)
  {
    hide IsRateLimitText, PhraseAt, LowerChar;
    TextIffPhrase(s);
    if p: nat :| PhraseAt(s, p) {
      StartsWithAV(s, p);
      assert false;
    }
  }

  lemma LastLetter(add: string)
    requires add != "" && add[0] == 'd'
    ensures Completes(add, 1)
  {
    assert DASHED[43..] == "d";
    assert add[..1] == "d";
  }

  /** Missing characters of a phrase, put in front, complete it at position 0. */
  lemma Rejoins(phrase: string, add: string, j: nat)
    requires |phrase| == LENGTH && ToLower(phrase) == phrase && 1 <= j < LENGTH && j <= |add|
    requires ToLower(add[..j]) == phrase[LENGTH - j..]
    ensures OccursAt(ToLower(phrase[..LENGTH - j] + add), phrase, 0)
  {
    var s := phrase[..LENGTH - j] + add;
    forall i | 0 <= i < LENGTH
      ensures ToLower(s)[i] == phrase[i]
    {
      if i < LENGTH - j {
        assert s[i] == phrase[i] && ToLower(phrase)[i] == phrase[i];
      } else {
        var k := i - (LENGTH - j);
        assert s[i] == add[..j][k] && ToLower(add[..j])[k] == phrase[LENGTH - j..][k];
      }
    }
    assert ToLower(s)[0..LENGTH] == phrase;
  }

  lemma PhrasesAreLower()
    ensures ToLower(DASHED) == DASHED && ToLower(SPACED) == SPACED
  {
    forall q | 0 <= q < LENGTH
      ensures LowerChar(DASHED[q]) == DASHED[q] && LowerChar(SPACED[q]) == SPACED[q]
    {
      LowerFixed(q);
    }
  }

  /** No phrase starts inside the first 44 characters of one, except at 0. */
  lemma NoOverlap(s: string, p: nat)
    requires PhraseAt(s, 0) && 1 <= p < LENGTH - 1
    ensures !PhraseAt(s, p)
  {
    if PhraseAt(s, p) {
      StartsWithAV(s, p);
      assert ToLower(s)[0..LENGTH][p + 1] == 'v';
      NoLaterV(p + 1);
    }
  }

  /** A delta that is not safe escapes after some run: the phrase is there, and no
      part of it is left in the tail. */
  lemma UnsafeEscapes(add: string, j: nat) returns (run: string)
    requires !IsRateLimitText(add) && 1 <= j < LENGTH && j + 52 < |add| && Completes(add, j)
    ensures !IsRateLimitText(run) && IsRateLimitText(run + add) && !Raised(run, add)
  {
    PhrasesAreLower();
    var phrase := if ToLower(add[..j]) == DASHED[LENGTH - j..] then DASHED else SPACED;
    run := phrase[..LENGTH - j];
    Rejoins(phrase, add, j);
    assert PhraseAt(run + add, 0);
    hide OccursAt, IsRateLimitText, Completes;
    TextIffPhrase(run + add);
    TextIffPhrase(run);
    TextIffPhrase(add);
    TailIsLast(run, add);
    TailExact(run + add);
    forall p: nat
      ensures !PhraseAt(run, p)
      ensures p + MAX_TAIL >= |run + add| ==> !PhraseAt(run + add, p)
    {
      if PhraseAt(run, p) {
        InRange(run, p);
      }
      if p + MAX_TAIL >= |run + add| {
        NotInTail(run, add, p);
      }
    }
  }

  lemma NotInTail(run: string, add: string, p: nat)
    requires 1 <= |run| < LENGTH && !IsRateLimitText(add) && PhraseAt(run + add, 0) && p >= 1
    ensures !PhraseAt(run + add, p)
  {
    if PhraseAt(run + add, p) {
      InRange(run + add, p);
      if p < |run| && p < LENGTH - 1 {
        NoOverlap(run + add, p);
      } else {
        hide PhraseAt, IsRateLimitText;
        TextIffPhrase(add);
        assert (run + add)[p..p + LENGTH] == add[p - |run|..p - |run| + LENGTH];
        PhraseIsLocal(run + add, p, add, p - |run|);
      }
    }
  }

  /** Exactly which deltas the rolling detector handles as the naive one would, after
      every run of text that is still free of the phrase. */
  lemma RollingEqualsNaive(add: string)
    ensures (SafeDelta(add) || IsRateLimitText(add)) <==>
      forall run :: !IsRateLimitText(run) ==> (Raised(run, add) <==> IsRateLimitText(run + add))
  {
    forall run | !IsRateLimitText(run)
      ensures Raised(run, add) ==> IsRateLimitText(run + add)
      ensures SafeDelta(add) && IsRateLimitText(run + add) ==> Raised(run, add)
    {
      if Raised(run, add) {
        NoFalseAlarm(run, add);
      } else if SafeDelta(add) && IsRateLimitText(run + add) {
        SafeCatches(run, add);
      }
    }
    if !SafeDelta(add) && !IsRateLimitText(add) {
      var j :| 1 <= j < LENGTH && j + 52 < |add| && Completes(add, j);
      var run := UnsafeEscapes(add, j);
    }
  }

  lemma ShortIsSafe(add: string)
    requires |add| <= 53
    ensures SafeDelta(add)
  {}

  // ---- A whole stream of deltas ----

  /** The first delta at which the rolling detector raises, or |deltas|. */
  function FirstRaised(deltas: seq<string>): (k: nat)
    ensures k <= |deltas|
  {
    if deltas == [] then 0
    else
      var before := deltas[..|deltas| - 1];
      var k := FirstRaised(before);
      if k < |before| || Raised(Concat(before), deltas[|deltas| - 1]) then k else |deltas|
  }

  /** The detector is silent on every delta before the first alarm, and raises there. */
  lemma {:induction false} FirstRaisedAt(deltas: seq<string>, i: nat)
    requires i < |deltas| && i <= FirstRaised(deltas)
    ensures Raised(Concat(deltas[..i]), deltas[i]) <==> i == FirstRaised(deltas)
  {
    hide Raised;
    var before := deltas[..|deltas| - 1];
    if i < |before| {
      FirstRaisedAt(before, i);
      assert before[..i] == deltas[..i];
    }
  }

  /** The first `i` deltas together contain a phrase. */
  predicate HasPhraseBy(deltas: seq<string>, i: nat)
    requires i <= |deltas|
  {
    IsRateLimitText(Concat(deltas[..i]))
  }

  /** `k` is the first delta at which the concatenation contains a phrase. */
  ghost predicate FirstIn(deltas: seq<string>, k: nat) {
    && k <= |deltas|
    && (forall i :: 0 <= i <= k ==> !HasPhraseBy(deltas, i))
    && (k < |deltas| ==> HasPhraseBy(deltas, k + 1))
  }

  lemma HasPhraseSnoc(before: seq<string>, add: string, i: nat)
    requires i <= |before| + 1
    ensures HasPhraseBy(before + [add], i) <==>
      if i <= |before| then HasPhraseBy(before, i) else IsRateLimitText(Concat(before) + add)
  {
    hide IsRateLimitText;
    var all := before + [add];
    if i <= |before| {
      assert all[..i] == before[..i];
    } else {
      assert all[..i] == all && Front(all) == before && Last(all) == add;
    }
  }

  lemma FirstInSnoc(before: seq<string>, add: string, k: nat)
    requires FirstIn(before, k)
    ensures k < |before| || IsRateLimitText(Concat(before) + add) ==> FirstIn(before + [add], k)
    ensures k == |before| && !IsRateLimitText(Concat(before) + add) ==> FirstIn(before + [add], k + 1)
  {
    hide IsRateLimitText, HasPhraseBy, Concat;
    forall i: nat | i <= |before| + 1
      ensures HasPhraseBy(before + [add], i) <==>
        if i <= |before| then HasPhraseBy(before, i) else IsRateLimitText(Concat(before) + add)
    {
      HasPhraseSnoc(before, add, i);
    }
  }

  lemma NothingInNothing()
    ensures FirstIn([], 0)
  {
    TextIffPhrase("");
    forall p: nat
      ensures !PhraseAt("", p)
    {
      if PhraseAt("", p) {
        InRange("", p);
      }
    }
  }

  /** On safe deltas, `rate_limited` is raised on exactly the delta at which the whole
      concatenation first contains a phrase. */
  lemma {:induction false} RaisedExactlyFirst(deltas: seq<string>)
    requires forall d :: d in deltas ==> SafeDelta(d)
    ensures FirstIn(deltas, FirstRaised(deltas))
  {
    hide IsRateLimitText, Raised, SafeDelta, FirstIn;
    if deltas == [] {
      NothingInNothing();
    } else {
      var n := |deltas| - 1;
      var before, add := deltas[..n], deltas[n];
      RaisedExactlyFirst(before);
      FirstInSnoc(before, add, FirstRaised(before));
      assert before + [add] == deltas;
      var run := Concat(before);
      if FirstRaised(before) == n {
        assert !IsRateLimitText(run) by {
          WholeIsFree(before);
        }
        if Raised(run, add) {
          NoFalseAlarm(run, add);
        } else if IsRateLimitText(run + add) {
          SafeCatches(run, add);
        }
      }
    }
  }

  lemma WholeIsFree(deltas: seq<string>)
    requires FirstIn(deltas, |deltas|)
    ensures !IsRateLimitText(Concat(deltas))
  {
    hide IsRateLimitText;
    assert !HasPhraseBy(deltas, |deltas|);
    assert deltas[..|deltas|] == deltas;
  }
}
