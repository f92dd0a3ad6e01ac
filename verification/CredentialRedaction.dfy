/** The unconditional last-mile redaction of delivered credentials: a byte-level rewriter that replaces
    every occurrence of every credential value by a marker, one value after the other, and must neither
    break nor rewrite the markers that are already there. */
module CredentialRedaction {
  import opened Wrappers

  /** "[REDACTED CREDENTIAL]" */
  const MARKER: Text := [91, 82, 69, 68, 65, 67, 84, 69, 68, 32, 67, 82, 69, 68, 69, 78, 84, 73, 65, 76, 93]
  const WIDTH: nat := 21

  /** Shortest value that is masked inside a word, in texts and in object keys. */
  const SUBSTRING_MIN_BYTES: nat := 3
  const KEY_SUBSTRING_MIN_BYTES: nat := 8

  // ---------------------------------------------------------------- occurrences

  predicate At(t: Text, p: int, s: Text) {
    0 <= p && p + |s| <= |t| && forall k | 0 <= k < |s| :: t[p + k] == s[k]
  }

  /** The first occurrence of `s` at or after `from`, or -1. */
  function Index(t: Text, s: Text, from: nat): (i: int)
    requires from <= |t|
    ensures i == -1 || (from <= i && At(t, i, s))
    ensures forall p | from <= p && (i == -1 || p < i) :: !At(t, p, s)
    decreases |t| - from
  {
    if At(t, from, s) then from else if from == |t| then -1 else Index(t, s, from + 1)
  }

  /** Some marker in `t` covers the whole of `t[a..e]`. */
  ghost predicate Inside(t: Text, a: int, e: int) {
    exists q :: At(t, q, MARKER) && q <= a && e <= q + WIDTH
  }

  /** Every occurrence of `s` that is left lies wholly inside a marker. */
  ghost predicate Covered(t: Text, s: Text) {
    forall p :: At(t, p, s) ==> Inside(t, p, p + |s|)
  }

  /** Laid over a marker at offset `d`, `s` agrees with it wherever they overlap. */
  predicate Agrees(s: Text, d: int) {
    forall k | 0 <= k < |s| && 0 <= d + k < WIDTH :: s[k] == MARKER[d + k]
  }

  /** No text can hold `s` across an edge of a marker. */
  ghost predicate Clean(s: Text) {
    |s| > 0 && forall d :: -|s| < d < WIDTH && Agrees(s, d) ==> 0 <= d && d + |s| <= WIDTH
  }

  /** A value without brackets is clean. */
  lemma BracketFreeIsClean(s: Text)
    requires |s| > 0 && 91 !in s && 93 !in s
    ensures Clean(s)
  {
    forall d | -|s| < d < WIDTH && Agrees(s, d) ensures 0 <= d && d + |s| <= WIDTH {
      var left := if d < 0 then -d else 0;
      assert s[left] == MARKER[d + left];
      var right := if d + |s| > WIDTH then WIDTH - 1 - d else |s| - 1;
      assert s[right] == MARKER[d + right];
    }
  }

  lemma Apart(t: Text, p: int, q: int)
    requires At(t, p, MARKER) && At(t, q, MARKER) && p < q
    ensures p + WIDTH <= q
  {
    var k := if q < p + WIDTH then q - p else 1;
    assert t[q + 0] == MARKER[0] && t[p + k] == MARKER[k];
  }

  lemma CleanInside(t: Text, p: int, s: Text, q: int)
    requires Clean(s) && At(t, p, s) && At(t, q, MARKER) && p < q + WIDTH && q < p + |s|
    ensures q <= p && p + |s| <= q + WIDTH
  {
    var d := p - q;
    forall k | 0 <= k < |s| && 0 <= d + k < WIDTH ensures s[k] == MARKER[d + k] {
      assert t[p + k] == s[k];
      assert t[q + (d + k)] == MARKER[d + k];
    }
    assert Agrees(s, d);
  }

  // ---------------------------------------------------------------- one value

  predicate WordByte(b: Byte) {
    97 <= b <= 122 || 65 <= b <= 90 || 48 <= b <= 57 || b == 95
  }

  predicate Delimited(t: Text, a: nat, e: nat)
    requires a <= e <= |t|
  {
    (a == 0 || !WordByte(t[a - 1])) && (e == |t| || !WordByte(t[e]))
  }

  function Replace(r: Text, i: nat, e: nat): Text
    requires i <= e <= |r|
  {
    r[..i] + MARKER + r[e..]
  }

  lemma SamePrefix(t: Text, r: Text, from: nat, i: nat, e: nat)
    requires from <= i <= e <= |t| && e <= |r| && r[..e] == t[..e]
    ensures r[..from] == t[..from] && Replace(r, i, e)[..from] == t[..from]
  {
    assert r[..e][..from] == r[..from] && t[..e][..from] == t[..from];
  }

  /** Whether the match of `s` at `i` is replaced. */
  ghost predicate Masks(t: Text, s: Text, min: nat, i: nat)
    requires |s| > 0 && i + |s| <= |t|
  {
    (t == s || |s| >= min || Delimited(t, i, i + |s|)) && !Inside(t, i, i + |s|)
  }

  /** The text with the matches of `s` from `from` on rewritten: the later ones first, then the next one
      alone, in a text whose beginning is still the original. */
  ghost function Rewritten(t: Text, s: Text, min: nat, from: nat): (r: Text)
    requires |s| > 0 && from <= |t|
    ensures |r| >= from && r[..from] == t[..from]
    decreases |t| - from
  {
    var i := Index(t, s, from);
    if i == -1 then t else
    var r := Rewritten(t, s, min, i + |s|);
    SamePrefix(t, r, from, i, i + |s|);
    if Masks(t, s, min, i) then Replace(r, i, i + |s|) else r
  }

  ghost function RedactValue(t: Text, s: Text, min: nat): Text {
    if s == [] then t else Rewritten(t, s, min, 0)
  }

  // ---------------------------------------------------------------- replacing one match

  lemma RewrittenStep(t: Text, s: Text, min: nat, from: nat, i: nat)
    requires |s| > 0 && from <= |t| && i == Index(t, s, from) && i + |s| <= |t|
    ensures var r := Rewritten(t, s, min, i + |s|);
            Rewritten(t, s, min, from) == if Masks(t, s, min, i) then Replace(r, i, i + |s|) else r
  {
  }

  /** Where an occurrence in the rewritten text comes from. */
  lemma Origin(r: Text, i: nat, e: nat, r': Text, p: int, s: Text)
    requires i <= e <= |r| && r' == Replace(r, i, e) && |s| > 0
    requires At(r', p, s) && !(p < i + WIDTH && i < p + |s|)
    ensures if p < i then p + |s| <= i && At(r, p, s) else p - WIDTH + e - i >= e && At(r, p - WIDTH + e - i, s)
  {
    if p < i {
      forall k | 0 <= k < |s| ensures r[p + k] == s[k] { assert r'[p + k] == s[k]; }
    } else {
      forall k | 0 <= k < |s| ensures r[p - WIDTH + e - i + k] == s[k] { assert r'[p + k] == s[k]; }
    }
  }

  /** And where an occurrence that the replacement does not touch goes to. */
  lemma Survives(r: Text, i: nat, e: nat, r': Text, q: int, s: Text)
    requires i <= e <= |r| && r' == Replace(r, i, e) && At(r, q, s) && (q + |s| <= i || e <= q)
    ensures At(r', if q + |s| <= i then q else q + WIDTH - (e - i), s)
  {
    forall k | 0 <= k < |s|
      ensures r'[(if q + |s| <= i then q else q + WIDTH - (e - i)) + k] == s[k] { assert r[q + k] == s[k]; }
  }

  lemma Inserted(r: Text, i: nat, e: nat, r': Text)
    requires i <= e <= |r| && r' == Replace(r, i, e)
    ensures At(r', i, MARKER)
  {
  }

  /** No marker touches `r[i..e]`. */
  ghost predicate Clear(r: Text, i: nat, e: nat) {
    forall q :: At(r, q, MARKER) ==> q + WIDTH <= i || e <= q
  }

  /** An occurrence in the rewritten text is covered when it was covered before, or touches the new marker. */
  lemma StaysCovered(r: Text, i: nat, e: nat, r': Text, s: Text, p: int)
    requires i < e <= |r| && r' == Replace(r, i, e) && Clear(r, i, e) && Clean(s) && At(r', p, s)
    requires !(p < i + WIDTH && i < p + |s|) ==>
               var o := if p < i then p else p - WIDTH + e - i; At(r, o, s) ==> Inside(r, o, o + |s|)
    ensures Inside(r', p, p + |s|)
  {
    Inserted(r, i, e, r');
    if p < i + WIDTH && i < p + |s| {
      CleanInside(r', p, s, i);
    } else {
      Origin(r, i, e, r', p, s);
      var o := if p < i then p else p - WIDTH + e - i;
      var q :| At(r, q, MARKER) && q <= o && o + |s| <= q + WIDTH;
      Survives(r, i, e, r', q, MARKER);
    }
  }

  lemma PrefixAt(t: Text, r: Text, e: nat, p: int, s: Text)
    requires e <= |t| && e <= |r| && r[..e] == t[..e] && p + |s| <= e
    ensures At(r, p, s) <==> At(t, p, s)
  {
    if 0 <= p {
      assert forall k | p <= k < p + |s| :: r[k] == r[..e][k] == t[..e][k] == t[k];
    }
  }

  /** A match of a clean value that no marker covers touches no marker. */
  lemma Uncovered(t: Text, i: nat, s: Text, q: int)
    requires Clean(s) && At(t, i, s) && !Inside(t, i, i + |s|) && At(t, q, MARKER)
    ensures q + WIDTH <= i || i + |s| <= q
  {
    if i < q + WIDTH && q < i + |s| { CleanInside(t, i, s, q); }
  }

  // ---------------------------------------------------------------- one pass

  /** A replacement neither breaks nor makes a marker that starts before it. */
  lemma SameBefore(r: Text, i: nat, e: nat, r': Text, q: int)
    requires i <= e <= |r| && r' == Replace(r, i, e) && q < i && (At(r, q, MARKER) ==> q + WIDTH <= i)
    ensures At(r', q, MARKER) <==> At(r, q, MARKER)
  {
    Inserted(r, i, e, r');
    if At(r', q, MARKER) {
      Apart(r', q, i);
      Origin(r, i, e, r', q, MARKER);
    }
    if At(r, q, MARKER) { Survives(r, i, e, r', q, MARKER); }
  }

  lemma SameMarkersStep(t: Text, s: Text, min: nat, from: nat, i: nat, q: int)
    requires Clean(s) && from <= |t| && i == Index(t, s, from) && i + |s| <= |t| && q < from
    requires At(Rewritten(t, s, min, i + |s|), q, MARKER) <==> At(t, q, MARKER)
    ensures At(Rewritten(t, s, min, from), q, MARKER) <==> At(t, q, MARKER)
  {
    RewrittenStep(t, s, min, from, i);
    if Masks(t, s, min, i) {
      if At(t, q, MARKER) { Uncovered(t, i, s, q); }
      SameBefore(Rewritten(t, s, min, i + |s|), i, i + |s|, Rewritten(t, s, min, from), q);
    }
  }

  /** Markers that start before the rewritten part are the markers of the original text. */
  lemma {:induction false} SameMarkers(t: Text, s: Text, min: nat, from: nat, q: int)
    requires Clean(s) && from <= |t| && q < from
    ensures At(Rewritten(t, s, min, from), q, MARKER) <==> At(t, q, MARKER)
    decreases |t| - from
  {
    var i := Index(t, s, from);
    if i != -1 {
      SameMarkers(t, s, min, i + |s|, q);
      SameMarkersStep(t, s, min, from, i, q);
    }
  }

  /** A match that is replaced touches no marker of the text it is replaced in. */
  lemma MaskedIsClear(t: Text, s: Text, min: nat, i: nat)
    requires Clean(s) && At(t, i, s) && Masks(t, s, min, i)
    ensures Clear(Rewritten(t, s, min, i + |s|), i, i + |s|)
  {
    var e := i + |s|;
    var r := Rewritten(t, s, min, e);
    forall q | At(r, q, MARKER) ensures q + WIDTH <= i || e <= q {
      if i < q + WIDTH && q < e {
        PrefixAt(t, r, e, i, s);
        SameMarkers(t, s, min, e, q);
        Uncovered(t, i, s, q);
      }
    }
  }

  lemma KeepsStep(t: Text, s: Text, min: nat, from: nat, i: nat, other: Text)
    requires Clean(s) && Clean(other) && from <= |t| && i == Index(t, s, from) && i + |s| <= |t|
    requires Covered(Rewritten(t, s, min, i + |s|), other)
    ensures Covered(Rewritten(t, s, min, from), other)
  {
    RewrittenStep(t, s, min, from, i);
    var r, r' := Rewritten(t, s, min, i + |s|), Rewritten(t, s, min, from);
    if Masks(t, s, min, i) {
      MaskedIsClear(t, s, min, i);
      forall p | At(r', p, other) ensures Inside(r', p, p + |other|) {
        StaysCovered(r, i, i + |s|, r', other, p);
      }
    }
  }

  /** A pass for one clean value keeps every other clean value covered. */
  lemma {:induction false} PassKeeps(t: Text, s: Text, min: nat, from: nat, other: Text)
    requires Clean(s) && Clean(other) && from <= |t| && Covered(t, other)
    ensures Covered(Rewritten(t, s, min, from), other)
    decreases |t| - from
  {
    var i := Index(t, s, from);
    if i != -1 {
      PassKeeps(t, s, min, i + |s|, other);
      KeepsStep(t, s, min, from, i, other);
    }
  }

  ghost predicate CoveredFrom(t: Text, s: Text, from: nat) {
    forall p | from <= p :: At(t, p, s) ==> Inside(t, p, p + |s|)
  }

  /** `t` up to `e`, where the first occurrence of `s` from `from` on ends; `r` is the text after it rewritten. */
  ghost predicate AtMatch(t: Text, r: Text, s: Text, from: nat, i: nat, e: nat) {
    Clean(s) && from <= i && e == i + |s| && e <= |t| && e <= |r| && r[..e] == t[..e] && At(t, i, s)
    && (forall p | from <= p < i :: !At(t, p, s)) && CoveredFrom(r, s, e)
  }

  lemma ReplacedCovers(t: Text, r: Text, s: Text, from: nat, i: nat, e: nat)
    requires AtMatch(t, r, s, from, i, e) && Clear(r, i, e)
    ensures CoveredFrom(Replace(r, i, e), s, from)
  {
    forall p | from <= p && At(Replace(r, i, e), p, s) ensures Inside(Replace(r, i, e), p, p + |s|) {
      if p < i { PrefixAt(t, r, e, p, s); }
      StaysCovered(r, i, e, Replace(r, i, e), s, p);
    }
  }

  /** An occurrence that touches a match which was kept because of its marker is inside that marker too. */
  lemma KeptCovers(t: Text, r: Text, s: Text, from: nat, i: nat, e: nat, q: int)
    requires AtMatch(t, r, s, from, i, e) && At(r, q, MARKER) && q <= i && e <= q + WIDTH
    ensures CoveredFrom(r, s, from)
  {
    forall p | from <= p && At(r, p, s) ensures Inside(r, p, p + |s|) {
      if p < i { PrefixAt(t, r, e, p, s); }
      if p < e { CleanInside(r, p, s, q); }
    }
  }

  lemma MatchCovers(t: Text, s: Text, min: nat, from: nat, i: nat, e: nat, r: Text)
    requires Clean(s) && |s| >= min && e == i + |s| <= |t| && r == Rewritten(t, s, min, e)
    requires AtMatch(t, r, s, from, i, e)
    ensures CoveredFrom(if Masks(t, s, min, i) then Replace(r, i, e) else r, s, from)
  {
    if Masks(t, s, min, i) {
      MaskedIsClear(t, s, min, i);
      ReplacedCovers(t, r, s, from, i, e);
    } else {
      var q :| At(t, q, MARKER) && q <= i && e <= q + WIDTH;
      SameMarkers(t, s, min, e, q);
      KeptCovers(t, r, s, from, i, e, q);
    }
  }

  lemma CoversStep(t: Text, s: Text, min: nat, from: nat, i: nat)
    requires Clean(s) && |s| >= min && from <= |t| && i == Index(t, s, from) && i + |s| <= |t|
    requires CoveredFrom(Rewritten(t, s, min, i + |s|), s, i + |s|)
    ensures CoveredFrom(Rewritten(t, s, min, from), s, from)
  {
    RewrittenStep(t, s, min, from, i);
    MatchCovers(t, s, min, from, i, i + |s|, Rewritten(t, s, min, i + |s|));
  }

  lemma NothingToCover(t: Text, s: Text, min: nat, from: nat)
    requires |s| > 0 && from <= |t| && Index(t, s, from) == -1
    ensures CoveredFrom(Rewritten(t, s, min, from), s, from)
  {
  }

  /** And it covers its own value, from the point where the scan starts. */
  lemma {:induction false} PassCovers(t: Text, s: Text, min: nat, from: nat)
    requires Clean(s) && |s| >= min && from <= |t|
    ensures CoveredFrom(Rewritten(t, s, min, from), s, from)
    decreases |t| - from
  {
    var i := Index(t, s, from);
    if i == -1 {
      NothingToCover(t, s, min, from);
    } else {
      PassCovers(t, s, min, i + |s|);
      CoversStep(t, s, min, from, i);
    }
  }

  // ---------------------------------------------------------------- the window test

  /** The test the rewriter makes: the first marker in a window around the match, and nothing else. */
  predicate InsideMarker(t: Text, a: nat, e: nat)
    requires a < e <= |t|
  {
    var lo := if a < WIDTH - 1 then 0 else a - WIDTH + 1;
    var hi := if |t| < a + WIDTH then |t| else a + WIDTH;
    var i := Index(t[lo..hi], MARKER, 0);
    i != -1 && lo + i <= a && e <= lo + i + WIDTH
  }

  lemma Windowed(t: Text, lo: nat, hi: nat, j: int, s: Text)
    requires lo <= hi <= |t|
    ensures At(t[lo..hi], j, s) <==> 0 <= j && lo + j + |s| <= hi && At(t, lo + j, s)
  {
    var w := t[lo..hi];
    if At(w, j, s) {
      forall k | 0 <= k < |s| ensures t[lo + j + k] == s[k] { assert w[j + k] == s[k]; }
    }
    if 0 <= j && lo + j + |s| <= hi && At(t, lo + j, s) {
      forall k | 0 <= k < |s| ensures w[j + k] == s[k] { assert t[lo + j + k] == s[k]; }
    }
  }

  /** The first marker in the window is the only one that could cover the match. */
  lemma FirstDecides(t: Text, a: nat, e: nat, lo: nat, hi: nat, i: int, q: int)
    requires a < e <= |t| && lo <= hi <= |t| && a - WIDTH < lo && e <= q + WIDTH <= hi && lo <= q <= a
             && At(t, q, MARKER)
    requires i == -1 || At(t[lo..hi], i, MARKER)
    requires forall p | 0 <= p && (i == -1 || p < i) :: !At(t[lo..hi], p, MARKER)
    ensures lo + i == q
  {
    Windowed(t, lo, hi, q - lo, MARKER);
    assert At(t[lo..hi], q - lo, MARKER);
    Windowed(t, lo, hi, i, MARKER);
    if lo + i < q { Apart(t, lo + i, q); }
  }

  /** The window test holds exactly when some marker covers the match. */
  lemma WindowExact(t: Text, a: nat, e: nat)
    requires a < e <= |t|
    ensures InsideMarker(t, a, e) <==> Inside(t, a, e)
  {
    var lo := if a < WIDTH - 1 then 0 else a - WIDTH + 1;
    var hi := if |t| < a + WIDTH then |t| else a + WIDTH;
    var i := Index(t[lo..hi], MARKER, 0);
    Windowed(t, lo, hi, i, MARKER);
    if Inside(t, a, e) {
      var q :| At(t, q, MARKER) && q <= a && e <= q + WIDTH;
      FirstDecides(t, a, e, lo, hi, i, q);
    }
  }
}
