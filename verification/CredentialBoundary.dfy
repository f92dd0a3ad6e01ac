/** Redaction with a whole list of credential values, and the mutable boundary that holds the list. */
module CredentialBoundary {
  import opened Wrappers
  import opened CredentialRedaction
  import Canonical

  /** One pass per value, in list order. */
  ghost function RedactAll(t: Text, values: seq<Text>, min: nat): Text
    decreases |values|
  {
    if values == [] then t
    else RedactValue(RedactAll(t, values[..|values| - 1], min), values[|values| - 1], min)
  }

  ghost predicate AllClean(values: seq<Text>) {
    forall s | s in values && s != [] :: Clean(s)
  }

  // ---------------------------------------------------------------- what a redacted text can still hold

  lemma {:induction false} OthersStayCovered(t: Text, values: seq<Text>, min: nat, other: Text)
    requires AllClean(values) && Clean(other) && Covered(t, other)
    ensures Covered(RedactAll(t, values, min), other)
    decreases |values|
  {
    if values != [] {
      var n := |values| - 1;
      OthersStayCovered(t, values[..n], min, other);
      assert values[n] in values;
      if values[n] != [] { PassKeeps(RedactAll(t, values[..n], min), values[n], min, 0, other); }
    }
  }

  /** After all passes, in any order, every occurrence of every value that is long enough lies wholly inside
      a marker; shorter values in the list do no harm. */
  lemma {:induction false} RedactAllCovers(t: Text, values: seq<Text>, min: nat, s: Text)
    requires AllClean(values) && s in values && s != [] && |s| >= min
    ensures Covered(RedactAll(t, values, min), s)
    decreases |values|
  {
    var n := |values| - 1;
    var before := RedactAll(t, values[..n], min);
    if values[n] == s {
      PassCovers(before, s, min, 0);
    } else {
      assert values == values[..n] + [values[n]];
      assert s in values[..n];
      RedactAllCovers(t, values[..n], min, s);
      assert values[n] in values;
      if values[n] != [] { PassKeeps(before, values[n], min, 0, s); }
    }
  }

  lemma {:induction false} CoveredIsFixed(t: Text, s: Text, min: nat, from: nat)
    requires |s| > 0 && from <= |t| && Covered(t, s)
    ensures Rewritten(t, s, min, from) == t
    decreases |t| - from
  {
    var i := Index(t, s, from);
    if i != -1 {
      assert At(t, i, s);
      CoveredIsFixed(t, s, min, i + |s|);
    }
  }

  lemma {:induction false} AllCoveredIsFixed(t: Text, values: seq<Text>, min: nat)
    requires forall s | s in values && s != [] :: Covered(t, s)
    ensures RedactAll(t, values, min) == t
    decreases |values|
  {
    if values != [] {
      var n := |values| - 1;
      AllCoveredIsFixed(t, values[..n], min);
      assert values[n] in values;
      if values[n] != [] { CoveredIsFixed(t, values[n], min, 0); }
    }
  }

  /** Redacting a redacted text changes nothing. */
  lemma RedactAllIdempotent(t: Text, values: seq<Text>, min: nat)
    requires AllClean(values) && forall s | s in values && s != [] :: |s| >= min
    ensures RedactAll(RedactAll(t, values, min), values, min) == RedactAll(t, values, min)
  {
    forall s | s in values && s != [] ensures Covered(RedactAll(t, values, min), s) {
      RedactAllCovers(t, values, min, s);
    }
    AllCoveredIsFixed(RedactAll(t, values, min), values, min);
  }

  /** A text that holds none of the values is returned as it is. */
  lemma NothingToRedact(t: Text, values: seq<Text>, min: nat)
    requires forall s, p | s in values && s != [] :: !At(t, p, s)
    ensures RedactAll(t, values, min) == t
  {
    AllCoveredIsFixed(t, values, min);
  }

  // ---------------------------------------------------------------- the rewriter

  /** What is left to emit once the scan stands at `start`. */
  ghost function Rest(t: Text, s: Text, min: nat, start: nat): Text
    requires |s| > 0 && start <= |t|
  {
    Rewritten(t, s, min, start)[start..]
  }

  lemma RestUnfolds(t: Text, s: Text, min: nat, start: nat, i: int)
    requires |s| > 0 && start <= |t| && i == Index(t, s, start)
    ensures if i == -1 then Rest(t, s, min, start) == t[start..]
            else var shown := if Masks(t, s, min, i) then MARKER else s;
                 Rest(t, s, min, start) == t[start..i] + shown + Rest(t, s, min, i + |s|)
  {
    if i != -1 { Cut(t, Rewritten(t, s, min, i + |s|), s, start, i, i + |s|); }
  }

  lemma Emits(t: Text, s: Text, min: nat, start: nat, i: int, out: Text, piece: Text)
    requires |s| > 0 && start <= |t| && i == Index(t, s, start)
    requires i != -1 ==> piece == t[start..i] + if Masks(t, s, min, i) then MARKER else s
    ensures if i == -1 then Rest(t, s, min, start) == t[start..]
            else out + Rest(t, s, min, start) == out + piece + Rest(t, s, min, i + |s|)
  {
    RestUnfolds(t, s, min, start, i);
    if i != -1 { Regroup(out, piece, Rest(t, s, min, i + |s|)); }
  }

  /** The scan stands at `start` and has written `out`. */
  ghost predicate Written(t: Text, s: Text, min: nat, start: nat, out: Text)
    requires |s| > 0
  {
    start <= |t| && out + Rest(t, s, min, start) == RedactValue(t, s, min)
  }

  lemma WrittenNone(t: Text, s: Text, min: nat)
    requires |s| > 0
    ensures Written(t, s, min, 0, [])
  {
  }

  lemma WrittenNext(t: Text, s: Text, min: nat, start: nat, i: nat, out: Text, piece: Text)
    requires |s| > 0 && Written(t, s, min, start, out) && i == Index(t, s, start) && i + |s| <= |t|
    requires piece == t[start..i] + if Masks(t, s, min, i) then MARKER else s
    ensures Written(t, s, min, i + |s|, out + piece)
  {
    Emits(t, s, min, start, i, out, piece);
  }

  lemma WrittenAll(t: Text, s: Text, min: nat, start: nat, out: Text)
    requires |s| > 0 && Written(t, s, min, start, out) && Index(t, s, start) == -1
    ensures out + t[start..] == RedactValue(t, s, min)
  {
    Emits(t, s, min, start, -1, out, []);
  }

  lemma Regroup(a: Text, b: Text, c: Text)
    ensures a + (b + c) == a + b + c
  {
  }

  lemma Cut(t: Text, r: Text, s: Text, start: nat, i: nat, e: nat)
    requires start <= i && e == i + |s| <= |t| && e <= |r| && r[..e] == t[..e] && At(t, i, s)
    ensures r[start..] == t[start..i] + s + r[e..] && Replace(r, i, e)[start..] == t[start..i] + MARKER + r[e..]
  {
    assert t[i..e] == s;
    assert r[..e][..i] == t[..e][..i] && r[..e][i..] == t[..e][i..];
    assert r == r[..i] + r[i..e] + r[e..];
  }

  /** Whether to replace a match, by the window test. */
  method Decide(t: Text, s: Text, min: nat, i: nat) returns (masked: bool)
    requires |s| > 0 && i + |s| <= |t|
    ensures masked == Masks(t, s, min, i)
  {
    WindowExact(t, i, i + |s|);
    masked := (t == s || |s| >= min || Delimited(t, i, i + |s|)) && !InsideMarker(t, i, i + |s|);
  }

  /** Copies up to the next match and writes what is shown for it. */
  method Emit(t: Text, s: Text, min: nat, start: nat, i: nat, out: Text) returns (more: Text)
    requires |s| > 0 && Written(t, s, min, start, out) && i == Index(t, s, start) && i + |s| <= |t|
    ensures Written(t, s, min, i + |s|, more)
  {
    var masked := Decide(t, s, min, i);
    var piece := t[start..i] + if masked then MARKER else s;
    WrittenNext(t, s, min, start, i, out, piece);
    more := out + piece;
  }

  /** Replaces every match of one value that no marker covers, copying the rest, from left to right. */
  method RedactCredentialValue(t: Text, s: Text, min: nat) returns (out: Text)
    ensures out == RedactValue(t, s, min)
  {
    if s == [] { return t; }
    out := [];
    var start := 0;
    var i := Index(t, s, 0);
    WrittenNone(t, s, min);
    while i != -1
      invariant start <= |t| && i == Index(t, s, start) && Written(t, s, min, start, out)
      decreases |t| - start
    {
      out := Emit(t, s, min, start, i, out);
      start := i + |s|;
      i := Index(t, s, start);
    }
    WrittenAll(t, s, min, start, out);
    out := out + t[start..];
  }

  /** Longest first, and byte order among values of one length. */
  predicate Precedes(a: Text, b: Text) {
    |a| > |b| || (|a| == |b| && Below(a, b))
  }

  predicate Below(a: Text, b: Text)
    requires |a| == |b|
  {
    a != [] && (a[0] < b[0] || (a[0] == b[0] && Below(a[1..], b[1..])))
  }

  lemma {:induction false} BelowTransitive(a: Text, b: Text, c: Text)
    requires |a| == |b| == |c| && Below(a, b) && Below(b, c)
    ensures Below(a, c)
    decreases |a|
  {
    if a[0] == b[0] && b[0] == c[0] { BelowTransitive(a[1..], b[1..], c[1..]); }
  }

  lemma {:induction false} BelowTotal(a: Text, b: Text)
    requires |a| == |b|
    ensures !Below(a, a) && (Below(a, b) || a == b || Below(b, a))
    decreases |a|
  {
    if a != [] {
      BelowTotal(a[1..], b[1..]);
      assert a == [a[0]] + a[1..] && b == [b[0]] + b[1..];
    }
  }

  lemma PrecedesIsStrict()
    ensures Canonical.StrictOrder(Precedes) && forall a, b :: Precedes(a, b) || a == b || Precedes(b, a)
  {
    forall a, b, c | Precedes(a, b) && Precedes(b, c) ensures Precedes(a, c) {
      if |a| == |b| == |c| { BelowTransitive(a, b, c); }
    }
    forall a, b ensures !Precedes(a, a) && (Precedes(a, b) || a == b || Precedes(b, a)) {
      if |a| == |b| { BelowTotal(a, b); } else { BelowTotal(a, a); }
    }
  }

  /** The values a runtime has delivered so far; shared by everything that reports on the request. */
  class Boundary {
    var values: seq<Text>

    ghost predicate Valid() reads this {
      Canonical.Ordered(values, Precedes)
    }

    constructor ()
      ensures Valid() && values == []
    {
      values := [];
    }

    /** Adds every variant of every new value; order and repetition of the additions do not matter, because
        an ordered list is determined by its elements. */
    method Add(more: seq<Text>, variants: Text -> seq<Text>)
      requires Valid()
      modifies this
      ensures Valid()
      ensures forall v :: v in values <==> v in old(values) || exists s :: s in more && v in variants(s)
    {
      var combined := values;
      for i := 0 to |more|
        invariant forall v :: v in combined <==> v in values || exists s :: s in more[..i] && v in variants(s)
      {
        assert more[..i + 1] == more[..i] + [more[i]];
        combined := combined + variants(more[i]);
      }
      assert more[..|more|] == more;
      PrecedesIsStrict();
      values := Canonical.Sorted(combined, Precedes);
    }

    method Redact(t: Text) returns (out: Text)
      ensures out == RedactAll(t, values, SUBSTRING_MIN_BYTES)
    {
      out := RedactWith(t, SUBSTRING_MIN_BYTES);
    }

    method RedactKey(t: Text) returns (out: Text)
      ensures out == RedactAll(t, values, KEY_SUBSTRING_MIN_BYTES)
    {
      out := RedactWith(t, KEY_SUBSTRING_MIN_BYTES);
    }

    method RedactWith(t: Text, min: nat) returns (out: Text)
      ensures out == RedactAll(t, values, min)
    {
      out := t;
      for i := 0 to |values|
        invariant out == RedactAll(t, values[..i], min)
      {
        assert values[..i + 1][..i] == values[..i];
        out := RedactCredentialValue(out, values[i], min);
      }
      assert values[..|values|] == values;
    }
  }

  /** Two boundaries that were given the same values hold the same list, whatever the order of additions. */
  lemma AdditionOrderIrrelevant(a: Boundary, b: Boundary)
    requires a.Valid() && b.Valid() && forall v :: v in a.values <==> v in b.values
    ensures a.values == b.values
  {
    PrecedesIsStrict();
    Canonical.Unique(a.values, b.values, Precedes);
  }

  // ---------------------------------------------------------------- the exact condition

  /** The promise for a list: whatever the text, what is left of a value is inside markers. */
  ghost predicate Guaranteed(values: seq<Text>, min: nat) {
    forall t, s | s in values && s != [] && |s| >= min :: Covered(RedactAll(t, values, min), s)
  }

  lemma CleanIsEnough(values: seq<Text>, min: nat)
    requires AllClean(values)
    ensures Guaranteed(values, min)
  {
    forall t, s | s in values && s != [] && |s| >= min ensures Covered(RedactAll(t, values, min), s) {
      RedactAllCovers(t, values, min, s);
    }
  }

  /** The parts of `s` that stick out of a marker when `s` lies over it at offset `d`. */
  function Before(s: Text, d: int): Text
    requires -|s| < d
  {
    if d < 0 then s[..-d] else []
  }

  function After(s: Text, d: int): Text
    requires d < WIDTH
  {
    if d + |s| > WIDTH then s[WIDTH - d..] else []
  }

  lemma Clashes(t: Text, p: int, s: Text, k: nat)
    requires k < |s| && (0 <= p && p + |s| <= |t| ==> t[p + k] != s[k])
    ensures !At(t, p, s)
  {
  }

  lemma Completes(s: Text, d: int)
    requires -|s| < d < WIDTH && Agrees(s, d)
    ensures At(Before(s, d) + MARKER + After(s, d), |Before(s, d)| + d, s)
  {
    var pre, m, post := Before(s, d), MARKER, After(s, d);
    var r := pre + m + post;
    forall k | 0 <= k < |s| ensures r[|pre| + d + k] == s[k] {
      if d + k < 0 { assert r[k] == pre[k]; }
      else if d + k < WIDTH { assert r[|pre| + (d + k)] == m[d + k]; }
      else { assert r[|pre| + WIDTH + (d + k - WIDTH)] == post[d + k - WIDTH]; }
    }
  }

  /** Around a marker, they complete it to an `s` across its edge. */
  lemma Straddles(s: Text, d: int)
    requires -|s| < d < WIDTH && Agrees(s, d) && !(0 <= d && d + |s| <= WIDTH)
    ensures !Covered(Before(s, d) + MARKER + After(s, d), s)
  {
    var a := |Before(s, d)|;
    var r := Before(s, d) + MARKER + After(s, d);
    assert At(r, a, MARKER);
    Completes(s, d);
    if Inside(r, a + d, a + d + |s|) {
      var q :| At(r, q, MARKER) && q <= a + d && a + d + |s| <= q + WIDTH;
      if q < a { Apart(r, q, a); } else if a < q { Apart(r, a, q); }
    }
  }

  /** Between the parts that stick out, `w` stands once, outside markers, and `s` does not occur. */
  ghost predicate Decoys(s: Text, w: Text, d: int)
    requires -|s| < d < WIDTH
  {
    var t := Before(s, d) + w + After(s, d);
    (forall p :: At(t, p, w) <==> p == |Before(s, d)|) && (forall p :: !At(t, p, s)) && w != [] && w[0] !in MARKER
  }

  lemma DecoyOutside(pre: Text, w: Text, post: Text)
    requires w != [] && w[0] !in MARKER
    ensures !Inside(pre + w + post, |pre|, |pre| + |w|)
  {
    var t, a := pre + w + post, |pre|;
    forall q | q <= a && a + |w| <= q + WIDTH ensures !At(t, q, MARKER) {
      assert t[a] == w[0];
      Clashes(t, q, MARKER, a - q);
    }
  }

  /** The pass for the decoy masks exactly that. */
  lemma DecoyMasked(pre: Text, w: Text, post: Text)
    requires |w| >= SUBSTRING_MIN_BYTES && w[0] !in MARKER
    requires forall p :: At(pre + w + post, p, w) <==> p == |pre|
    ensures RedactValue(pre + w + post, w, SUBSTRING_MIN_BYTES) == pre + MARKER + post
  {
    var t, a := pre + w + post, |pre|;
    assert At(t, a, w);
    assert Index(t, w, 0) == a;
    DecoyOutside(pre, w, post);
    assert Index(t, w, a + |w|) == -1;
    assert Rewritten(t, w, SUBSTRING_MIN_BYTES, a + |w|) == t;
    assert Masks(t, w, SUBSTRING_MIN_BYTES, a);
    assert Rewritten(t, w, SUBSTRING_MIN_BYTES, 0) == Replace(t, a, a + |w|);
    assert t[..a] == pre && t[a + |w|..] == post;
  }

  /** When the pass for `s` comes first, the marker put in for the decoy completes an `s` that nothing masks. */
  lemma DecoyBetrays(s: Text, w: Text, d: int)
    requires |s| > 0 && |w| >= SUBSTRING_MIN_BYTES && |s| >= SUBSTRING_MIN_BYTES
    requires -|s| < d < WIDTH && Agrees(s, d) && !(0 <= d && d + |s| <= WIDTH) && Decoys(s, w, d)
    ensures !Guaranteed([s, w], SUBSTRING_MIN_BYTES)
  {
    var pre, post := Before(s, d), After(s, d);
    var t := pre + w + post;
    assert RedactValue(t, s, SUBSTRING_MIN_BYTES) == t;
    assert [s, w][..1] == [s] && [s][..0] == [];
    assert RedactAll(t, [s], SUBSTRING_MIN_BYTES) == t;
    DecoyMasked(pre, w, post);
    assert RedactAll(t, [s, w], SUBSTRING_MIN_BYTES) == pre + MARKER + post;
    Straddles(s, d);
    assert s in [s, w];
  }

  /** One byte shorter than `s`, in two bytes that neither a marker nor an end of `s` has. */
  function Alien(s: Text, f: Byte, g: Byte): Text
    requires |s| > 1
  {
    seq(|s| - 2, i => f) + [g]
  }

  predicate Aliens(s: Text, f: Byte, g: Byte) {
    |s| > 3 && f != g && f !in MARKER && g !in MARKER && s[0] != f && s[0] != g && s[|s| - 1] != f && s[|s| - 1] != g
  }

  /** Such bytes can always be found. */
  lemma AliensExist(s: Text) returns (f: Byte, g: Byte)
    requires |s| > 3
    ensures Aliens(s, f, g)
  {
    var x, y := s[0], s[|s| - 1];
    f := if x != 0 && y != 0 then 0 else if x != 1 && y != 1 then 1 else 2;
    g := if f != 1 && x != 1 && y != 1 then 1 else if f != 2 && x != 2 && y != 2 then 2 else 3;
  }

  lemma AlienStandsOnce(s: Text, f: Byte, g: Byte, d: int, p: int)
    requires Aliens(s, f, g) && -|s| < d < WIDTH
    ensures At(Before(s, d) + Alien(s, f, g) + After(s, d), p, Alien(s, f, g)) <==> p == |Before(s, d)|
  {
    var pre, w, post := Before(s, d), Alien(s, f, g), After(s, d);
    var t, n, a := pre + w + post, |w| - 1, |pre|;
    if p == 0 && 0 < a {
      assert t[0] == s[0];
      Clashes(t, p, w, 0);
    } else if p < a {
      Clashes(t, p, w, n);
    } else if a < p <= a + n {
      Clashes(t, p, w, a + n - p);
    } else if a + n < p {
      assert p + n == |t| - 1 && post != [] ==> t[p + n] == s[|s| - 1];
      Clashes(t, p, w, n);
    }
  }

  lemma AlienHides(s: Text, f: Byte, g: Byte, d: int, p: int)
    requires Aliens(s, f, g) && -|s| < d < WIDTH
    ensures !At(Before(s, d) + Alien(s, f, g) + After(s, d), p, s)
  {
    var t := Before(s, d) + Alien(s, f, g) + After(s, d);
    if p < |Before(s, d)| { Clashes(t, p, s, |s| - 1); } else { Clashes(t, p, s, 0); }
  }

  /** For a value of three bytes, the decoy that comes after it in the list. */
  const LAST: Text := [255, 255, 254]

  lemma LastStandsOnce(s: Text, d: int, p: int)
    requires |s| == 3 && -3 < d < WIDTH && Agrees(s, d)
    ensures At(Before(s, d) + LAST + After(s, d), p, LAST) <==> p == |Before(s, d)|
  {
    var t, a := Before(s, d) + LAST + After(s, d), |Before(s, d)|;
    if p < a { Clashes(t, p, LAST, 2); } else if a < p <= a + 2 { Clashes(t, p, LAST, a + 2 - p); }
  }

  /** The byte of `s` that lies on the marker's edge is nowhere to be found. */
  lemma LastHides(s: Text, d: int, p: int)
    requires |s| == 3 && -3 < d < WIDTH && Agrees(s, d) && !(0 <= d && d + 3 <= WIDTH)
    ensures !At(Before(s, d) + LAST + After(s, d), p, s)
  {
    var t := Before(s, d) + LAST + After(s, d);
    if d < 0 {
      assert s[-d] == MARKER[d + -d] == 91;
      Clashes(t, p, s, -d);
    } else {
      assert s[0] == MARKER[d + 0];
      Clashes(t, p, s, 0);
    }
  }

  lemma Below3(a: Text, b: Text)
    requires |a| == |b| == 3
    requires a[0] < b[0] || (a[0] == b[0] && (a[1] < b[1] || (a[1] == b[1] && a[2] < b[2])))
    ensures Below(a, b)
  {
    var x, y := a[1..], b[1..];
    assert x[0] == a[1] && y[0] == b[1] && x[1..][0] == a[2] && y[1..][0] == b[2];
    assert Below(x[1..], y[1..]) <==> a[2] < b[2];
    assert a[0] == b[0] ==> Below(x, y);
  }

  lemma LastComesLast(s: Text, d: int)
    requires |s| == 3 && -3 < d < WIDTH && Agrees(s, d) && !(0 <= d && d + 3 <= WIDTH)
    ensures Precedes(s, LAST)
  {
    if d < 0 { assert s[-d] == MARKER[d + -d] == 91; } else { assert s[0] == MARKER[d + 0]; }
    Below3(s, LAST);
  }

  /** A value that is not clean has a clean one after it in the list that betrays it. */
  lemma CleanIsNecessary(s: Text) returns (w: Text)
    requires |s| >= SUBSTRING_MIN_BYTES && !Clean(s)
    ensures Clean(w) && Precedes(s, w) && !Guaranteed([s, w], SUBSTRING_MIN_BYTES)
  {
    var d :| -|s| < d < WIDTH && Agrees(s, d) && !(0 <= d && d + |s| <= WIDTH);
    if |s| == 3 {
      w := LAST;
      forall p ensures At(Before(s, d) + w + After(s, d), p, w) <==> p == |Before(s, d)| { LastStandsOnce(s, d, p); }
      forall p ensures !At(Before(s, d) + w + After(s, d), p, s) { LastHides(s, d, p); }
      LastComesLast(s, d);
    } else {
      var f, g := AliensExist(s);
      w := Alien(s, f, g);
      forall p ensures At(Before(s, d) + w + After(s, d), p, w) <==> p == |Before(s, d)| {
        AlienStandsOnce(s, f, g, d, p);
      }
      forall p ensures !At(Before(s, d) + w + After(s, d), p, s) { AlienHides(s, f, g, d, p); }
    }
    BracketFreeIsClean(w);
    DecoyBetrays(s, w, d);
  }

  /** A list that a boundary can hold: `s` and clean values, in order. */
  ghost predicate Company(s: Text, values: seq<Text>) {
    Canonical.Ordered(values, Precedes) && s in values && forall v | v in values && v != s && v != [] :: Clean(v)
  }

  /** The promise holds whatever clean values `s` is delivered with. */
  ghost predicate SafeInCompany(s: Text) {
    forall values | Company(s, values) :: Guaranteed(values, SUBSTRING_MIN_BYTES)
  }

  lemma CleanIsSafe(s: Text)
    requires Clean(s)
    ensures SafeInCompany(s)
  {
    forall values | Company(s, values) ensures Guaranteed(values, SUBSTRING_MIN_BYTES) {
      CleanIsEnough(values, SUBSTRING_MIN_BYTES);
    }
  }

  lemma Betrayed(s: Text, w: Text)
    requires Clean(w) && Precedes(s, w) && !Guaranteed([s, w], SUBSTRING_MIN_BYTES)
    ensures !SafeInCompany(s)
  {
    assert Company(s, [s, w]);
  }

  /** A value keeps the promise in every boundary with clean values exactly when it is clean itself. */
  lemma CleanExactly(s: Text)
    requires |s| >= SUBSTRING_MIN_BYTES
    ensures SafeInCompany(s) <==> Clean(s)
  {
    if Clean(s) {
      CleanIsSafe(s);
    } else {
      var w := CleanIsNecessary(s);
      Betrayed(s, w);
    }
  }

  // ---------------------------------------------------------------- values that are too short

  /** The text starts like a marker. */
  predicate Opens(t: Text) {
    t != [] && t[0] == 91
  }

  lemma NotAtStart(t: Text, s: Text, min: nat, i: nat)
    requires Clean(s) && At(t, 0, MARKER) && At(t, i, s)
    ensures Masks(t, s, min, i) ==> i > 0
  {
    if i == 0 { CleanInside(t, 0, s, 0); }
  }

  lemma OpensStep(t: Text, s: Text, min: nat, from: nat, i: nat)
    requires Clean(s) && At(t, 0, MARKER) && from <= |t| && i == Index(t, s, from) && i + |s| <= |t|
    requires Opens(Rewritten(t, s, min, i + |s|))
    ensures Opens(Rewritten(t, s, min, from))
  {
    RewrittenStep(t, s, min, from, i);
    NotAtStart(t, s, min, i);
  }

  lemma {:induction false} StaysOpen(t: Text, s: Text, min: nat, from: nat)
    requires Clean(s) && from <= |t| && At(t, 0, MARKER) && Opens(t)
    ensures Opens(Rewritten(t, s, min, from))
    decreases |t| - from
  {
    var i := Index(t, s, from);
    if i != -1 {
      StaysOpen(t, s, min, i + |s|);
      OpensStep(t, s, min, from, i);
    }
  }

  predicate BracketFree(s: Text) {
    s != [] && 91 !in s && 93 !in s
  }

  /** A value too short to be masked inside a word is left alone next to a word that is itself masked later, and
      masked when the text is redacted again: with values that are too short, redaction is not idempotent. */
  lemma ShortIsMaskedLater(w: Text, s: Text, min: nat)
    requires BracketFree(w) && BracketFree(s) && |w| < min && Precedes(w, s)
    requires !WordByte(w[|w| - 1]) && WordByte(s[0]) && forall p :: At(w + s, p, s) <==> p == |w|
    ensures Canonical.Ordered([w, s], Precedes)
    ensures var r := RedactAll(w + s, [w, s], min); r == w + MARKER && RedactAll(r, [w, s], min) != r
  {
    ShortIsPassed(w, s, min);
    WordIsMasked(w, s, min);
    ShortIsMasked(w, min);
    TwoPasses(w + s, w, s, min);
    TwoPasses(w + MARKER, w, s, min);
    Differs(RedactValue(w + MARKER, w, min), w, s, min);
  }

  lemma Differs(t: Text, w: Text, s: Text, min: nat)
    requires BracketFree(w) && BracketFree(s) && At(t, 0, MARKER) && Opens(t)
    ensures RedactValue(t, s, min) != w + MARKER
  {
    BracketFreeIsClean(s);
    StaysOpen(t, s, min, 0);
    assert !Opens(w + MARKER);
  }

  lemma TwoPasses(t: Text, w: Text, s: Text, min: nat)
    ensures RedactAll(t, [w, s], min) == RedactValue(RedactValue(t, w, min), s, min)
  {
    assert [w, s][..1] == [w] && [w][..0] == [];
    assert RedactAll(t, [w], min) == RedactValue(t, w, min);
  }

  lemma ShortIsPassed(w: Text, s: Text, min: nat)
    requires 0 < |w| < min && s != [] && WordByte(s[0]) && Precedes(w, s)
    ensures RedactValue(w + s, w, min) == w + s
  {
    var t := w + s;
    assert At(t, 0, w);
    assert t[|w|] == s[0];
    assert Index(t, w, 0) == 0 && !Masks(t, w, min, 0);
    assert Rewritten(t, w, min, 0) == Rewritten(t, w, min, |w|);
    var i := Index(t, w, |w|);
    if i != -1 {
      assert i == |w| && |s| == |w| && t[|w|..] == s;
      assert w == s by { forall k | 0 <= k < |w| ensures w[k] == s[k] { assert t[|w| + k] == s[k]; } }
      BelowTotal(w, s);
    }
  }

  lemma EndIsOutside(w: Text, s: Text)
    requires BracketFree(s)
    ensures !Inside(w + s, |w|, |w| + |s|)
  {
    var t := w + s;
    assert t[|t| - 1] == s[|s| - 1] != MARKER[20];
    forall q | q <= |w| && |t| <= q + WIDTH ensures !At(t, q, MARKER) { Clashes(t, q, MARKER, 20); }
  }

  lemma WordIsMasked(w: Text, s: Text, min: nat)
    requires w != [] && BracketFree(s) && !WordByte(w[|w| - 1]) && forall p :: At(w + s, p, s) <==> p == |w|
    ensures RedactValue(w + s, s, min) == w + MARKER
  {
    var t, a := w + s, |w|;
    assert At(t, a, s);
    assert Index(t, s, 0) == a;
    assert t[a - 1] == w[a - 1];
    EndIsOutside(w, s);
    assert Masks(t, s, min, a);
    assert Index(t, s, a + |s|) == -1;
    assert Rewritten(t, s, min, 0) == Replace(t, a, a + |s|);
    assert t[..a] == w && t[a + |s|..] == [];
  }

  lemma ShortIsMasked(w: Text, min: nat)
    requires BracketFree(w)
    ensures At(RedactValue(w + MARKER, w, min), 0, MARKER) && Opens(RedactValue(w + MARKER, w, min))
  {
    var t := w + MARKER;
    assert At(t, 0, w);
    assert t[|w|] == 91 && t[0] == w[0];
    forall q | q <= 0 ensures !At(t, q, MARKER) { Clashes(t, q, MARKER, 0); }
    assert Index(t, w, 0) == 0 && Masks(t, w, min, 0);
    Inserted(Rewritten(t, w, min, |w|), 0, |w|, Rewritten(t, w, min, 0));
  }

  /** As when the keys "abcd-" and "wxyz" are redacted from "abcd-wxyz". */
  lemma KeysAreMaskedLater(w: Text, s: Text)
    requires w == [97, 98, 99, 100, 45] && s == [119, 120, 121, 122]
    ensures var r := RedactAll(w + s, [w, s], KEY_SUBSTRING_MIN_BYTES);
            r == w + MARKER && RedactAll(r, [w, s], KEY_SUBSTRING_MIN_BYTES) != r
  {
    forall p ensures At(w + s, p, s) <==> p == |w| {
      if p != |w| { Clashes(w + s, p, s, 0); }
    }
    ShortIsMaskedLater(w, s, KEY_SUBSTRING_MIN_BYTES);
  }
}
