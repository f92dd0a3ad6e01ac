/** What one redaction pass does to markers: exactly the old ones, moved along, and the new ones remain. */
module CredentialMarkers {
  import opened Wrappers
  import opened CredentialRedaction

  /** The match at `i` is one that the scan from `from` finds and replaces. */
  ghost predicate Hit(t: Text, s: Text, min: nat, from: nat, i: int)
    requires |s| > 0 && from <= |t|
    decreases |t| - from
  {
    var next := Index(t, s, from);
    next != -1 && ((i == next && Masks(t, s, min, next)) || (next + |s| <= i && Hit(t, s, min, next + |s|, i)))
  }

  /** Where position `q` of the text is after the scan: each replacement before it moves it. */
  ghost function Moved(t: Text, s: Text, min: nat, from: nat, q: int): (r: int)
    requires |s| > 0 && from <= |t|
    ensures if q < from then r == q else from <= r
    decreases |t| - from
  {
    var next := Index(t, s, from);
    if next == -1 || q < next + |s| then q
    else Moved(t, s, min, next + |s|, q) + if Masks(t, s, min, next) then WIDTH - |s| else 0
  }

  /** What is a marker afterwards: what was one, and what has been replaced. */
  ghost predicate Marked(t: Text, s: Text, min: nat, from: nat, q: int)
    requires |s| > 0 && from <= |t|
  {
    At(t, q, MARKER) || Hit(t, s, min, from, q)
  }

  /** A marker after one replacement is the new one or stood before, on one side of the match. */
  lemma MarkerBefore(r: Text, i: nat, e: nat, p: int)
    requires i <= e <= |r| && At(Replace(r, i, e), p, MARKER) && p != i
    ensures if p < i then p + WIDTH <= i && At(r, p, MARKER)
            else e <= p - WIDTH + e - i && At(r, p - WIDTH + e - i, MARKER)
  {
    var r' := Replace(r, i, e);
    Inserted(r, i, e, r');
    if p < i { Apart(r', p, i); } else { Apart(r', i, p); }
    Origin(r, i, e, r', p, MARKER);
  }

  lemma MovedStep(t: Text, s: Text, min: nat, from: nat, i: nat, q: int)
    requires |s| > 0 && from <= |t| && i == Index(t, s, from) && i + |s| <= |t|
    ensures var m := Moved(t, s, min, i + |s|, q);
            Moved(t, s, min, from, q) == (if m < i + |s| || !Masks(t, s, min, i) then m else m + WIDTH - |s|)
            && (m < i + |s| <==> q < i + |s|)
  {
  }

  lemma HitStep(t: Text, s: Text, min: nat, from: nat, i: nat, q: int)
    requires |s| > 0 && from <= |t| && i == Index(t, s, from) && i + |s| <= |t|
    ensures Hit(t, s, min, from, q) <==> (q == i && Masks(t, s, min, i)) || Hit(t, s, min, i + |s|, q)
    ensures Hit(t, s, min, i + |s|, q) ==> i + |s| <= q
  {
  }

  /** One replacement carries a marker along. */
  lemma CarriesMarker(r: Text, i: nat, e: nat, masked: bool, r': Text, m: int, m': int)
    requires i <= e <= |r| && (masked ==> Clear(r, i, e)) && At(r, m, MARKER)
    requires r' == if masked then Replace(r, i, e) else r
    requires m' == if m < e || !masked then m else m + WIDTH - (e - i)
    ensures At(r', m', MARKER)
  {
    if masked { Survives(r, i, e, r', m, MARKER); }
  }

  lemma ClearIfMasked(t: Text, s: Text, min: nat, i: nat)
    requires Clean(s) && At(t, i, s)
    ensures Masks(t, s, min, i) ==> Clear(Rewritten(t, s, min, i + |s|), i, i + |s|)
  {
    if Masks(t, s, min, i) { MaskedIsClear(t, s, min, i); }
  }

  lemma ScanCarries(t: Text, s: Text, min: nat, from: nat, i: nat, q: int)
    requires Clean(s) && from <= |t| && i == Index(t, s, from) && i + |s| <= |t|
    requires At(Rewritten(t, s, min, i + |s|), Moved(t, s, min, i + |s|, q), MARKER)
    ensures At(Rewritten(t, s, min, from), Moved(t, s, min, from, q), MARKER)
  {
    RewrittenStep(t, s, min, from, i);
    MovedStep(t, s, min, from, i, q);
    var r, m, masked := Rewritten(t, s, min, i + |s|), Moved(t, s, min, i + |s|, q), Masks(t, s, min, i);
    ClearIfMasked(t, s, min, i);
    CarriesMarker(r, i, i + |s|, masked, Rewritten(t, s, min, from), m, Moved(t, s, min, from, q));
  }

  lemma {:induction false} OldMarkersMove(t: Text, s: Text, min: nat, from: nat, q: int)
    requires Clean(s) && from <= |t| && At(t, q, MARKER)
    ensures At(Rewritten(t, s, min, from), Moved(t, s, min, from, q), MARKER)
    decreases |t| - from
  {
    var i := Index(t, s, from);
    if i != -1 {
      OldMarkersMove(t, s, min, i + |s|, q);
      ScanCarries(t, s, min, from, i, q);
    }
  }

  lemma HitBecomesMarker(t: Text, s: Text, min: nat, from: nat, i: nat)
    requires |s| > 0 && from <= |t| && i == Index(t, s, from) && i + |s| <= |t| && Masks(t, s, min, i)
    ensures At(Rewritten(t, s, min, from), Moved(t, s, min, from, i), MARKER)
  {
    RewrittenStep(t, s, min, from, i);
    Inserted(Rewritten(t, s, min, i + |s|), i, i + |s|, Rewritten(t, s, min, from));
    assert Moved(t, s, min, from, i) == i;
  }

  lemma {:induction false} HitsBecomeMarkers(t: Text, s: Text, min: nat, from: nat, q: int)
    requires Clean(s) && from <= |t| && Hit(t, s, min, from, q)
    ensures At(Rewritten(t, s, min, from), Moved(t, s, min, from, q), MARKER)
    decreases |t| - from
  {
    var i := Index(t, s, from);
    HitStep(t, s, min, from, i, q);
    if q == i {
      HitBecomesMarker(t, s, min, from, i);
    } else {
      HitsBecomeMarkers(t, s, min, i + |s|, q);
      ScanCarries(t, s, min, from, i, q);
    }
  }

  /** Where a marker stood before one replacement that did not make it. */
  lemma MarkerAgo(r: Text, i: nat, e: nat, masked: bool, r': Text, p: int) returns (o: int)
    requires i <= e <= |r| && At(r', p, MARKER) && r' == (if masked then Replace(r, i, e) else r) && !(masked && p == i)
    ensures At(r, o, MARKER) && p == if o < e || !masked then o else o + WIDTH - (e - i)
  {
    o := p;
    if masked {
      MarkerBefore(r, i, e, p);
      o := if p < i then p else p - WIDTH + e - i;
    }
  }

  lemma ScanBack(t: Text, s: Text, min: nat, from: nat, i: nat, p: int) returns (o: int)
    requires |s| > 0 && from <= |t| && i == Index(t, s, from) && i + |s| <= |t|
    requires At(Rewritten(t, s, min, from), p, MARKER) && !(Masks(t, s, min, i) && p == i)
    ensures At(Rewritten(t, s, min, i + |s|), o, MARKER)
    ensures p == if o < i + |s| || !Masks(t, s, min, i) then o else o + WIDTH - |s|
  {
    RewrittenStep(t, s, min, from, i);
    o := MarkerAgo(Rewritten(t, s, min, i + |s|), i, i + |s|, Masks(t, s, min, i), Rewritten(t, s, min, from), p);
  }

  ghost predicate CameFrom(t: Text, s: Text, min: nat, from: nat, p: int, q: int)
    requires |s| > 0 && from <= |t|
  {
    Marked(t, s, min, from, q) && p == Moved(t, s, min, from, q)
  }

  lemma CameFromStep(t: Text, s: Text, min: nat, from: nat, i: nat, o: int, p: int, q: int)
    requires |s| > 0 && from <= |t| && i == Index(t, s, from) && i + |s| <= |t|
    requires p == if o < i + |s| || !Masks(t, s, min, i) then o else o + WIDTH - |s|
    requires CameFrom(t, s, min, i + |s|, o, q)
    ensures CameFrom(t, s, min, from, p, q)
  {
    HitStep(t, s, min, from, i, q);
    MovedStep(t, s, min, from, i, q);
  }

  lemma CameFromHere(t: Text, s: Text, min: nat, from: nat, p: int)
    requires |s| > 0 && from <= |t| && At(Rewritten(t, s, min, from), p, MARKER)
    requires var i := Index(t, s, from); i == -1 || (Masks(t, s, min, i) && p == i)
    ensures CameFrom(t, s, min, from, p, p)
  {
  }

  lemma {:induction false} MarkersOrigin(t: Text, s: Text, min: nat, from: nat, p: int) returns (q: int)
    requires Clean(s) && from <= |t| && At(Rewritten(t, s, min, from), p, MARKER)
    ensures CameFrom(t, s, min, from, p, q)
    decreases |t| - from
  {
    q := p;
    var i := Index(t, s, from);
    if i != -1 && !(Masks(t, s, min, i) && p == i) {
      var o := ScanBack(t, s, min, from, i, p);
      q := MarkersOrigin(t, s, min, i + |s|, o);
      CameFromStep(t, s, min, from, i, o, p, q);
    } else {
      CameFromHere(t, s, min, from, p);
    }
  }

  /** A pass breaks no marker and makes none out of old text: afterwards the markers are exactly the old ones,
      moved, and the ones put in the place of matches. */
  lemma MarkersExact(t: Text, s: Text, min: nat, p: int)
    requires Clean(s)
    ensures At(Rewritten(t, s, min, 0), p, MARKER) <==>
            exists q :: CameFrom(t, s, min, 0, p, q)
  {
    if At(Rewritten(t, s, min, 0), p, MARKER) {
      var q := MarkersOrigin(t, s, min, 0, p);
      assert CameFrom(t, s, min, 0, p, q);
    }
    if q :| CameFrom(t, s, min, 0, p, q) {
      if At(t, q, MARKER) { OldMarkersMove(t, s, min, 0, q); } else { HitsBecomeMarkers(t, s, min, 0, q); }
    }
  }
}
