/** Sets that arrive as lists with unique keys: comparing them, and the fingerprint that stands for them. */
module Keyed {
  import Canonical

  /** A key and what is granted under it. */
  datatype Input<K, G> = Input(key: K, grant: G)

  predicate UniqueInputs<K(==), G>(inputs: seq<Input<K, G>>) {
    forall i, j | 0 <= i < j < |inputs| :: inputs[i].key != inputs[j].key
  }

  lemma FreshKey<K, G>(inputs: seq<Input<K, G>>, x: Input<K, G>)
    requires UniqueInputs(inputs + [x])
    ensures UniqueInputs(inputs) && forall y | y in inputs :: y.key != x.key
  {
    var all := inputs + [x];
    forall i | 0 <= i < |inputs| ensures inputs[i].key != x.key && all[i] == inputs[i] {
      assert all[i].key != all[|inputs|].key;
    }
    forall i, j | 0 <= i < j < |inputs| ensures inputs[i].key != inputs[j].key {
      assert all[i].key != all[j].key;
    }
  }

  function Gathered<K(==), G>(inputs: seq<Input<K, G>>): map<K, G>
    decreases |inputs|
  {
    if inputs == [] then map[] else
    var n := |inputs| - 1;
    Gathered(inputs[..n])[inputs[n].key := inputs[n].grant]
  }

  lemma {:induction false} GatheredIs<K, G>(inputs: seq<Input<K, G>>)
    requires UniqueInputs(inputs)
    ensures var want := Gathered(inputs);
            |want| == |inputs| && (forall x | x in inputs :: x.key in want && want[x.key] == x.grant)
            && forall k | k in want :: Input(k, want[k]) in inputs
    decreases |inputs|
  {
    if inputs != [] {
      var n := |inputs| - 1;
      assert inputs == inputs[..n] + [inputs[n]];
      FreshKey(inputs[..n], inputs[n]);
      GatheredIs(inputs[..n]);
    }
  }

  /** The set, without the order it was listed in. */
  function Requested<K(==), G>(inputs: seq<Input<K, G>>): (want: map<K, G>)
    requires UniqueInputs(inputs)
    ensures |want| == |inputs| && (forall x | x in inputs :: x.key in want && want[x.key] == x.grant)
    ensures forall k | k in want :: Input(k, want[k]) in inputs
  {
    GatheredIs(inputs);
    Gathered(inputs)
  }

  lemma NextInput<K, G>(inputs: seq<Input<K, G>>, i: nat)
    requires UniqueInputs(inputs) && i < |inputs|
    ensures UniqueInputs(inputs[..i]) && UniqueInputs(inputs[..i + 1]) && inputs[i].key !in Requested(inputs[..i])
    ensures Requested(inputs[..i + 1]) == Requested(inputs[..i])[inputs[i].key := inputs[i].grant]
  {
    assert inputs[..i + 1][..i] == inputs[..i] && inputs[..i + 1] == inputs[..i] + [inputs[i]];
    FreshKey(inputs[..i], inputs[i]);
  }

  lemma Contained<K, G>(xs: seq<Input<K, G>>, ys: seq<Input<K, G>>, a: map<K, G>, b: map<K, G>)
    requires (forall k | k in a :: Input(k, a[k]) in xs) && forall x | x in xs :: x in ys
    requires forall y | y in ys :: y.key in b && b[y.key] == y.grant
    ensures forall k | k in a :: k in b && b[k] == a[k]
  {
    forall k | k in a ensures k in b && b[k] == a[k] { assert Input(k, a[k]) in ys; }
  }

  lemma SameSets<K(!new), G(!new)>(xs: seq<Input<K, G>>, ys: seq<Input<K, G>>)
    requires UniqueInputs(xs) && UniqueInputs(ys) && forall x :: x in xs <==> x in ys
    ensures Requested(xs) == Requested(ys)
  {
    Contained(xs, ys, Requested(xs), Requested(ys));
    Contained(ys, xs, Requested(ys), Requested(xs));
  }

  lemma SameSize<K>(small: set<K>, large: set<K>)
    requires small <= large && |small| == |large|
    ensures small == large
  {
    var extra := large - small;
    assert large == small + extra && |large| == |small| + |extra|;
  }

  /** Equal size and every input found: equal sets. */
  method SetEqual<K(==), G(==)>(existing: map<K, G>, inputs: seq<Input<K, G>>) returns (equal: bool)
    requires UniqueInputs(inputs)
    ensures equal <==> existing == Requested(inputs)
  {
    if |existing| != |inputs| { return false; }
    for i := 0 to |inputs|
      invariant forall j | 0 <= j < i :: inputs[j].key in existing && existing[inputs[j].key] == inputs[j].grant
    {
      assert inputs[i] in inputs;
      if inputs[i].key !in existing || existing[inputs[i].key] != inputs[i].grant { return false; }
    }
    assert |Requested(inputs).Keys| == |Requested(inputs)| && |existing.Keys| == |existing|;
    SameSize(Requested(inputs).Keys, existing.Keys);
    return true;
  }

  /** `all` falls apart into `left` and `struck`. */
  ghost predicate Apart<K, G>(all: map<K, G>, left: map<K, G>, struck: map<K, G>) {
    all == left + struck && left.Keys !! struck.Keys
  }

  lemma Strikes<K, G>(all: map<K, G>, left: map<K, G>, struck: map<K, G>, k: K)
    requires Apart(all, left, struck) && k in left
    ensures Apart(all, left - {k}, struck[k := left[k]])
  {
  }

  /** The first `i` inputs have been found in `all` and struck off; `left` is the rest. */
  ghost predicate Striking<K, G>(all: map<K, G>, left: map<K, G>, inputs: seq<Input<K, G>>, i: nat) {
    i <= |inputs| && UniqueInputs(inputs[..i]) && Apart(all, left, Requested(inputs[..i]))
  }

  lemma NotFound<K, G>(all: map<K, G>, left: map<K, G>, inputs: seq<Input<K, G>>, i: nat)
    requires UniqueInputs(inputs) && i < |inputs| && Striking(all, left, inputs, i)
    requires inputs[i].key !in left || left[inputs[i].key] != inputs[i].grant
    ensures all != Requested(inputs)
  {
    NextInput(inputs, i);
    assert inputs[i] in inputs;
  }

  lemma NothingLeft<K, G>(all: map<K, G>, left: map<K, G>, struck: map<K, G>)
    requires Apart(all, left, struck)
    ensures |left| == 0 <==> all == struck
  {
    if |left| != 0 {
      assert left.Keys != {};
      var k :| k in left;
      assert k in all && k !in struck;
    }
  }

  lemma StrikeNone<K, G>(all: map<K, G>, inputs: seq<Input<K, G>>)
    ensures Striking(all, all, inputs, 0)
  {
    assert inputs[..0] == [];
  }

  lemma StrikeAll<K, G>(all: map<K, G>, left: map<K, G>, inputs: seq<Input<K, G>>)
    requires UniqueInputs(inputs) && Striking(all, left, inputs, |inputs|)
    ensures |left| == 0 <==> all == Requested(inputs)
  {
    assert inputs[..|inputs|] == inputs;
    NothingLeft(all, left, Requested(inputs));
  }

  method StrikeOne<K(==), G(==)>(ghost all: map<K, G>, left: map<K, G>, inputs: seq<Input<K, G>>, i: nat)
    returns (found: bool, rest: map<K, G>)
    requires UniqueInputs(inputs) && i < |inputs| && Striking(all, left, inputs, i)
    ensures if found then Striking(all, rest, inputs, i + 1) else all != Requested(inputs)
  {
    var x := inputs[i];
    NextInput(inputs, i);
    found := x.key in left && left[x.key] == x.grant;
    rest := left - {x.key};
    if found { Strikes(all, left, Requested(inputs[..i]), x.key); } else { NotFound(all, left, inputs, i); }
  }

  /** Strikes off each input that is found; equal sets leave nothing. */
  method StrikeOff<K(==), G(==)>(existing: map<K, G>, inputs: seq<Input<K, G>>) returns (equal: bool)
    requires UniqueInputs(inputs)
    ensures equal <==> existing == Requested(inputs)
  {
    var values := existing;
    var i := 0;
    StrikeNone(existing, inputs);
    while i < |inputs|
      invariant i <= |inputs| && Striking(existing, values, inputs, i)
    {
      equal, values := StrikeOne(existing, values, inputs, i);
      if !equal { return; }
      i := i + 1;
    }
    StrikeAll(existing, values, inputs);
    equal := |values| == 0;
  }

  // ---------------------------------------------------------------- fingerprints

  predicate UniqueBy<T, K(==)>(items: seq<T>, key: T -> K) {
    forall i, j | 0 <= i < j < |items| :: key(items[i]) != key(items[j])
  }

  ghost predicate StrictTotal<K(!new)>(less: (K, K) -> bool) {
    Canonical.StrictOrder(less) && forall x, y :: less(x, y) || x == y || less(y, x)
  }

  function OrderBy<T, K>(key: T -> K, less: (K, K) -> bool): (T, T) -> bool {
    (a, b) => less(key(a), key(b))
  }

  lemma OrderByKey<T(!new), K(!new)>(items: seq<T>, key: T -> K, less: (K, K) -> bool)
    requires StrictTotal(less) && UniqueBy(items, key)
    ensures Canonical.StrictOrder(OrderBy(key, less)) && Canonical.Comparable(items, OrderBy(key, less))
  {
    var order := OrderBy(key, less);
    forall x, y | x in items && y in items ensures order(x, y) || x == y || order(y, x) {
      var i :| 0 <= i < |items| && items[i] == x;
      var j :| 0 <= j < |items| && items[j] == y;
    }
  }

  /** The list sorted by key stands for its hash: hashing and encoding are injective. */
  function Fingerprint<T(==,!new), K(==,!new)>(items: seq<T>, key: T -> K, less: (K, K) -> bool): (r: seq<T>)
    requires StrictTotal(less) && UniqueBy(items, key)
    ensures Canonical.Ordered(r, OrderBy(key, less)) && forall x :: x in r <==> x in items
  {
    OrderByKey(items, key, less);
    Canonical.Sorted(items, OrderBy(key, less))
  }

  /** Equal fingerprints mean equal sets, and the order of a listing does not matter. */
  lemma FingerprintExact<T(!new), K(!new)>(xs: seq<T>, ys: seq<T>, key: T -> K, less: (K, K) -> bool)
    requires StrictTotal(less) && UniqueBy(xs, key) && UniqueBy(ys, key)
    ensures Fingerprint(xs, key, less) == Fingerprint(ys, key, less) <==> forall x :: x in xs <==> x in ys
  {
    OrderByKey(xs, key, less);
    OrderByKey(ys, key, less);
    Canonical.SortedExact(xs, ys, OrderBy(key, less));
  }

  // ---------------------------------------------------------------- the order of names

  predicate TextLess(a: string, b: string) {
    b != [] && (a == [] || a[0] < b[0] || (a[0] == b[0] && TextLess(a[1..], b[1..])))
  }

  lemma {:induction false} TextLessTransitive(a: string, b: string, c: string)
    requires TextLess(a, b) && TextLess(b, c)
    ensures TextLess(a, c)
    decreases |a|
  {
    if a != [] && a[0] == b[0] && b[0] == c[0] { TextLessTransitive(a[1..], b[1..], c[1..]); }
  }

  lemma {:induction false} TextLessTotal(a: string, b: string)
    ensures !TextLess(a, a) && (TextLess(a, b) || a == b || TextLess(b, a))
    decreases |a|
  {
    if a != [] {
      TextLessTotal(a[1..], if b != [] then b[1..] else []);
      assert a == [a[0]] + a[1..] && (b != [] ==> b == [b[0]] + b[1..]);
    }
  }
}
