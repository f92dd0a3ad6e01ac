/** Version precedence (section 11 of Semantic Versioning 2.0.0) and the check that the release notes run
    from newest to oldest. The order of alphanumeric identifiers is a parameter. */
module ReleaseOrder {
  import opened Wrappers

  // ---------------------------------------------------------------- text

  /** The pieces between separators; always at least one. */
  function Split(s: string, sep: char): (r: seq<string>)
    ensures r != [] && Join(r, sep) == s
  {
    if s == [] then [[]]
    else var rest := Split(s[1..], sep);
      if s[0] == sep then [[]] + rest else [[s[0]] + rest[0]] + rest[1..]
  }

  function Join(pieces: seq<string>, sep: char): string {
    if pieces == [] then [] else if |pieces| == 1 then pieces[0] else pieces[0] + [sep] + Join(pieces[1..], sep)
  }

  predicate IsDigit(c: char) {
    '0' <= c <= '9'
  }

  predicate IsNumeric(s: string) {
    s != [] && forall i | 0 <= i < |s| :: IsDigit(s[i])
  }

  function Number(s: string): nat {
    if s == [] then 0 else Number(s[..|s| - 1]) * 10 + (if IsDigit(s[|s| - 1]) then (s[|s| - 1] - '0') as nat else 0)
  }

  /** Without leading zeros, as section 9 of the standard asks. */
  predicate Canonical(s: string) {
    IsNumeric(s) && (|s| > 1 ==> s[0] != '0')
  }

  function IndexOf(s: string, c: char): (i: int)
    ensures i == -1 || (0 <= i < |s| && s[i] == c && c !in s[..i])
    ensures i == -1 ==> c !in s
  {
    if s == [] then -1 else if s[0] == c then 0
    else var i := IndexOf(s[1..], c);
      if i == -1 then -1 else
      assert s[..i + 1] == [s[0]] + s[1..][..i];
      i + 1
  }

  /** The three numbers, and the identifiers after the first hyphen. */
  datatype Parts = Parts(core: seq<string>, pre: Option<seq<string>>)

  function Parse(v: string): Parts {
    var i := IndexOf(v, '-');
    if i == -1 then Parts(Split(v, '.'), None) else Parts(Split(v[..i], '.'), Some(Split(v[i + 1..], '.')))
  }

  function Render(p: Parts): string {
    Join(p.core, '.') + if p.pre.None? then "" else "-" + Join(p.pre.value, '.')
  }

  predicate PrereleaseChar(c: char) {
    IsDigit(c) || 'A' <= c <= 'Z' || 'a' <= c <= 'z' || c == '.' || c == '-'
  }

  /** The accepted version syntax; it allows leading zeros. */
  predicate Matches(v: string) {
    var p := Parse(v);
    |p.core| == 3 && (forall i | 0 <= i < 3 :: IsNumeric(p.core[i]))
    && (p.pre.Some? ==> var i := IndexOf(v, '-'); i + 1 < |v| && forall k | i < k < |v| :: PrereleaseChar(v[k]))
  }

  /** An identifier that has no other spelling. */
  predicate Plain(x: string) {
    IsNumeric(x) ==> Canonical(x)
  }

  predicate AllPlain(xs: seq<string>) {
    forall x | x in xs :: Plain(x)
  }

  /** A version without leading zeros. */
  predicate WellFormed(v: string) {
    Matches(v) && AllPlain(Parse(v).core) && (Parse(v).pre.Some? ==> AllPlain(Parse(v).pre.value))
  }

  // ---------------------------------------------------------------- the comparison

  type Alpha = (string, string) -> int

  function Sign(n: int): int {
    if n < 0 then -1 else if n > 0 then 1 else 0
  }

  /** A text that may stand in an identifier. */
  predicate Word(x: string) {
    forall c | c in x :: PrereleaseChar(c)
  }

  predicate Words(xs: seq<string>) {
    forall x | x in xs :: Word(x)
  }

  /** Orders the words; nothing is asked about other texts. */
  ghost predicate TotalOrder(cmp: Alpha) {
    (forall x, y | Word(x) && Word(y) :: Sign(cmp(x, y)) == -Sign(cmp(y, x)))
    && (forall x, y | Word(x) && Word(y) :: cmp(x, y) == 0 <==> x == y)
    && (forall x, y, z | Word(x) && Word(y) && Word(z) :: cmp(x, y) < 0 && cmp(y, z) < 0 ==> cmp(x, z) < 0)
  }

  function CompareIdentifiers(x: string, y: string, alpha: Alpha): int {
    if x == y then 0
    else if IsNumeric(x) && IsNumeric(y) then Number(x) - Number(y)
    else if IsNumeric(x) then -1
    else if IsNumeric(y) then 1
    else alpha(x, y)
  }

  /** The first pair of identifiers that differ decides, even when it compares as equal. */
  function CompareLists(xs: seq<string>, ys: seq<string>, alpha: Alpha): int {
    if xs == [] && ys == [] then 0
    else if xs == [] then -1
    else if ys == [] then 1
    else if xs[0] == ys[0] then CompareLists(xs[1..], ys[1..], alpha)
    else CompareIdentifiers(xs[0], ys[0], alpha)
  }

  /** The first of three numbers that differ. */
  function CompareCore(xs: seq<string>, ys: seq<string>, i: nat): int
    requires |xs| == |ys| == 3 && i <= 3
    decreases 3 - i
  {
    if i == 3 then 0
    else if Number(xs[i]) != Number(ys[i]) then Number(xs[i]) - Number(ys[i])
    else CompareCore(xs, ys, i + 1)
  }

  function ComparePrerelease(x: Option<seq<string>>, y: Option<seq<string>>, alpha: Alpha): int {
    if x.None? && y.None? then 0
    else if x.None? then 1
    else if y.None? then -1
    else CompareLists(x.value, y.value, alpha)
  }

  function CompareParts(p: Parts, q: Parts, alpha: Alpha): int
    requires |p.core| == |q.core| == 3
  {
    var c := CompareCore(p.core, q.core, 0);
    if c != 0 then c else ComparePrerelease(p.pre, q.pre, alpha)
  }

  function Compare(left: string, right: string, alpha: Alpha): int
    requires |Parse(left).core| == |Parse(right).core| == 3
  {
    CompareParts(Parse(left), Parse(right), alpha)
  }

  /** The comparison as it is made: three numbers, then identifier by identifier. */
  method CompareSemver(left: string, right: string, alpha: Alpha) returns (r: int)
    requires |Parse(left).core| == |Parse(right).core| == 3
    ensures r == Compare(left, right, alpha)
  {
    var p, q := Parse(left), Parse(right);
    for index := 0 to 3
      invariant CompareCore(p.core, q.core, 0) == CompareCore(p.core, q.core, index)
    {
      if Number(p.core[index]) != Number(q.core[index]) { return Number(p.core[index]) - Number(q.core[index]); }
    }
    if p.pre.None? || q.pre.None? { return if p.pre == q.pre then 0 else if p.pre.None? then 1 else -1; }
    r := CompareAll(p.pre.value, q.pre.value, alpha);
  }

  method CompareAll(ls: seq<string>, rs: seq<string>, alpha: Alpha) returns (r: int)
    ensures r == CompareLists(ls, rs, alpha)
  {
    var length := if |ls| < |rs| then |rs| else |ls|;
    for index := 0 to length
      invariant index <= |ls| && index <= |rs|
      invariant CompareLists(ls, rs, alpha) == CompareLists(ls[index..], rs[index..], alpha)
    {
      if index >= |ls| { return -1; }
      if index >= |rs| { return 1; }
      if ls[index] != rs[index] { return CompareIdentifiers(ls[index], rs[index], alpha); }
      assert ls[index..][1..] == ls[index + 1..] && rs[index..][1..] == rs[index + 1..];
    }
    return 0;
  }

  // ---------------------------------------------------------------- a strict order, total without leading zeros

  lemma {:induction false} NumberBounds(s: string)
    requires Canonical(s)
    ensures Pow10(|s| - 1) <= Number(s) < Pow10(|s|) || (s == "0" && Number(s) == 0)
    decreases |s|
  {
    var n := |s| - 1;
    if n > 0 {
      var front := s[..n];
      assert forall i | 0 <= i < n :: IsDigit(front[i]);
      NumberBounds(front);
      assert front != "0";
    } else {
      assert s[..0] == [];
    }
  }

  function Pow10(n: int): nat {
    if n <= 0 then 1 else 10 * Pow10(n - 1)
  }

  lemma {:induction false} PowGrows(m: int, n: int)
    requires 0 <= m <= n
    ensures Pow10(m) <= Pow10(n)
    decreases n
  {
    if m < n { PowGrows(m, n - 1); }
  }

  lemma {:induction false} SameLengthNumbers(x: string, y: string)
    requires IsNumeric(x) && IsNumeric(y) && |x| == |y| && Number(x) == Number(y)
    ensures x == y
    decreases |x|
  {
    var n := |x| - 1;
    assert x == x[..n] + [x[n]] && y == y[..n] + [y[n]];
    if n > 0 { SameLengthNumbers(x[..n], y[..n]); } else { assert x[..0] == y[..0]; }
  }

  /** Without leading zeros a number has one spelling. */
  lemma NumberInjective(x: string, y: string)
    requires Canonical(x) && Canonical(y) && Number(x) == Number(y)
    ensures x == y
  {
    NumberBounds(x);
    NumberBounds(y);
    if |x| < |y| { PowGrows(|x|, |y| - 1); } else if |y| < |x| { PowGrows(|y|, |x| - 1); }
    assert |x| == |y|;
    SameLengthNumbers(x, y);
  }

  /** Two identifiers that are spelled differently and compare as equal. */
  predicate Respelled(x: string, y: string) {
    x != y && IsNumeric(x) && IsNumeric(y) && Number(x) == Number(y)
  }

  lemma {:induction false} SplitWords(s: string, sep: char)
    requires Word(s)
    ensures Words(Split(s, sep))
    decreases |s|
  {
    if s != [] {
      assert s[0] in s && forall c | c in s[1..] :: c in s;
      SplitWords(s[1..], sep);
      var rest := Split(s[1..], sep);
      assert rest[0] in rest && forall x | x in rest[1..] :: x in rest;
    }
  }

  /** The identifiers of a pre-release are words. */
  predicate Spelled(p: Parts) {
    p.pre.Some? ==> Words(p.pre.value)
  }

  lemma MatchesSpelled(v: string)
    requires Matches(v)
    ensures Spelled(Parse(v))
  {
    var i := IndexOf(v, '-');
    if i != -1 {
      var pre := v[i + 1..];
      forall c | c in pre ensures PrereleaseChar(c) {
        var k :| 0 <= k < |pre| && pre[k] == c;
        assert v[i + 1 + k] == c;
      }
      SplitWords(pre, '.');
    }
  }

  lemma IdentifiersOrdered(x: string, y: string, z: string, alpha: Alpha)
    requires TotalOrder(alpha) && Word(x) && Word(y) && Word(z)
    ensures CompareIdentifiers(x, y, alpha) == 0 <==> x == y || Respelled(x, y)
    ensures Sign(CompareIdentifiers(x, y, alpha)) == -Sign(CompareIdentifiers(y, x, alpha))
    ensures CompareIdentifiers(x, y, alpha) < 0 && CompareIdentifiers(y, z, alpha) < 0 ==>
            CompareIdentifiers(x, z, alpha) < 0
  {
  }

  /** The identifiers at `i` are the first that differ, and two spellings of one number. */
  predicate CollideAt(xs: seq<string>, ys: seq<string>, i: nat) {
    i < |xs| && i < |ys| && xs[..i] == ys[..i] && Respelled(xs[i], ys[i])
  }

  ghost predicate Collide(xs: seq<string>, ys: seq<string>) {
    exists i: nat :: CollideAt(xs, ys, i)
  }

  lemma CollideShift(xs: seq<string>, ys: seq<string>, i: nat)
    requires xs != [] && ys != [] && xs[0] == ys[0] && i + 1 < |xs| && i + 1 < |ys|
    ensures CollideAt(xs, ys, i + 1) <==> CollideAt(xs[1..], ys[1..], i)
  {
    var x, y := xs[1..], ys[1..];
    assert x[i] == xs[i + 1] && y[i] == ys[i + 1];
    assert xs[..i + 1] == [xs[0]] + x[..i] && ys[..i + 1] == [ys[0]] + y[..i];
    assert x[..i] == xs[..i + 1][1..] && y[..i] == ys[..i + 1][1..];
  }

  lemma CollideLater(xs: seq<string>, ys: seq<string>)
    requires xs != [] && ys != [] && xs[0] == ys[0]
    ensures Collide(xs, ys) <==> Collide(xs[1..], ys[1..])
  {
    if i: nat :| CollideAt(xs, ys, i) {
      assert i > 0;
      CollideShift(xs, ys, i - 1);
    }
    if i: nat :| CollideAt(xs[1..], ys[1..], i) {
      CollideShift(xs, ys, i);
      assert CollideAt(xs, ys, i + 1);
    }
  }

  lemma NoPrefix(xs: seq<string>, ys: seq<string>, i: nat)
    requires i <= |xs| && i <= |ys| && xs[..i] == ys[..i]
    ensures i > 0 ==> xs[0] == ys[0]
  {
    if i > 0 { assert xs[0] == xs[..i][0] && ys[0] == ys[..i][0]; }
  }

  lemma CollideFirst(xs: seq<string>, ys: seq<string>)
    requires xs != [] && ys != [] && xs[0] != ys[0]
    ensures Collide(xs, ys) <==> Respelled(xs[0], ys[0])
  {
    if Respelled(xs[0], ys[0]) { assert CollideAt(xs, ys, 0); }
    if i: nat :| CollideAt(xs, ys, i) { NoPrefix(xs, ys, i); }
  }

  lemma {:induction false} ListsOrdered(xs: seq<string>, ys: seq<string>, alpha: Alpha)
    requires TotalOrder(alpha) && Words(xs) && Words(ys)
    ensures CompareLists(xs, ys, alpha) == 0 <==> xs == ys || Collide(xs, ys)
    ensures Sign(CompareLists(xs, ys, alpha)) == -Sign(CompareLists(ys, xs, alpha))
    decreases |xs|
  {
    if xs != [] && ys != [] {
      assert xs == [xs[0]] + xs[1..] && ys == [ys[0]] + ys[1..];
      if xs[0] == ys[0] {
        ListsOrdered(xs[1..], ys[1..], alpha);
        CollideLater(xs, ys);
      } else {
        IdentifiersOrdered(xs[0], ys[0], ys[0], alpha);
        CollideFirst(xs, ys);
      }
    }
  }

  lemma {:induction false} ListsTransitive(xs: seq<string>, ys: seq<string>, zs: seq<string>, alpha: Alpha)
    requires TotalOrder(alpha) && Words(xs) && Words(ys) && Words(zs)
    requires CompareLists(xs, ys, alpha) < 0 && CompareLists(ys, zs, alpha) < 0
    ensures CompareLists(xs, zs, alpha) < 0
    decreases |xs|
  {
    if xs != [] && ys != [] && zs != [] {
      IdentifiersOrdered(xs[0], ys[0], zs[0], alpha);
      if xs[0] == ys[0] == zs[0] { ListsTransitive(xs[1..], ys[1..], zs[1..], alpha); }
    }
  }

  predicate SameNumbers(xs: seq<string>, ys: seq<string>)
    requires |xs| == |ys| == 3
  {
    forall i | 0 <= i < 3 :: Number(xs[i]) == Number(ys[i])
  }

  lemma CoreOrdered(xs: seq<string>, ys: seq<string>, zs: seq<string>)
    requires |xs| == |ys| == |zs| == 3
    ensures CompareCore(xs, ys, 0) == -CompareCore(ys, xs, 0)
    ensures CompareCore(xs, ys, 0) == 0 <==> SameNumbers(xs, ys)
    ensures CompareCore(xs, ys, 0) < 0 && CompareCore(ys, zs, 0) < 0 ==> CompareCore(xs, zs, 0) < 0
    ensures CompareCore(xs, ys, 0) == 0 ==> CompareCore(xs, zs, 0) == CompareCore(ys, zs, 0)
    ensures CompareCore(ys, zs, 0) == 0 ==> CompareCore(xs, zs, 0) == CompareCore(xs, ys, 0)
  {
    CoreUnfolds(xs, ys);
    CoreUnfolds(ys, xs);
    CoreUnfolds(ys, zs);
    CoreUnfolds(xs, zs);
  }

  lemma CoreUnfolds(xs: seq<string>, ys: seq<string>)
    requires |xs| == |ys| == 3
    ensures CompareCore(xs, ys, 0) ==
            if Number(xs[0]) != Number(ys[0]) then Number(xs[0]) - Number(ys[0])
            else if Number(xs[1]) != Number(ys[1]) then Number(xs[1]) - Number(ys[1])
            else Number(xs[2]) - Number(ys[2])
  {
    assert CompareCore(xs, ys, 2) == Number(xs[2]) - Number(ys[2]);
  }

  /** Of one precedence: equal numbers, and equal pre-releases but for a number spelled in another way, which
      hides everything after it. */
  ghost predicate Level(p: Parts, q: Parts)
    requires |p.core| == |q.core| == 3
  {
    SameNumbers(p.core, q.core)
    && (p.pre == q.pre || (p.pre.Some? && q.pre.Some? && Collide(p.pre.value, q.pre.value)))
  }

  lemma PartsOrdered(p: Parts, q: Parts, alpha: Alpha)
    requires TotalOrder(alpha) && |p.core| == |q.core| == 3 && Spelled(p) && Spelled(q)
    ensures CompareParts(p, q, alpha) == 0 <==> Level(p, q)
    ensures Sign(CompareParts(p, q, alpha)) == -Sign(CompareParts(q, p, alpha))
  {
    CoreOrdered(p.core, q.core, q.core);
    if p.pre.Some? && q.pre.Some? { ListsOrdered(p.pre.value, q.pre.value, alpha); }
  }

  lemma PartsTransitive(p: Parts, q: Parts, r: Parts, alpha: Alpha)
    requires TotalOrder(alpha) && |p.core| == |q.core| == |r.core| == 3 && Spelled(p) && Spelled(q) && Spelled(r)
    requires CompareParts(p, q, alpha) < 0 && CompareParts(q, r, alpha) < 0
    ensures CompareParts(p, r, alpha) < 0
  {
    CoreOrdered(p.core, q.core, r.core);
    var c, d := CompareCore(p.core, q.core, 0), CompareCore(q.core, r.core, 0);
    if c == 0 && d == 0 && p.pre.Some? && q.pre.Some? && r.pre.Some? {
      ListsTransitive(p.pre.value, q.pre.value, r.pre.value, alpha);
    }
  }

  /** Exactly which versions compare as equal. */
  lemma CompareZeroExact(v: string, w: string, alpha: Alpha)
    requires TotalOrder(alpha) && Matches(v) && Matches(w)
    ensures Compare(v, w, alpha) == 0 <==> Level(Parse(v), Parse(w))
  {
    MatchesSpelled(v);
    MatchesSpelled(w);
    PartsOrdered(Parse(v), Parse(w), alpha);
  }

  lemma CompareAntisymmetric(v: string, w: string, alpha: Alpha)
    requires TotalOrder(alpha) && Matches(v) && Matches(w)
    ensures Sign(Compare(v, w, alpha)) == -Sign(Compare(w, v, alpha))
  {
    MatchesSpelled(v);
    MatchesSpelled(w);
    PartsOrdered(Parse(v), Parse(w), alpha);
  }

  lemma CompareTransitive(u: string, v: string, w: string, alpha: Alpha)
    requires TotalOrder(alpha) && Matches(u) && Matches(v) && Matches(w)
    requires Compare(u, v, alpha) < 0 && Compare(v, w, alpha) < 0
    ensures Compare(u, w, alpha) < 0
  {
    MatchesSpelled(u);
    MatchesSpelled(v);
    MatchesSpelled(w);
    PartsTransitive(Parse(u), Parse(v), Parse(w), alpha);
  }

  // ---------------------------------------------------------------- without leading zeros

  lemma PlainNotRespelled(xs: seq<string>, ys: seq<string>)
    requires AllPlain(xs) && AllPlain(ys)
    ensures !Collide(xs, ys)
  {
    if i: nat :| CollideAt(xs, ys, i) {
      assert xs[i] in xs && ys[i] in ys;
      NumberInjective(xs[i], ys[i]);
    }
  }

  lemma PlainCore(xs: seq<string>, ys: seq<string>)
    requires |xs| == |ys| == 3 && AllPlain(xs) && AllPlain(ys) && SameNumbers(xs, ys)
    requires forall i | 0 <= i < 3 :: IsNumeric(xs[i]) && IsNumeric(ys[i])
    ensures xs == ys
  {
    forall i | 0 <= i < 3 ensures xs[i] == ys[i] {
      assert xs[i] in xs && ys[i] in ys;
      NumberInjective(xs[i], ys[i]);
    }
  }

  /** Parsing loses nothing. */
  lemma RenderParse(v: string)
    ensures Render(Parse(v)) == v
  {
    var i := IndexOf(v, '-');
    if i != -1 { assert v == v[..i] + ['-'] + v[i + 1..]; }
  }

  /** Then only a version itself has its precedence: the order is total. */
  lemma CompareTotal(v: string, w: string, alpha: Alpha)
    requires TotalOrder(alpha) && WellFormed(v) && WellFormed(w)
    ensures Compare(v, w, alpha) == 0 <==> v == w
  {
    var p, q := Parse(v), Parse(w);
    MatchesSpelled(v);
    MatchesSpelled(w);
    PartsOrdered(p, q, alpha);
    if Level(p, q) {
      PlainCore(p.core, q.core);
      if p.pre.Some? && q.pre.Some? { PlainNotRespelled(p.pre.value, q.pre.value); }
      RenderParse(v);
      RenderParse(w);
    }
  }

  // ---------------------------------------------------------------- with leading zeros

  lemma JoinShorter(first: string, rest: seq<string>, sep: char)
    requires first != []
    ensures Join([first] + rest, sep) == [first[0]] + Join([first[1..]] + rest, sep)
  {
    assert ([first] + rest)[1..] == rest && ([first[1..]] + rest)[1..] == rest && first == [first[0]] + first[1..];
  }

  lemma SplitFirst(s: string, sep: char, first: string, rest: seq<string>)
    requires s != [] && s[0] != sep && first != [] && first[0] == s[0] && Split(s[1..], sep) == [first[1..]] + rest
    ensures Split(s, sep) == [first] + rest
  {
    assert first == [s[0]] + first[1..] && ([first[1..]] + rest)[1..] == rest;
  }

  lemma SplitEmpty(s: string, sep: char)
    ensures Split([sep] + s, sep) == [[]] + Split(s, sep)
  {
    assert ([sep] + s)[1..] == s;
  }

  lemma {:induction false} SplitJoin(pieces: seq<string>, sep: char)
    requires pieces != [] && forall x | x in pieces :: sep !in x
    ensures Split(Join(pieces, sep), sep) == pieces
    decreases |pieces|, |pieces[0]|
  {
    var first, rest := pieces[0], pieces[1..];
    assert first in pieces && pieces == [first] + rest;
    if first != [] {
      assert first[0] in first;
      SplitJoin([first[1..]] + rest, sep);
      JoinShorter(first, rest, sep);
      SplitFirst(Join(pieces, sep), sep, first, rest);
    } else if rest != [] {
      SplitJoin(rest, sep);
      assert Join(pieces, sep) == [sep] + Join(rest, sep);
      SplitEmpty(Join(rest, sep), sep);
    }
  }

  lemma {:induction false} FirstHyphen(a: string, b: string)
    requires '-' !in a
    ensures IndexOf(a + "-" + b, '-') == |a|
    decreases |a|
  {
    var s := a + "-" + b;
    if a != [] {
      assert a[0] in a && s[0] == a[0] && s[1..] == a[1..] + "-" + b;
      FirstHyphen(a[1..], b);
    }
  }

  /** A rendered pre-release version parses back to its parts. */
  lemma ParseRender(p: Parts)
    requires p.core != [] && p.pre.Some? && p.pre.value != [] && '-' !in Join(p.core, '.')
    requires (forall x | x in p.core :: '.' !in x) && forall x | x in p.pre.value :: '.' !in x
    ensures Parse(Render(p)) == p && IndexOf(Render(p), '-') == |Join(p.core, '.')|
  {
    var a, b := Join(p.core, '.'), Join(p.pre.value, '.');
    assert Render(p) == a + "-" + b;
    FirstHyphen(a, b);
    assert (a + "-" + b)[..|a|] == a && (a + "-" + b)[|a| + 1..] == b;
    SplitJoin(p.core, '.');
    SplitJoin(p.pre.value, '.');
  }

  const ONE: seq<string> := ["1", "0", "0"]

  lemma OneIs()
    ensures Join(ONE, '.') == "1.0.0" && forall x | x in ONE :: IsNumeric(x) && '.' !in x
  {
    assert ONE[1..] == ["0", "0"] && ONE[1..][1..] == ["0"];
    assert Join(["0", "0"], '.') == "0.0";
  }

  /** Version 1.0.0 with two numeric identifiers. */
  lemma NumericPrerelease(x: string, y: string)
    requires IsNumeric(x) && IsNumeric(y)
    ensures var v := "1.0.0-" + x + "." + y; Matches(v) && Parse(v) == Parts(ONE, Some([x, y]))
  {
    var p := Parts(ONE, Some([x, y]));
    var v := "1.0.0-" + x + "." + y;
    OneIs();
    assert [x, y][1..] == [y];
    assert Join([x, y], '.') == x + ['.'] + y;
    assert Render(p) == "1.0.0" + ("-" + (x + ['.'] + y)) == v;
    ParseRender(p);
    assert forall k | 0 <= k < |x| :: v[6 + k] == x[k];
    assert forall k | 0 <= k < |y| :: v[7 + |x| + k] == y[k];
    forall k | 5 < k < |v| ensures PrereleaseChar(v[k]) {
      if k < 6 + |x| { assert v[6 + (k - 6)] == x[k - 6]; }
      else if k > 6 + |x| { assert v[7 + |x| + (k - 7 - |x|)] == y[k - 7 - |x|]; }
    }
  }

  lemma SmallNumbers()
    ensures Number("0") == 0 && Number("1") == 1 && Number("01") == 1 && Number("5") == 5 && Number("9") == 9
  {
    assert "0"[..0] == "" && "1"[..0] == "" && "5"[..0] == "" && "9"[..0] == "" && "01"[..1] == "0";
  }

  lemma ListsCollide(alpha: Alpha)
    ensures CompareLists(["1", "5"], ["01", "0"], alpha) == 0 && CompareLists(["01", "0"], ["1", "9"], alpha) == 0
    ensures CompareLists(["1", "5"], ["1", "9"], alpha) < 0
  {
    SmallNumbers();
    assert ["1", "5"][1..] == ["5"] && ["1", "9"][1..] == ["9"];
  }

  /** Between two such versions the identifiers decide. */
  lemma NumericCompare(v: string, a: string, b: string, w: string, c: string, d: string, alpha: Alpha)
    requires IsNumeric(a) && IsNumeric(b) && IsNumeric(c) && IsNumeric(d)
    requires v == "1.0.0-" + a + "." + b && w == "1.0.0-" + c + "." + d
    ensures Matches(v) && Matches(w) && Compare(v, w, alpha) == CompareLists([a, b], [c, d], alpha)
  {
    NumericPrerelease(a, b);
    NumericPrerelease(c, d);
    CoreUnfolds(ONE, ONE);
  }

  lemma Spellings()
    ensures "1.0.0-" + "1" + "." + "5" == "1.0.0-1.5"
    ensures "1.0.0-" + "01" + "." + "0" == "1.0.0-01.0"
    ensures "1.0.0-" + "1" + "." + "9" == "1.0.0-1.9"
  {
  }

  lemma NumericCollide(u: string, v: string, w: string, alpha: Alpha)
    requires u == "1.0.0-" + "1" + "." + "5" && v == "1.0.0-" + "01" + "." + "0" && w == "1.0.0-" + "1" + "." + "9"
    ensures Matches(u) && Matches(v) && Matches(w)
    ensures Compare(u, v, alpha) == 0 && Compare(v, w, alpha) == 0 && Compare(u, w, alpha) < 0
  {
    ListsCollide(alpha);
    NumericCompare(u, "1", "5", v, "01", "0", alpha);
    NumericCompare(v, "01", "0", w, "1", "9", alpha);
    NumericCompare(u, "1", "5", w, "1", "9", alpha);
  }

  /** With leading zeros precedence is not total, and comparing as equal is not transitive: two accepted
      versions compare as equal to a third and differ from each other. */
  lemma LeadingZerosCollide(u: string, v: string, w: string, alpha: Alpha)
    requires u == "1.0.0-1.5" && v == "1.0.0-01.0" && w == "1.0.0-1.9"
    ensures Matches(u) && Matches(v) && Matches(w)
    ensures Compare(u, v, alpha) == 0 && Compare(v, w, alpha) == 0 && Compare(u, w, alpha) < 0
  {
    Spellings();
    NumericCollide(u, v, w, alpha);
  }

  // ---------------------------------------------------------------- the release list

  /** On the elements of `xs`, `newer` is a strict order. */
  ghost predicate StrictOn(xs: seq<string>, newer: (string, string) -> bool) {
    (forall x | x in xs :: !newer(x, x))
    && forall x, y, z | x in xs && y in xs && z in xs :: newer(x, y) && newer(y, z) ==> newer(x, z)
  }

  predicate Descends(xs: seq<string>, newer: (string, string) -> bool) {
    forall i, j | 0 <= i < j < |xs| :: newer(xs[i], xs[j])
  }

  /** Neighbours in order mean that every earlier element is newer than every later one. */
  lemma {:induction false} NeighboursDecide(xs: seq<string>, newer: (string, string) -> bool)
    requires StrictOn(xs, newer) && forall k | 0 <= k < |xs| - 1 :: newer(xs[k], xs[k + 1])
    ensures Descends(xs, newer)
    decreases |xs|
  {
    if |xs| > 1 {
      var n := |xs| - 1;
      NeighboursDecide(xs[..n], newer);
      forall i | 0 <= i < n ensures newer(xs[i], xs[n]) {
        assert newer(xs[n - 1], xs[n - 1 + 1]);
        if i < n - 1 { assert newer(xs[..n][i], xs[..n][n - 1]); }
      }
      forall i, j | 0 <= i < j < n ensures newer(xs[i], xs[j]) { assert newer(xs[..n][i], xs[..n][j]); }
    }
  }

  /** One pass over the list: syntax, repetition, and the order of neighbours. */
  method ValidateList(xs: seq<string>, matches: string -> bool, newer: (string, string) -> bool) returns (ok: bool)
    ensures StrictOn(xs, newer) ==> (ok <==> (forall x | x in xs :: matches(x)) && Descends(xs, newer))
  {
    var seen: set<string> := {};
    for index := 0 to |xs|
      invariant forall v | v in seen :: exists k :: 0 <= k < index && xs[k] == v
      invariant forall k | 0 <= k < index :: matches(xs[k])
      invariant forall k | 0 <= k < index - 1 :: newer(xs[k], xs[k + 1])
    {
      if !matches(xs[index]) { assert xs[index] in xs; return false; }
      if xs[index] in seen {
        ghost var k :| 0 <= k < index && xs[k] == xs[index];
        assert StrictOn(xs, newer) ==> !newer(xs[k], xs[index]);
        return false;
      }
      seen := seen + {xs[index]};
      if index > 0 && !newer(xs[index - 1], xs[index]) { return false; }
    }
    if StrictOn(xs, newer) { NeighboursDecide(xs, newer); }
    return true;
  }

  predicate Newer(v: string, w: string, alpha: Alpha) {
    Matches(v) && Matches(w) && Compare(v, w, alpha) > 0
  }

  lemma NewerTransitive(u: string, v: string, w: string, alpha: Alpha)
    requires TotalOrder(alpha) && Newer(u, v, alpha) && Newer(v, w, alpha)
    ensures Newer(u, w, alpha)
  {
    CompareAntisymmetric(u, v, alpha);
    CompareAntisymmetric(v, w, alpha);
    CompareTransitive(w, v, u, alpha);
    CompareAntisymmetric(u, w, alpha);
  }

  lemma NewerIrreflexive(v: string, alpha: Alpha)
    requires TotalOrder(alpha)
    ensures !Newer(v, v, alpha)
  {
    if Matches(v) { CompareAntisymmetric(v, v, alpha); }
  }

  /** Precedence is a strict order on all versions, with leading zeros or without. */
  lemma NewerIsStrict(versions: seq<string>, alpha: Alpha)
    requires TotalOrder(alpha)
    ensures StrictOn(versions, (v, w) => Newer(v, w, alpha))
  {
    forall v ensures !Newer(v, v, alpha) { NewerIrreflexive(v, alpha); }
    forall u, v, w | Newer(u, v, alpha) && Newer(v, w, alpha) ensures Newer(u, w, alpha) {
      NewerTransitive(u, v, w, alpha);
    }
  }

  /** Accepts exactly the lists of versions in which every earlier release is newer than every later one. */
  method ValidateOrder(versions: seq<string>, alpha: Alpha) returns (ok: bool)
    ensures TotalOrder(alpha) ==>
              (ok <==> (forall v | v in versions :: Matches(v)) && Descends(versions, (v, w) => Newer(v, w, alpha)))
  {
    ok := ValidateList(versions, v => Matches(v), (v, w) => Newer(v, w, alpha));
    if TotalOrder(alpha) { NewerIsStrict(versions, alpha); }
  }
}
