/** Byte-bounded truncation that never cuts a UTF-8 character (section 4 of RFC 3629). */
module BoundedText {
  import opened Wrappers

  /** U+FFFD */
  const REPLACEMENT: Text := [0xEF, 0xBF, 0xBD]

  // ---------------------------------------------------------------- UTF-8

  predicate Tail(b: Byte) {
    0x80 <= b <= 0xBF
  }

  predicate RuneStart(b: Byte) {
    !Tail(b)
  }

  /** How many bytes the character at the front takes, or 0 when there is no well-formed one. */
  function RuneLen(s: Text): nat {
    if s == [] then 0
    else if s[0] <= 0x7F then 1
    else if 0xC2 <= s[0] <= 0xDF then (if |s| >= 2 && Tail(s[1]) then 2 else 0)
    else if 0xE0 <= s[0] <= 0xEF then (if |s| >= 3 && Second(s[0], s[1]) && Tail(s[2]) then 3 else 0)
    else if 0xF0 <= s[0] <= 0xF4 then (if |s| >= 4 && Second(s[0], s[1]) && Tail(s[2]) && Tail(s[3]) then 4 else 0)
    else 0
  }

  /** The second bytes that exclude overlong forms, surrogates and code points above U+10FFFF. */
  predicate Second(first: Byte, b: Byte) {
    if first == 0xE0 then 0xA0 <= b <= 0xBF
    else if first == 0xED then 0x80 <= b <= 0x9F
    else if first == 0xF0 then 0x90 <= b <= 0xBF
    else if first == 0xF4 then 0x80 <= b <= 0x8F
    else Tail(b)
  }

  predicate Valid(s: Text)
    decreases |s|
  {
    s == [] || (RuneLen(s) > 0 && Valid(s[RuneLen(s)..]))
  }

  /** Replaces every run of malformed bytes by one replacement character. */
  function ToValid(s: Text, inRun: bool): (r: Text)
    decreases |s|
  {
    if s == [] then []
    else if RuneLen(s) > 0 then s[..RuneLen(s)] + ToValid(s[RuneLen(s)..], false)
    else (if inRun then [] else REPLACEMENT) + ToValid(s[1..], true)
  }

  lemma FrontDecides(s: Text, t: Text)
    requires RuneLen(s) > 0 && RuneLen(s) <= |t| && t[..RuneLen(s)] == s[..RuneLen(s)]
    ensures RuneLen(t) == RuneLen(s)
  {
    var n := RuneLen(s);
    assert forall k | 0 <= k < n :: t[k] == t[..n][k] == s[..n][k] == s[k];
  }

  lemma {:induction false} ValidConcat(a: Text, b: Text)
    requires Valid(a) && Valid(b)
    ensures Valid(a + b)
    decreases |a|
  {
    if a == [] {
      assert a + b == b;
    } else {
      var n := RuneLen(a);
      assert (a + b)[..n] == a[..n];
      FrontDecides(a, a + b);
      assert (a + b)[n..] == a[n..] + b;
      ValidConcat(a[n..], b);
    }
  }

  lemma ValidRune(s: Text)
    requires RuneLen(s) > 0
    ensures Valid(s[..RuneLen(s)])
  {
    FrontDecides(s, s[..RuneLen(s)]);
  }

  lemma {:induction false} ToValidIsValid(s: Text, inRun: bool)
    ensures Valid(ToValid(s, inRun))
    decreases |s|
  {
    if s != [] {
      var n := RuneLen(s);
      if n > 0 {
        ValidRune(s);
        ToValidIsValid(s[n..], false);
        ValidConcat(s[..n], ToValid(s[n..], false));
      } else {
        assert RuneLen(REPLACEMENT) == 3 && REPLACEMENT[3..] == [];
        ToValidIsValid(s[1..], true);
        ValidConcat(if inRun then [] else REPLACEMENT, ToValid(s[1..], true));
      }
    }
  }

  lemma {:induction false} ToValidKeepsValid(s: Text)
    requires Valid(s)
    ensures ToValid(s, false) == s
    decreases |s|
  {
    if s != [] { ToValidKeepsValid(s[RuneLen(s)..]); }
  }

  // ---------------------------------------------------------------- character boundaries

  lemma InsideRune(s: Text, p: nat)
    requires 0 < p < RuneLen(s)
    ensures RuneLen(s[..p]) == 0 && Tail(s[p])
  {
  }

  /** In a valid text, a prefix is valid exactly when the byte after it starts a character. */
  lemma {:induction false} BoundaryExact(s: Text, p: nat)
    requires Valid(s) && p < |s|
    ensures Valid(s[..p]) <==> RuneStart(s[p])
    decreases |s|
  {
    var n := RuneLen(s);
    if 0 < p < n {
      InsideRune(s, p);
    } else if n <= p {
      BoundaryExact(s[n..], p - n);
      FrontDecides(s, s[..p]);
      assert s[..p][n..] == s[n..][..p - n];
      assert s[n..][p - n] == s[p];
    }
  }

  /** Any four neighbouring positions hold a boundary. */
  lemma {:induction false} BoundaryNear(s: Text, p: nat) returns (q: nat)
    requires Valid(s) && p <= |s|
    ensures q <= p <= q + 3 && Valid(s[..q])
    decreases |s|
  {
    var n := RuneLen(s);
    if n == 0 || p < n {
      q := 0;
    } else {
      q := BoundaryNear(s[n..], p - n);
      ValidRune(s);
      ValidConcat(s[..n], s[n..][..q]);
      assert s[..n] + s[n..][..q] == s[..n + q];
      q := n + q;
    }
  }

  // ---------------------------------------------------------------- truncation

  /** `r` is the longest valid prefix of `s` of at most `max` bytes. */
  ghost predicate LongestPrefix(s: Text, max: int, r: Text) {
    r <= s && Valid(r) && (|r| <= max || r == []) && forall q | |r| < q <= |s| && q <= max :: !Valid(s[..q])
  }

  method PrefixUTF8(s: Text, max: int) returns (r: Text)
    requires Valid(s)
    ensures LongestPrefix(s, max, r)
  {
    if max <= 0 { return []; }
    if |s| <= max { return s; }
    var end := max;
    while end > 0 && !RuneStart(s[end])
      invariant 0 <= end <= max && forall q | end < q <= max :: !Valid(s[..q])
    {
      BoundaryExact(s, end);
      end := end - 1;
    }
    BoundaryExact(s, end);
    assert s[..0] == [];
    r := s[..end];
    assert forall q | 0 <= q <= |r| :: r[..q] == s[..q];
  }

  /** At most three bytes of the budget stay unused. */
  lemma LongestIsLong(s: Text, max: int, r: Text)
    requires Valid(s) && 0 <= max <= |s| && LongestPrefix(s, max, r)
    ensures max - 3 <= |r|
  {
    var q := BoundaryNear(s, max);
  }

  lemma LongestIsUnique(s: Text, max: int, r: Text, r': Text)
    requires LongestPrefix(s, max, r) && LongestPrefix(s, max, r')
    ensures r == r'
  {
    assert r == s[..|r|] && r' == s[..|r'|];
  }

  /** The result of truncating `value` to `max` bytes with `suffix`, said without how it is found. */
  ghost predicate Truncated(value: Text, max: int, suffix: Text, r: Text) {
    var v, x := ToValid(value, false), ToValid(suffix, false);
    if max <= 0 then r == []
    else if |v| <= max then r == v
    else if |x| >= max then LongestPrefix(x, max, r)
    else |r| >= |x| && r[|r| - |x|..] == x && LongestPrefix(v, max - |x|, r[..|r| - |x|])
  }

  method TruncateUTF8(value: Text, max: int, suffix: Text) returns (r: Text)
    ensures Truncated(value, max, suffix, r)
  {
    if max <= 0 { return []; }
    var v := ToValid(value, false);
    if |v| <= max { return v; }
    var x := ToValid(suffix, false);
    ToValidIsValid(value, false);
    ToValidIsValid(suffix, false);
    if |x| >= max {
      r := PrefixUTF8(x, max);
      return;
    }
    var front := PrefixUTF8(v, max - |x|);
    r := front + x;
    assert r[..|r| - |x|] == front && r[|r| - |x|..] == x;
  }

  /** Valid, within the budget, and wasting at most three bytes of it when a shorter suffix is added. */
  lemma TruncatedFits(value: Text, max: int, suffix: Text, r: Text)
    requires Truncated(value, max, suffix, r)
    ensures Valid(r) && |r| <= (if max < 0 then 0 else max)
    ensures 0 < max < |ToValid(value, false)| && |ToValid(suffix, false)| < max ==> max - 3 <= |r|
  {
    var v, x := ToValid(value, false), ToValid(suffix, false);
    ToValidIsValid(value, false);
    ToValidIsValid(suffix, false);
    if 0 < max < |v| && |x| < max {
      var front := r[..|r| - |x|];
      assert r[|r| - |x|..] == x;
      assert r == front + x;
      ValidConcat(front, x);
      LongestIsLong(v, max - |x|, front);
    }
  }

  lemma TruncatedUnique(value: Text, max: int, suffix: Text, r: Text, r': Text)
    requires Truncated(value, max, suffix, r) && Truncated(value, max, suffix, r')
    ensures r == r'
  {
    var v, x := ToValid(value, false), ToValid(suffix, false);
    if 0 < max < |v| {
      if |x| >= max {
        LongestIsUnique(x, max, r, r');
      } else {
        LongestIsUnique(v, max - |x|, r[..|r| - |x|], r'[..|r'| - |x|]);
        assert r == r[..|r| - |x|] + r[|r| - |x|..] && r' == r'[..|r'| - |x|] + r'[|r'| - |x|..];
      }
    }
  }

  /** Truncating again with the same budget changes nothing, whatever the suffix. */
  lemma TruncationIdempotent(value: Text, max: int, suffix: Text, r: Text, other: Text, again: Text)
    requires Truncated(value, max, suffix, r) && Truncated(r, max, other, again)
    ensures again == r
  {
    TruncatedFits(value, max, suffix, r);
    ToValidKeepsValid(r);
  }
}
