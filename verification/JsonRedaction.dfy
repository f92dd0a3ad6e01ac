/** Redaction of canonical JSON values: text leaves, scalars, object keys, declared sensitive fields and
    declared temporary capabilities. Objects are maps, so the rewriter may visit their entries in any order. */
module JsonRedaction {
  import opened Wrappers
  import opened CredentialRedaction
  import CredentialBoundary

  datatype Json =
    | Null | Bool(value: bool) | Number(spelling: Text) | Str(text: Text)
    | Arr(items: seq<Json>) | Obj(entries: map<Text, Json>)

  /** "[REDACTED]" */
  const REDACTED: Text := [91, 82, 69, 68, 65, 67, 84, 69, 68, 93]

  /** The caller's policy; an absent redactor is the identity and an absent classifier never holds. */
  datatype Options = Options(
    sensitive: Text -> bool, temporary: Text -> bool,
    text: Text -> Text, key: Text -> Text, capability: Text -> Text, scalar: Text -> Text)

  /** Where a value stands: inside a temporary-capability field, or elsewhere, with or without such fields
      still being recognised. */
  datatype Mode = Plain(fields: bool) | Capability

  // ---------------------------------------------------------------- the result

  function Encoded(v: Json): Text
    requires v.Bool? || v.Number?
  {
    if v.Number? then v.spelling else if v.value then [116, 114, 117, 101] else [102, 97, 108, 115, 101]
  }

  /** A number or boolean that spells a credential is replaced as a whole. */
  function RedactScalar(v: Json, o: Options): Json
    requires v.Bool? || v.Number?
  {
    if o.scalar(Encoded(v)) != Encoded(v) then Str(MARKER) else v
  }

  function RedactText(s: Text, o: Options, mode: Mode): Text {
    if mode.Capability? then o.capability(s) else o.text(s)
  }

  function ModeOf(k: Text, o: Options, mode: Mode): Mode {
    if mode == Plain(true) && o.temporary(k) then Capability else if mode.Capability? then Plain(false) else mode
  }

  function Image(keys: set<Text>, f: Text -> Text): set<Text> {
    set k | k in keys :: f(k)
  }

  predicate Injective(keys: set<Text>, f: Text -> Text) {
    forall a, b | a in keys && b in keys :: f(a) == f(b) ==> a == b
  }

  ghost function Redacted(v: Json, o: Options, mode: Mode): Option<Json>
    decreases v, 0
  {
    match v
    case Null => Some(v)
    case Bool(_) => Some(RedactScalar(v, o))
    case Number(_) => Some(RedactScalar(v, o))
    case Str(s) => Some(Str(RedactText(s, o, mode)))
    case Arr(items) =>
      if forall i | 0 <= i < |items| :: Redacted(items[i], o, mode).Some?
      then Some(Arr(seq(|items|, i requires 0 <= i < |items|
          && Redacted(items[i], o, mode).Some? => Redacted(items[i], o, mode).value)))
      else None
    case Obj(m) =>
      if Injective(m.Keys, o.key) && forall k | k in m :: Entry(k, m[k], o, mode).Some?
      then Some(Obj(map x | x in Image(m.Keys, o.key) :: var k :| k in m && o.key(k) == x;
          Entry(k, m[k], o, mode).value))
      else None
  }

  ghost function Entry(k: Text, v: Json, o: Options, mode: Mode): Option<Json>
    decreases v, 1
  {
    if o.sensitive(k) then Some(Str(REDACTED)) else Redacted(v, o, ModeOf(k, o, mode))
  }

  /** A redacted object has one entry for each entry, under its redacted key. */
  lemma ObjectIs(m: map<Text, Json>, o: Options, mode: Mode)
    requires Redacted(Obj(m), o, mode).Some?
    ensures Injective(m.Keys, o.key) && Redacted(Obj(m), o, mode).value.Obj?
    ensures var r := Redacted(Obj(m), o, mode).value.entries;
            r.Keys == Image(m.Keys, o.key)
            && forall k | k in m :: o.key(k) in r && Entry(k, m[k], o, mode) == Some(r[o.key(k)])
  {
    var r := Redacted(Obj(m), o, mode).value.entries;
    forall k | k in m ensures o.key(k) in r && Entry(k, m[k], o, mode) == Some(r[o.key(k)]) {
      assert o.key(k) in Image(m.Keys, o.key);
    }
  }

  // ---------------------------------------------------------------- the rewriter

  /** Whatever the order in which the entries of objects are visited, the result or the refusal is the same. */
  method RedactValue(v: Json, o: Options, fields: bool) returns (r: Option<Json>)
    ensures r == Redacted(v, o, Plain(fields))
    decreases v, 1
  {
    match v
    case Null => r := Some(v);
    case Bool(_) => r := Some(RedactScalar(v, o));
    case Number(_) => r := Some(RedactScalar(v, o));
    case Str(s) => r := Some(Str(o.text(s)));
    case Arr(items) =>
      var out := [];
      for i := 0 to |items|
        invariant |out| == i && forall j | 0 <= j < i :: Redacted(items[j], o, Plain(fields)) == Some(out[j])
      {
        var item := RedactValue(items[i], o, fields);
        if item.None? { return None; }
        out := out + [item.value];
      }
      Itemwise(items, o, Plain(fields), out);
      r := Some(Arr(out));
    case Obj(_) => r := RedactObject(v, o, fields);
  }

  method RedactObject(v: Json, o: Options, fields: bool) returns (r: Option<Json>)
    requires v.Obj?
    ensures r == Redacted(v, o, Plain(fields))
    decreases v, 0
  {
    var m := v.entries;
    var out: map<Text, Json> := map[];
    var rest := m.Keys;
    while rest != {}
      invariant rest <= m.Keys && Partial(m, o, Plain(fields), m.Keys - rest, out)
      decreases |rest|
    {
      var k :| k in rest;
      if o.key(k) in out { Collides(m, o, Plain(fields), m.Keys - rest, out, k); return None; }
      var entry := RedactEntry(k, m[k], o, fields);
      if entry.None? { return None; }
      Extends(m, o, Plain(fields), m.Keys - rest, out, k, entry.value);
      assert m.Keys - (rest - {k}) == m.Keys - rest + {k};
      out, rest := out[o.key(k) := entry.value], rest - {k};
    }
    assert m.Keys - {} == m.Keys;
    Complete(m, o, Plain(fields), out);
    r := Some(Obj(out));
  }

  method RedactEntry(k: Text, v: Json, o: Options, fields: bool) returns (r: Option<Json>)
    ensures r == Entry(k, v, o, Plain(fields))
    decreases v, 3
  {
    if o.sensitive(k) { return Some(Str(REDACTED)); }
    if fields && o.temporary(k) {
      r := RedactCapabilityValue(v, o);
    } else {
      r := RedactValue(v, o, fields);
    }
  }

  method RedactCapabilityValue(v: Json, o: Options) returns (r: Option<Json>)
    ensures r == Redacted(v, o, Capability)
    decreases v, 2
  {
    match v
    case Str(s) => r := Some(Str(o.capability(s)));
    case Arr(items) =>
      var out := [];
      for i := 0 to |items|
        invariant |out| == i && forall j | 0 <= j < i :: Redacted(items[j], o, Capability) == Some(out[j])
      {
        var item := RedactCapabilityValue(items[i], o);
        if item.None? { return None; }
        out := out + [item.value];
      }
      Itemwise(items, o, Capability, out);
      r := Some(Arr(out));
    case _ =>
      r := RedactValue(v, o, false);
      NotText(v, o);
  }

  lemma Itemwise(items: seq<Json>, o: Options, mode: Mode, out: seq<Json>)
    requires |out| == |items| && forall j | 0 <= j < |items| :: Redacted(items[j], o, mode) == Some(out[j])
    ensures Redacted(Arr(items), o, mode) == Some(Arr(out))
  {
    var r := Redacted(Arr(items), o, mode);
    assert r.Some? && r.value.Arr? && |r.value.items| == |items|;
    assert r.value.items == out;
  }

  lemma NotText(v: Json, o: Options)
    requires !v.Str? && !v.Arr?
    ensures Redacted(v, o, Capability) == Redacted(v, o, Plain(false))
  {
    if v.Obj? {
      var m := v.entries;
      forall k | k in m ensures Entry(k, m[k], o, Capability) == Entry(k, m[k], o, Plain(false)) {}
      if Redacted(v, o, Capability).Some? {
        ObjectIs(m, o, Capability);
        ObjectIs(m, o, Plain(false));
        assert Redacted(v, o, Capability).value.entries == Redacted(v, o, Plain(false)).value.entries;
      }
    }
  }

  /** `out` holds the entries of `done`, and no two of them share a key. */
  ghost predicate Partial(m: map<Text, Json>, o: Options, mode: Mode, done: set<Text>, out: map<Text, Json>) {
    done <= m.Keys && Injective(done, o.key)
    && (forall k | k in done :: o.key(k) in out && Entry(k, m[k], o, mode) == Some(out[o.key(k)]))
    && (forall x | x in out :: exists k :: k in done && o.key(k) == x)
  }

  lemma Collides(m: map<Text, Json>, o: Options, mode: Mode, done: set<Text>, out: map<Text, Json>, k: Text)
    requires Partial(m, o, mode, done, out) && k in m && k !in done && o.key(k) in out
    ensures !Injective(m.Keys, o.key)
  {
    var other :| other in done && o.key(other) == o.key(k);
  }

  lemma Extends(m: map<Text, Json>, o: Options, mode: Mode, done: set<Text>, out: map<Text, Json>, k: Text, v: Json)
    requires Partial(m, o, mode, done, out) && k in m && k !in done && o.key(k) !in out
             && Entry(k, m[k], o, mode) == Some(v)
    ensures Partial(m, o, mode, done + {k}, out[o.key(k) := v])
  {
    var more := out[o.key(k) := v];
    forall x | x in more ensures exists j :: j in done + {k} && o.key(j) == x {
      if x == o.key(k) { assert k in done + {k}; } else {
        var j :| j in done && o.key(j) == x;
        assert j in done + {k};
      }
    }
  }

  lemma Complete(m: map<Text, Json>, o: Options, mode: Mode, out: map<Text, Json>)
    requires Partial(m, o, mode, m.Keys, out)
    ensures Redacted(Obj(m), o, mode) == Some(Obj(out))
  {
    assert Redacted(Obj(m), o, mode).Some?;
    ObjectIs(m, o, mode);
    var r := Redacted(Obj(m), o, mode).value.entries;
    assert out.Keys == Image(m.Keys, o.key);
    assert r == out;
  }

  // ---------------------------------------------------------------- at any depth

  datatype Part = Item(index: nat) | Field(key: Text)

  /** The value a path leads to. */
  function Find(v: Json, path: seq<Part>): Option<Json> {
    if path == [] then Some(v)
    else match path[0]
      case Item(i) => if v.Arr? && i < |v.items| then Find(v.items[i], path[1..]) else None
      case Field(k) => if v.Obj? && k in v.entries then Find(v.entries[k], path[1..]) else None
  }

  /** The same path through redacted keys. */
  function Renamed(path: seq<Part>, o: Options): seq<Part> {
    seq(|path|, i requires 0 <= i < |path| => if path[i].Field? then Field(o.key(path[i].key)) else path[i])
  }

  predicate Open(path: seq<Part>, o: Options) {
    forall p | p in path :: p.Field? ==> !o.sensitive(p.key)
  }

  /** The mode in which the value at the end of a path is redacted. */
  function ModeAt(path: seq<Part>, o: Options, mode: Mode): Mode {
    if path == [] then mode
    else ModeAt(path[1..], o, if path[0].Field? then ModeOf(path[0].key, o, mode) else mode)
  }

  predicate OnlyItems(path: seq<Part>) {
    forall i | 0 <= i < |path| :: path[i].Item?
  }

  /** Field `i` is the first temporary-capability field on the path, and only array positions follow it. */
  predicate EntersAt(path: seq<Part>, o: Options, i: nat) {
    i < |path| && path[i].Field? && o.temporary(path[i].key) && OnlyItems(path[i + 1..])
    && forall j | 0 <= j < i :: path[j].Field? ==> !o.temporary(path[j].key)
  }

  lemma {:induction false} LeavesCapability(path: seq<Part>, o: Options, mode: Mode)
    requires mode != Plain(true)
    ensures ModeAt(path, o, mode).Capability? <==> mode.Capability? && OnlyItems(path)
    decreases |path|
  {
    if path != [] {
      assert path == [path[0]] + path[1..];
      LeavesCapability(path[1..], o, if path[0].Field? then ModeOf(path[0].key, o, mode) else mode);
      assert OnlyItems(path) ==> path[0].Item? && OnlyItems(path[1..]);
    }
  }

  /** The capability redactor is used exactly for what lies in a temporary field of the top level of such
      fields, directly or in arrays. */
  lemma {:induction false} CapabilityExactly(path: seq<Part>, o: Options)
    ensures ModeAt(path, o, Plain(true)).Capability? <==> exists i: nat :: EntersAt(path, o, i)
    decreases |path|
  {
    if path != [] {
      var first, rest := path[0], path[1..];
      if first.Field? && o.temporary(first.key) {
        LeavesCapability(rest, o, Capability);
        if i: nat :| EntersAt(path, o, i) { assert i == 0; }
        assert OnlyItems(rest) ==> EntersAt(path, o, 0);
      } else {
        CapabilityExactly(rest, o);
        if i: nat :| EntersAt(path, o, i) {
          assert path[i + 1..] == rest[i..];
          assert EntersAt(rest, o, i - 1);
        }
        if i: nat :| EntersAt(rest, o, i) {
          assert path[i + 2..] == rest[i + 1..];
          assert EntersAt(path, o, i + 1);
        }
      }
    }
  }

  /** Where no field on the way is sensitive, the value redacted in the mode of its path stands at the renamed
      path. */
  lemma {:induction false} RedactedAt(v: Json, o: Options, mode: Mode, path: seq<Part>)
    requires Redacted(v, o, mode).Some? && Find(v, path).Some? && Open(path, o)
    ensures Redacted(Find(v, path).value, o, ModeAt(path, o, mode)).Some?
    ensures Find(Redacted(v, o, mode).value, Renamed(path, o))
            == Redacted(Find(v, path).value, o, ModeAt(path, o, mode))
    decreases |path|
  {
    if path != [] {
      var r := Redacted(v, o, mode).value;
      assert path[0] in path && Renamed(path, o)[1..] == Renamed(path[1..], o);
      if path[0].Item? {
        var i := path[0].index;
        assert Redacted(v.items[i], o, mode) == Some(r.items[i]);
        RedactedAt(v.items[i], o, mode, path[1..]);
      } else {
        var k := path[0].key;
        ObjectIs(v.entries, o, mode);
        RedactedAt(v.entries[k], o, ModeOf(k, o, mode), path[1..]);
      }
    }
  }

  /** A sensitive field is replaced, however deep it lies. */
  lemma SensitiveReplaced(v: Json, o: Options, mode: Mode, path: seq<Part>, k: Text)
    requires Redacted(v, o, mode).Some? && Open(path, o) && o.sensitive(k)
    requires Find(v, path).Some? && Find(v, path).value.Obj? && k in Find(v, path).value.entries
    ensures Find(Redacted(v, o, mode).value, Renamed(path + [Field(k)], o)) == Some(Str(REDACTED))
  {
    RedactedAt(v, o, mode, path);
    var m := Find(v, path).value.entries;
    ObjectIs(m, o, ModeAt(path, o, mode));
    var r := Redacted(v, o, mode).value;
    FindExtends(r, Renamed(path, o), Field(o.key(k)));
    assert Renamed(path + [Field(k)], o) == Renamed(path, o) + [Field(o.key(k))];
  }

  lemma {:induction false} FindExtends(v: Json, path: seq<Part>, p: Part)
    requires Find(v, path).Some?
    ensures Find(v, path + [p]) == Find(Find(v, path).value, [p])
    decreases |path|
  {
    if path == [] {
      assert path + [p] == [p];
    } else {
      assert (path + [p])[1..] == path[1..] + [p];
      FindExtends(if path[0].Item? then v.items[path[0].index] else v.entries[path[0].key], path[1..], p);
    }
  }

  lemma ImageSize(keys: set<Text>, f: Text -> Text)
    requires Injective(keys, f)
    ensures |Image(keys, f)| == |keys|
    decreases |keys|
  {
    if keys != {} {
      var k :| k in keys;
      ImageSize(keys - {k}, f);
      assert Image(keys, f) == Image(keys - {k}, f) + {f(k)};
      assert f(k) !in Image(keys - {k}, f);
    }
  }

  /** Outside replaced subtrees objects keep their number of entries and arrays their length, and a text leaf
      is exactly what the redactor of its path made of it. */
  lemma KeptAt(v: Json, o: Options, mode: Mode, path: seq<Part>)
    requires Redacted(v, o, mode).Some? && Find(v, path).Some? && Open(path, o)
    ensures var x := Find(v, path).value;
            var there := Find(Redacted(v, o, mode).value, Renamed(path, o));
            there.Some? && var y := there.value;
            match x
            case Obj(m) => y.Obj? && |y.entries| == |m|
            case Arr(items) => y.Arr? && |y.items| == |items|
            case Str(s) => y == Str(RedactText(s, o, ModeAt(path, o, mode)))
            case Null => y == x
            case _ => y == if o.scalar(Encoded(x)) == Encoded(x) then x else Str(MARKER)
  {
    var inner := ModeAt(path, o, mode);
    RedactedAt(v, o, mode, path);
    var x := Find(v, path).value;
    if x.Obj? {
      ObjectIs(x.entries, o, inner);
      ImageSize(x.entries.Keys, o.key);
      var r := Redacted(x, o, inner).value.entries;
      assert |r| == |r.Keys| && |x.entries| == |x.entries.Keys|;
    }
  }

  ghost predicate DepthAtMost(v: Json, n: int) {
    n >= 0
    && (v.Arr? ==> n > 0 && forall i | 0 <= i < |v.items| :: DepthAtMost(v.items[i], n - 1))
    && (v.Obj? ==> n > 0 && forall k | k in v.entries :: DepthAtMost(v.entries[k], n - 1))
  }

  /** Redaction does not nest deeper. */
  lemma {:induction false} DepthKept(v: Json, o: Options, mode: Mode, n: int)
    requires Redacted(v, o, mode).Some? && DepthAtMost(v, n)
    ensures DepthAtMost(Redacted(v, o, mode).value, n)
    decreases v
  {
    var r := Redacted(v, o, mode).value;
    if v.Arr? {
      forall i | 0 <= i < |v.items| ensures DepthAtMost(r.items[i], n - 1) { DepthKept(v.items[i], o, mode, n - 1); }
    } else if v.Obj? {
      ObjectIs(v.entries, o, mode);
      forall x | x in r.entries ensures DepthAtMost(r.entries[x], n - 1) {
        var k :| k in v.entries && o.key(k) == x;
        if !o.sensitive(k) { DepthKept(v.entries[k], o, ModeOf(k, o, mode), n - 1); }
      }
    }
  }

  // ---------------------------------------------------------------- what can be left in a result

  /** Every text leaf and every number satisfies `leaf`, and every object key satisfies `key`. */
  ghost predicate AllTexts(v: Json, leaf: Text -> bool, key: Text -> bool) {
    (v.Str? ==> leaf(v.text)) && (v.Number? ==> leaf(v.spelling))
    && (v.Arr? ==> forall i | 0 <= i < |v.items| :: AllTexts(v.items[i], leaf, key))
    && (v.Obj? ==> forall k | k in v.entries :: key(k) && AllTexts(v.entries[k], leaf, key))
  }

  /** Every text in a result comes from a redactor or is a marker: what all redactors guarantee holds
      everywhere in the result. */
  lemma {:induction false} EveryTextRedacted(v: Json, o: Options, mode: Mode, leaf: Text -> bool, key: Text -> bool)
    requires Redacted(v, o, mode).Some? && leaf(MARKER) && (leaf(REDACTED) || forall k :: !o.sensitive(k))
    requires forall s :: leaf(o.text(s)) && leaf(o.capability(s)) && key(o.key(s)) && (o.scalar(s) == s ==> leaf(s))
    ensures AllTexts(Redacted(v, o, mode).value, leaf, key)
    decreases v
  {
    var r := Redacted(v, o, mode).value;
    if v.Arr? {
      forall i | 0 <= i < |v.items|
        ensures AllTexts(r.items[i], leaf, key) { EveryTextRedacted(v.items[i], o, mode, leaf, key); }
    } else if v.Obj? {
      ObjectIs(v.entries, o, mode);
      forall x | x in r.entries ensures key(x) && AllTexts(r.entries[x], leaf, key) {
        var k :| k in v.entries && o.key(k) == x;
        if !o.sensitive(k) { EveryTextRedacted(v.entries[k], o, ModeOf(k, o, mode), leaf, key); }
      }
    }
  }

  /** The policy of a credential boundary alone. */
  ghost function BoundaryOptions(values: seq<Text>): Options {
    var redact := t => CredentialBoundary.RedactAll(t, values, SUBSTRING_MIN_BYTES);
    Options(_ => false, _ => false, redact, t => CredentialBoundary.RedactAll(t, values, KEY_SUBSTRING_MIN_BYTES),
        redact, redact)
  }

  /** What a credential boundary lets through holds no delivered credential outside markers: not in a text,
      not in the spelling of a number, and, from eight bytes on, not in an object key. */
  lemma CredentialsCovered(v: Json, values: seq<Text>, s: Text)
    requires CredentialBoundary.AllClean(values) && s in values && |s| >= SUBSTRING_MIN_BYTES
    requires Redacted(v, BoundaryOptions(values), Plain(false)).Some?
    ensures AllTexts(Redacted(v, BoundaryOptions(values), Plain(false)).value,
                     t => Covered(t, s), t => |s| >= KEY_SUBSTRING_MIN_BYTES ==> Covered(t, s))
  {
    var o := BoundaryOptions(values);
    forall t ensures Covered(o.text(t), s) && (|s| >= KEY_SUBSTRING_MIN_BYTES ==> Covered(o.key(t), s)) {
      CredentialBoundary.RedactAllCovers(t, values, SUBSTRING_MIN_BYTES, s);
      if |s| >= KEY_SUBSTRING_MIN_BYTES { CredentialBoundary.RedactAllCovers(t, values, KEY_SUBSTRING_MIN_BYTES, s); }
    }
    forall p | CredentialRedaction.At(MARKER, p, s) ensures Inside(MARKER, p, p + |s|) {
      assert CredentialRedaction.At(MARKER, 0, MARKER);
    }
    EveryTextRedacted(v, o, Plain(false), t => Covered(t, s), t => |s| >= KEY_SUBSTRING_MIN_BYTES ==> Covered(t, s));
  }
}
