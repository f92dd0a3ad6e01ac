/** The connector permissions of a token: replaced as a whole under a compare-and-set on their fingerprint.
    Unlike capabilities they carry no revision, so a set that was changed and changed back is accepted. */
module ConnectorPermissions {
  import opened Wrappers
  import opened Keyed
  import Canonical

  type Time = int

  datatype Rule = AlwaysRun | ApprovalRequired | Blocked
  datatype Key = Key(target: int, profile: int, action: string)
  datatype Grant = Grant(rule: Rule, expires: Option<Time>)
  type Item = Input<Key, Grant>

  datatype Slot = Slot(token: int, key: Key)
  datatype Endpoint = Endpoint(target: int, profile: int)
  datatype Scope = Scope(token: int, target: int)

  /** Permission rows; the targets and profiles that are active; the targets whose active project a token has
      a scope for. */
  datatype Tables = Tables(rows: map<Slot, Grant>, usable: set<Endpoint>, scoped: set<Scope>)

  // ---------------------------------------------------------------- what clients see

  predicate Shown(d: Tables, token: int, k: Key, g: Grant, now: Time) {
    Endpoint(k.target, k.profile) in d.usable && Scope(token, k.target) in d.scoped
    && (g.expires.Some? ==> g.expires.value > now)
  }

  function Keys(rows: map<Slot, Grant>, token: int): (keys: set<Key>)
    ensures forall k :: k in keys <==> Slot(token, k) in rows
  {
    var keys := set s | s in rows && s.token == token :: s.key;
    assert forall k :: Slot(token, k) in rows ==> Slot(token, k).key in keys;
    keys
  }

  function Existing(d: Tables, token: int): map<Key, Grant> {
    map k | k in Keys(d.rows, token) :: d.rows[Slot(token, k)]
  }

  function Visible(d: Tables, token: int, now: Time): map<Key, Grant> {
    map k | k in Keys(d.rows, token) && Shown(d, token, k, d.rows[Slot(token, k)], now) :: d.rows[Slot(token, k)]
  }

  /** `items` is a listing at `now`, in whatever order. */
  predicate Lists(d: Tables, token: int, now: Time, items: seq<Item>) {
    UniqueInputs(items) && Requested(items) == Visible(d, token, now)
  }

  // ---------------------------------------------------------------- fingerprints

  function KeyOf(x: Item): Key { x.key }

  predicate KeyLess(a: Key, b: Key) {
    a.target < b.target
    || (a.target == b.target && (a.profile < b.profile || (a.profile == b.profile && TextLess(a.action, b.action))))
  }

  lemma KeyLessIsStrict()
    ensures StrictTotal(KeyLess)
  {
    forall a, b, c | KeyLess(a, b) && KeyLess(b, c) ensures KeyLess(a, c) {
      if a.target == b.target == c.target && a.profile == b.profile == c.profile {
        TextLessTransitive(a.action, b.action, c.action);
      }
    }
    forall a, b ensures !KeyLess(a, a) && (KeyLess(a, b) || a == b || KeyLess(b, a)) {
      TextLessTotal(a.action, b.action);
    }
  }

  function PermissionFingerprint(items: seq<Item>): (r: seq<Item>)
    requires UniqueInputs(items)
    ensures Canonical.Ordered(r, OrderBy(KeyOf, KeyLess)) && forall x :: x in r <==> x in items
  {
    KeyLessIsStrict();
    Fingerprint(items, KeyOf, KeyLess)
  }

  lemma PermissionFingerprintExact(xs: seq<Item>, ys: seq<Item>)
    requires UniqueInputs(xs) && UniqueInputs(ys)
    ensures PermissionFingerprint(xs) == PermissionFingerprint(ys) <==> Requested(xs) == Requested(ys)
  {
    KeyLessIsStrict();
    FingerprintExact(xs, ys, KeyOf, KeyLess);
    if forall x :: x in xs <==> x in ys { SameSets(xs, ys); }
    if Requested(xs) == Requested(ys) {
      SameElements(xs, ys);
      SameElements(ys, xs);
    }
  }

  lemma SameElements(xs: seq<Item>, ys: seq<Item>)
    requires UniqueInputs(xs) && UniqueInputs(ys) && Requested(xs) == Requested(ys)
    ensures forall x | x in xs :: x in ys
  {
    forall x | x in xs ensures x in ys {
      assert x.key in Requested(ys) && Input(x.key, Requested(ys)[x.key]) == x;
    }
  }

  /** A token's view of a project; the third kind of set that is guarded by a fingerprint. */
  datatype ProjectScope = ProjectScope(project: int, enabled: bool, revision: nat)

  function ProjectOf(x: ProjectScope): int { x.project }

  predicate Smaller(a: int, b: int) { a < b }

  lemma ScopeFingerprintExact(xs: seq<ProjectScope>, ys: seq<ProjectScope>)
    requires UniqueBy(xs, ProjectOf) && UniqueBy(ys, ProjectOf)
    ensures StrictTotal(Smaller)
    ensures Fingerprint(xs, ProjectOf, Smaller) == Fingerprint(ys, ProjectOf, Smaller) <==>
            forall x :: x in xs <==> x in ys
  {
    FingerprintExact(xs, ys, ProjectOf, Smaller);
  }

  // ---------------------------------------------------------------- updates

  predicate Acceptable(d: Tables, x: Item) {
    x.key.target >= 1 && x.key.profile >= 1 && Endpoint(x.key.target, x.key.profile) in d.usable
    && (x.grant.rule == Blocked ==> x.grant.expires.None?)
  }

  predicate Accepted(d: Tables, token: int, inputs: seq<Item>) {
    token >= 1 && UniqueInputs(inputs) && forall x | x in inputs :: Acceptable(d, x)
  }

  function Slots(token: int, want: map<Key, Grant>): set<Slot> {
    set k | k in want :: Slot(token, k)
  }

  function Replaced(d: Tables, token: int, want: map<Key, Grant>): Tables {
    d.(rows := map s | s in d.rows.Keys + Slots(token, want) && (s.token == token ==> s.key in want) ::
                 if s.token == token then want[s.key] else d.rows[s])
  }

  lemma OthersKept(d: Tables, token: int, want: map<Key, Grant>, t: int)
    requires t != token
    ensures Existing(Replaced(d, token, want), t) == Existing(d, t)
  {
    var r := Replaced(d, token, want);
    forall k ensures Slot(t, k) in r.rows <==> Slot(t, k) in d.rows {
      assert Slot(t, k) !in Slots(token, want);
    }
    assert Keys(r.rows, t) == Keys(d.rows, t);
  }

  /** A replacement leaves the token exactly the requested set and every other token what it had. */
  lemma ReplacedExact(d: Tables, token: int, want: map<Key, Grant>)
    ensures Existing(Replaced(d, token, want), token) == want
    ensures Existing(d, token) == want ==> Replaced(d, token, want) == d
    ensures forall t | t != token :: Existing(Replaced(d, token, want), t) == Existing(d, t)
  {
    var r := Replaced(d, token, want);
    forall k ensures Slot(token, k) in r.rows <==> k in want {
      assert k in want ==> Slot(token, k) in Slots(token, want);
    }
    if Existing(d, token) == want {
      forall s: Slot ensures (s in r.rows <==> s in d.rows) && (s in r.rows ==> r.rows[s] == d.rows[s]) {
        assert s == Slot(s.token, s.key);
        assert s.token == token ==> (s.key in want <==> s.key in Keys(d.rows, token));
      }
      assert r.rows == d.rows;
    }
    forall t | t != token ensures Existing(r, t) == Existing(d, t) { OthersKept(d, token, want, t); }
  }

  /** Whether the inputs are exactly what is listed. */
  method InputsEqual(items: seq<Item>, inputs: seq<Item>) returns (equal: bool)
    requires UniqueInputs(items) && UniqueInputs(inputs)
    ensures equal <==> Requested(items) == Requested(inputs)
  {
    if |items| != |inputs| { return false; }
    equal := StrikeOff(Requested(items), inputs);
  }

  datatype Action =
    | Update(token: int, expected: seq<Item>, listing: seq<Item>, inputs: seq<Item>, now: Time)
    | Set(token: int, item: Item)
    | SetUsable(endpoint: Endpoint, on: bool)
    | SetScoped(scope: Scope, on: bool)

  /** One transaction: the fingerprint of the current listing must be the expected one; inputs that equal the
      listing change nothing, others replace everything the token holds. */
  function DoUpdate(d: Tables, token: int, expected: seq<Item>, listing: seq<Item>, inputs: seq<Item>,
      now: Time): Tables {
    if !Lists(d, token, now, listing) || PermissionFingerprint(listing) != expected || !Accepted(d, token, inputs)
       || Requested(listing) == Requested(inputs) then d
    else Replaced(d, token, Requested(inputs))
  }

  function Do(d: Tables, a: Action): Tables {
    match a
    case Update(token, expected, listing, inputs, now) => DoUpdate(d, token, expected, listing, inputs, now)
    case Set(token, item) => if Acceptable(d, item) then d.(rows := d.rows[Slot(token, item.key) := item.grant]) else d
    case SetUsable(endpoint, on) => d.(usable := if on then d.usable + {endpoint} else d.usable - {endpoint})
    case SetScoped(scope, on) => d.(scoped := if on then d.scoped + {scope} else d.scoped - {scope})
  }

  function Run(d: Tables, actions: seq<Action>): Tables
    decreases |actions|
  {
    if actions == [] then d else Do(Run(d, actions[..|actions| - 1]), actions[|actions| - 1])
  }

  /** When an update changes anything: the listing is the one its client loaded, the inputs are accepted, and they
      are neither what is listed nor all that is stored. Then the token holds exactly the inputs. */
  lemma CommitsExactly(d: Tables, a: Action, loaded: seq<Item>)
    requires a.Update? && Lists(d, a.token, a.now, a.listing)
    requires UniqueInputs(loaded) && a.expected == PermissionFingerprint(loaded)
    ensures Do(d, a) != d <==>
            Lists(d, a.token, a.now, loaded) && Accepted(d, a.token, a.inputs)
            && Requested(a.inputs) != Visible(d, a.token, a.now) && Requested(a.inputs) != Existing(d, a.token)
    ensures Do(d, a) != d ==> Existing(Do(d, a), a.token) == Requested(a.inputs)
  {
    PermissionFingerprintExact(loaded, a.listing);
    if UniqueInputs(a.inputs) { ReplacedExact(d, a.token, Requested(a.inputs)); }
  }

  /** In any interleaving an update commits only over exactly the set its client loaded. */
  lemma CommitsOverLoaded(d: Tables, actions: seq<Action>, i: nat, at: Time, loaded: seq<Item>, a: Action)
    requires i <= |actions| && a.Update? && Lists(Run(d, actions[..i]), a.token, at, loaded)
    requires a.expected == PermissionFingerprint(loaded) && Do(Run(d, actions), a) != Run(d, actions)
    ensures Lists(Run(d, actions), a.token, a.now, loaded)
  {
    PermissionFingerprintExact(loaded, a.listing);
  }

  // ---------------------------------------------------------------- changed and changed back

  /** The token holds exactly `items`, and all of it is listed. */
  ghost predicate Stands(d: Tables, token: int, items: seq<Item>, now: Time) {
    Accepted(d, token, items) && Existing(d, token) == Requested(items)
    && forall x | x in items :: Shown(d, token, x.key, x.grant, now)
  }

  lemma StandsIsListed(d: Tables, token: int, items: seq<Item>, now: Time)
    requires Stands(d, token, items, now)
    ensures Lists(d, token, now, items)
  {
    var want := Requested(items);
    forall k | k in want ensures Shown(d, token, k, want[k], now) { assert Input(k, want[k]) in items; }
    assert want.Keys == Keys(d.rows, token);
    assert Visible(d, token, now) == want;
  }

  lemma UpdateMoves(d: Tables, token: int, home: seq<Item>, away: seq<Item>, now: Time)
    requires Stands(d, token, home, now) && Accepted(d, token, away) && Requested(home) != Requested(away)
    requires forall x | x in away :: Shown(d, token, x.key, x.grant, now)
    ensures var r := Do(d, Update(token, PermissionFingerprint(home), home, away, now));
            r == Replaced(d, token, Requested(away)) && r != d && Stands(r, token, away, now)
  {
    StandsIsListed(d, token, home, now);
    ReplacedExact(d, token, Requested(away));
  }

  lemma ReplacedBack(d: Tables, token: int, home: map<Key, Grant>, away: map<Key, Grant>)
    requires Existing(d, token) == home
    ensures Replaced(Replaced(d, token, away), token, home) == d
  {
    var m := Replaced(d, token, away);
    var r := Replaced(m, token, home);
    forall s: Slot ensures (s in r.rows <==> s in d.rows) && (s in r.rows ==> r.rows[s] == d.rows[s]) {
      assert s == Slot(s.token, s.key);
      assert s in Slots(token, home) <==> s.token == token && s.key in home;
      assert s in Slots(token, away) <==> s.token == token && s.key in away;
      assert s.token == token ==> (s.key in home <==> s.key in Keys(d.rows, token));
    }
    assert r.rows == d.rows;
  }

  /** A set that another client changes and changes back is the loaded set again: an update with the old
      fingerprint commits, although the set was another one in the meantime. */
  lemma ChangedBackCommits(d: Tables, token: int, home: seq<Item>, away: seq<Item>, next: seq<Item>, now: Time)
    requires Stands(d, token, home, now) && Accepted(d, token, away) && Accepted(d, token, next)
    requires Requested(home) != Requested(away) && Requested(home) != Requested(next)
    requires forall x | x in away + next :: Shown(d, token, x.key, x.grant, now)
    ensures var there := Update(token, PermissionFingerprint(home), home, away, now);
            var back := Update(token, PermissionFingerprint(away), away, home, now);
            var stale := Update(token, PermissionFingerprint(home), home, next, now);
            Existing(Run(d, [there]), token) == Requested(away) && Run(d, [there, back]) == d
            && Do(Run(d, [there, back]), stale) != Run(d, [there, back])
  {
    var there := Update(token, PermissionFingerprint(home), home, away, now);
    var back := Update(token, PermissionFingerprint(away), away, home, now);
    assert [there, back][..1] == [there] && [there][..0] == [];
    UpdateMoves(d, token, home, away, now);
    var m := Do(d, there);
    assert Run(d, [there]) == m;
    UpdateMoves(m, token, away, home, now);
    ReplacedBack(d, token, Requested(home), Requested(away));
    assert Run(d, [there, back]) == Do(m, back) == d;
    UpdateMoves(d, token, home, next, now);
  }
}
