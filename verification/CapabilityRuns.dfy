/** Runs of capability updates by any number of clients: revision numbers over time, the fingerprint of a
    loaded set, and the compare-and-set that an update makes with it. */
module CapabilityRuns {
  import opened Wrappers
  import opened Keyed
  import opened Capabilities
  import Canonical

  datatype Item = Item(key: Key, grant: Grant, revision: nat)

  // ---------------------------------------------------------------- what clients see

  /** Only supported capabilities of active projects are listed. */
  predicate Visible(d: Tables, s: Slot) {
    s in d.rows && s.key.project in d.active && Supported(s.key.name)
  }

  function VisibleGrants(d: Tables, token: int): map<Key, Grant> {
    map k | k in Keys(d.rows, token) && Visible(d, Slot(token, k)) :: d.rows[Slot(token, k)].grant
  }

  function KeyOf(x: Item): Key { x.key }

  /** `items` is a listing of the token's capabilities, in whatever order. */
  predicate Lists(d: Tables, token: int, items: seq<Item>) {
    UniqueBy(items, KeyOf)
    && (forall x | x in items :: var s := Slot(token, x.key);
         Visible(d, s) && x.grant == d.rows[s].grant && x.revision == d.rows[s].revision)
    && (forall s | s in d.rows && s.token == token && Visible(d, s) ::
         Item(s.key, d.rows[s].grant, d.rows[s].revision) in items)
  }

  // ---------------------------------------------------------------- fingerprints

  predicate KeyLess(a: Key, b: Key) {
    a.project < b.project || (a.project == b.project && TextLess(a.name, b.name))
  }

  lemma KeyLessIsStrict()
    ensures StrictTotal(KeyLess)
  {
    forall a, b, c | KeyLess(a, b) && KeyLess(b, c) ensures KeyLess(a, c) {
      if a.project == b.project == c.project { TextLessTransitive(a.name, b.name, c.name); }
    }
    forall a, b ensures !KeyLess(a, a) && (KeyLess(a, b) || a == b || KeyLess(b, a)) {
      TextLessTotal(a.name, b.name);
    }
  }

  function CapabilityFingerprint(items: seq<Item>): (r: seq<Item>)
    requires UniqueBy(items, KeyOf)
    ensures Canonical.Ordered(r, OrderBy(KeyOf, KeyLess)) && forall x :: x in r <==> x in items
  {
    KeyLessIsStrict();
    Fingerprint(items, KeyOf, KeyLess)
  }

  lemma CapabilityFingerprintExact(xs: seq<Item>, ys: seq<Item>)
    requires UniqueBy(xs, KeyOf) && UniqueBy(ys, KeyOf)
    ensures CapabilityFingerprint(xs) == CapabilityFingerprint(ys) <==> forall x :: x in xs <==> x in ys
  {
    KeyLessIsStrict();
    FingerprintExact(xs, ys, KeyOf, KeyLess);
  }

  // ---------------------------------------------------------------- updates

  /** Whether the listing before and the one after differ in a rule or an expiry. */
  predicate ChangesVisibly(d: Tables, r: Tables, token: int) {
    VisibleGrants(d, token) != VisibleGrants(r, token)
  }

  datatype Action =
    | Replace(token: int, inputs: seq<Ask>, now: Time)
    | Update(token: int, expected: seq<Item>, listing: seq<Item>, inputs: seq<Ask>, now: Time)
    | SetActive(project: int, on: bool)
    | AddToken(token: int)

  /** One transaction: the fingerprint of the current listing must be the expected one, and a replacement
      that changes nothing a client can see is rolled back. */
  function DoUpdate(d: Tables, token: int, expected: seq<Item>, listing: seq<Item>, inputs: seq<Ask>,
      now: Time): Tables {
    if !Lists(d, token, listing) || CapabilityFingerprint(listing) != expected || !Accepted(d, token, inputs, now)
    then d else
    var r := Replaced(d, token, Requested(inputs), now);
    if ChangesVisibly(d, r, token) then r else d
  }

  function Do(d: Tables, a: Action): Tables {
    match a
    case Replace(token, inputs, now) =>
      if Accepted(d, token, inputs, now) then Replaced(d, token, Requested(inputs), now) else d
    case Update(token, expected, listing, inputs, now) => DoUpdate(d, token, expected, listing, inputs, now)
    case SetActive(project, on) => d.(active := if on then d.active + {project} else d.active - {project})
    case AddToken(token) => d.(tokens := d.tokens + {token})
  }

  function Run(d: Tables, actions: seq<Action>): Tables
    decreases |actions|
  {
    if actions == [] then d else Do(Run(d, actions[..|actions| - 1]), actions[|actions| - 1])
  }

  // ---------------------------------------------------------------- revisions over time

  /** Every action replaces one token's capabilities, or leaves both tables alone. */
  lemma DoIs(d: Tables, a: Action) returns (token: int, want: map<Key, Grant>, now: Time)
    ensures var r := Do(d, a); r == Replaced(d, token, want, now) || (r.rows == d.rows && r.revisions == d.revisions)
  {
    token, want, now := 0, map[], 0;
    if (a.Replace? || a.Update?) && UniqueInputs(a.inputs) { token, want, now := a.token, Requested(a.inputs), a.now; }
  }

  lemma ReplaceCounts(d: Tables, token: int, want: map<Key, Grant>, now: Time, s: Slot)
    requires Consistent(d)
    ensures Consistent(Replaced(d, token, want, now)) && Counts(d, Replaced(d, token, want, now), s)
  {
    ReplacedExact(d, token, want, now);
    ReplacedCounts(d, token, want, now, s);
  }

  lemma StepCounts(d: Tables, a: Action, r: Tables, s: Slot)
    requires Consistent(d) && r == Do(d, a)
    ensures Consistent(r) && Counts(d, r, s)
  {
    var token, want, now := DoIs(d, a);
    ReplaceCounts(d, token, want, now, s);
  }

  /** The states a run goes through, as far as one slot is concerned. */
  ghost predicate Chain(ts: seq<Tables>, s: Slot) {
    (forall k | 0 <= k < |ts| :: Consistent(ts[k])) && forall k | 0 <= k < |ts| - 1 :: Counts(ts[k], ts[k + 1], s)
  }

  lemma {:induction false} RunChain(d: Tables, actions: seq<Action>, s: Slot) returns (ts: seq<Tables>)
    requires Consistent(d)
    ensures |ts| == |actions| + 1 && Chain(ts, s) && forall k | 0 <= k <= |actions| :: ts[k] == Run(d, actions[..k])
    decreases |actions|
  {
    if actions == [] {
      ts := [d];
    } else {
      var n := |actions| - 1;
      var before := RunChain(d, actions[..n], s);
      var r := Run(d, actions);
      assert before[n] == Run(d, actions[..n]) by { assert actions[..n][..n] == actions[..n]; }
      StepCounts(before[n], actions[n], r, s);
      ts := Extended(before, r, s);
      forall k | 0 <= k <= |actions| ensures ts[k] == Run(d, actions[..k]) {
        if k <= n { assert actions[..n][..k] == actions[..k]; } else { assert actions[..k] == actions; }
      }
    }
  }

  lemma Extended(ts: seq<Tables>, r: Tables, s: Slot) returns (more: seq<Tables>)
    requires ts != [] && Chain(ts, s) && Consistent(r) && Counts(ts[|ts| - 1], r, s)
    ensures more == ts + [r] && Chain(more, s)
  {
    more := ts + [r];
  }

  lemma {:induction false} ChainNeverDecreases(ts: seq<Tables>, i: nat, j: nat, s: Slot)
    requires Chain(ts, s) && i <= j < |ts| && s in ts[i].revisions
    ensures s in ts[j].revisions && ts[j].revisions[s] >= ts[i].revisions[s]
    decreases j - i
  {
    if i < j {
      ChainNeverDecreases(ts, i, j - 1, s);
      assert Counts(ts[j - 1], ts[j - 1 + 1], s);
    }
  }

  /** What a client sees of one capability. */
  ghost predicate Holds(d: Tables, s: Slot, grant: Grant, revision: nat) {
    s in d.rows && d.rows[s].grant == grant && d.rows[s].revision == revision
  }

  lemma {:induction false} ChainUntouched(ts: seq<Tables>, i: nat, k: nat, j: nat, s: Slot)
    requires Chain(ts, s) && i <= k <= j < |ts| && s in ts[i].rows && s in ts[j].rows
    requires ts[i].rows[s].revision == ts[j].rows[s].revision
    ensures Holds(ts[k], s, ts[j].rows[s].grant, ts[j].rows[s].revision)
    decreases j - k
  {
    assert Consistent(ts[i]) && Consistent(ts[j]);
    if k < j {
      ChainNeverDecreases(ts, i, j - 1, s);
      assert Counts(ts[j - 1], ts[j - 1 + 1], s) && Consistent(ts[j - 1]);
      ChainUntouched(ts, i, k, j - 1, s);
    }
  }

  /** The revision of a capability never decreases, through removal and renewed grants. */
  lemma RevisionNeverDecreases(d: Tables, actions: seq<Action>, i: nat, s: Slot)
    requires Consistent(d) && i <= |actions| && s in Run(d, actions[..i]).revisions
    ensures s in Run(d, actions).revisions && Run(d, actions).revisions[s] >= Run(d, actions[..i]).revisions[s]
  {
    var ts := RunChain(d, actions, s);
    assert ts[i] == Run(d, actions[..i]) && ts[|actions|] == Run(d, actions[..|actions|])
           && actions[..|actions|] == actions;
    ChainNeverDecreases(ts, i, |actions|, s);
  }

  /** Two observations with one revision saw the same rule and expiry, and so would any observation between
      them: the capability was never withdrawn or changed in the meantime. */
  lemma SameRevisionUntouched(d: Tables, actions: seq<Action>, i: nat, k: nat, s: Slot)
    requires Consistent(d) && i <= k <= |actions| && s in Run(d, actions[..i]).rows && s in Run(d, actions).rows
    requires Run(d, actions[..i]).rows[s].revision == Run(d, actions).rows[s].revision
    ensures var r := Run(d, actions).rows[s]; Holds(Run(d, actions[..k]), s, r.grant, r.revision)
  {
    var ts := RunChain(d, actions, s);
    assert ts[i] == Run(d, actions[..i]) && ts[k] == Run(d, actions[..k]);
    assert ts[|actions|] == Run(d, actions[..|actions|]) && actions[..|actions|] == actions;
    ChainUntouched(ts, i, k, |actions|, s);
  }

  // ---------------------------------------------------------------- compare and set

  /** An update that commits finds exactly the set its client loaded, however many clients were active in
      between, and every capability in it was there unchanged all the time. */
  lemma CommitsOverLoaded(d: Tables, actions: seq<Action>, i: nat, loaded: seq<Item>, a: Action)
    requires Consistent(d) && i <= |actions| && a.Update? && Lists(Run(d, actions[..i]), a.token, loaded)
    requires a.expected == CapabilityFingerprint(loaded) && Do(Run(d, actions), a) != Run(d, actions)
    ensures Lists(Run(d, actions), a.token, loaded)
    ensures forall k, x | i <= k <= |actions| && x in loaded ::
            Holds(Run(d, actions[..k]), Slot(a.token, x.key), x.grant, x.revision)
  {
    CapabilityFingerprintExact(loaded, a.listing);
    forall k, x | i <= k <= |actions| && x in loaded
      ensures Holds(Run(d, actions[..k]), Slot(a.token, x.key), x.grant, x.revision)
    {
      assert x in a.listing;
      SameRevisionUntouched(d, actions, i, k, Slot(a.token, x.key));
    }
  }

  // ---------------------------------------------------------------- what a change reports

  lemma VisibleIs(d: Tables, token: int, want: map<Key, Grant>)
    requires Existing(d, token) == want && forall k | k in want :: k.project in d.active && Supported(k.name)
    ensures VisibleGrants(d, token) == want
  {
    assert want.Keys == Keys(d.rows, token);
  }

  lemma RequestedVisible(d: Tables, token: int, inputs: seq<Ask>, now: Time)
    requires Consistent(d) && Accepted(d, token, inputs, now)
    ensures VisibleGrants(Replaced(d, token, Requested(inputs), now), token) == Requested(inputs)
  {
    var want := Requested(inputs);
    ReplacedExact(d, token, want, now);
    forall k | k in want ensures k.project in d.active && Supported(k.name) {
      assert Input(k, want[k]) in inputs;
    }
    VisibleIs(Replaced(d, token, want, now), token, want);
  }

  /** A replacement is reported exactly when the request differs from what was listed. It is carried out but
      not reported, and therefore rolled back, exactly when the request equals the listing while the token
      still holds capabilities that are not listed. */
  lemma ReportedExactly(d: Tables, token: int, inputs: seq<Ask>, now: Time)
    requires Consistent(d) && Accepted(d, token, inputs, now)
    ensures var want := Requested(inputs);
            var r := Replaced(d, token, want, now);
            (ChangesVisibly(d, r, token) <==> VisibleGrants(d, token) != want)
            && (r != d && !ChangesVisibly(d, r, token) <==>
                 VisibleGrants(d, token) == want && exists s :: s in d.rows && s.token == token && !Visible(d, s))
  {
    var want := Requested(inputs);
    var r := Replaced(d, token, want, now);
    RequestedVisible(d, token, inputs, now);
    ReplacedExact(d, token, want, now);
    if VisibleGrants(d, token) == want {
      if s :| s in d.rows && s.token == token && !Visible(d, s) {
        HiddenDiffers(d, token, s);
      } else {
        AllVisible(d, token);
      }
    }
  }

  const EMPTY := Tables(map[], map[], {}, {})
  const READ := Key(1, VAULT_METADATA_READ)
  const ALWAYS := Grant(ALWAYS_RUN, None)

  lemma RunNext(d: Tables, actions: seq<Action>, a: Action)
    ensures Run(d, actions + [a]) == Do(Run(d, actions), a)
  {
    assert (actions + [a])[..|actions|] == actions;
  }

  /** Tables with one token and one active project and nothing granted. */
  lemma Opened() returns (actions: seq<Action>)
    ensures Run(EMPTY, actions) == EMPTY.(tokens := {1}, active := {1})
  {
    RunNext(EMPTY, [], AddToken(1));
    RunNext(EMPTY, [] + [AddToken(1)], SetActive(1, true));
    actions := [] + [AddToken(1)] + [SetActive(1, true)];
  }

  lemma ReadIsAccepted(d: Tables, ask: seq<Ask>, now: Time)
    requires d.tokens == {1} && d.active == {1} && ask == [Input(READ, ALWAYS)]
    ensures Accepted(d, 1, ask, now) && READ in Requested(ask)
  {
    assert ask[0] in ask;
    assert AllowedRules(READ.name) == {ALWAYS_RUN};
  }

  lemma HeldIsStored(d: Tables, k: Key)
    requires k in Existing(d, 1)
    ensures Slot(1, k) in d.rows
  {
  }

  lemma GrantedIs(d: Tables, want: map<Key, Grant>, now: Time)
    requires Consistent(d) && READ in want
    ensures Slot(1, READ) in Replaced(d, 1, want, now).rows
  {
    if Existing(d, 1) == want { HeldIsStored(d, READ); } else { ReplacedAt(d, 1, want, now, Slot(1, READ)); }
  }

  lemma ReplacedFrame(d: Tables, want: map<Key, Grant>, now: Time)
    ensures var r := Replaced(d, 1, want, now); r.tokens == d.tokens && r.active == d.active
  {
  }

  /** Token 1 holds the capability, and tokens and projects are as in `d`. */
  ghost predicate Holding(d: Tables, r: Tables) {
    Slot(1, READ) in r.rows && Consistent(r) && r.tokens == d.tokens && r.active == d.active
  }

  lemma HoldingAfter(d: Tables, want: map<Key, Grant>, now: Time)
    requires Consistent(d) && READ in want
    ensures Holding(d, Replaced(d, 1, want, now))
  {
    GrantedIs(d, want, now);
    ReplacedExact(d, 1, want, now);
    ReplacedFrame(d, want, now);
  }

  lemma Granted(d: Tables, ask: seq<Ask>, now: Time)
    requires Consistent(d) && Accepted(d, 1, ask, now) && READ in Requested(ask)
    ensures Holding(d, Do(d, Replace(1, ask, now)))
  {
    HoldingAfter(d, Requested(ask), now);
  }

  /** Such a token is reached by deactivating a project after a grant; asking for nothing then changes nothing,
      although the token still holds the capability. */
  lemma HiddenIsReached(now: Time) returns (actions: seq<Action>)
    ensures var d := Run(EMPTY, actions);
            Slot(1, READ) in d.rows && !Visible(d, Slot(1, READ)) && Accepted(d, 1, [], now)
              && Replaced(d, 1, map[], now) != d
            && Lists(d, 1, []) && DoUpdate(d, 1, CapabilityFingerprint([]), [], [], now) == d
  {
    var ask: seq<Ask> := [Input(READ, ALWAYS)];
    var first := Opened();
    ReadIsAccepted(Run(EMPTY, first), ask, now);
    Granted(Run(EMPTY, first), ask, now);
    RunNext(EMPTY, first, Replace(1, ask, now));
    RunNext(EMPTY, first + [Replace(1, ask, now)], SetActive(1, false));
    actions := first + [Replace(1, ask, now)] + [SetActive(1, false)];
    HiddenStays(Run(EMPTY, actions), now);
  }

  lemma HiddenStays(d: Tables, now: Time)
    requires 1 in d.tokens && d.active == {} && Slot(1, READ) in d.rows && Consistent(d)
    ensures Accepted(d, 1, [], now) && Replaced(d, 1, map[], now) != d && Lists(d, 1, [])
    ensures DoUpdate(d, 1, CapabilityFingerprint([]), [], [], now) == d
  {
    var none: seq<Ask> := [];
    assert Requested(none) == map[];
    assert READ in Existing(d, 1);
    assert VisibleGrants(d, 1) == map[];
    ReportedExactly(d, 1, none, now);
    ReplacedExact(d, 1, map[], now);
  }

  lemma HiddenDiffers(d: Tables, token: int, s: Slot)
    requires s in d.rows && s.token == token && !Visible(d, s)
    ensures VisibleGrants(d, token) != Existing(d, token)
  {
    assert s == Slot(token, s.key);
    assert s.key in Existing(d, token) && s.key !in VisibleGrants(d, token);
  }

  lemma AllVisible(d: Tables, token: int)
    requires forall s | s in d.rows && s.token == token :: Visible(d, s)
    ensures VisibleGrants(d, token) == Existing(d, token)
  {
  }

  function Grants(items: seq<Item>): seq<Ask> {
    seq(|items|, i requires 0 <= i < |items| => Input(items[i].key, items[i].grant))
  }

  lemma GrantOf(items: seq<Item>, x: Item)
    requires x in items
    ensures Input(x.key, x.grant) in Grants(items)
  {
    var i :| 0 <= i < |items| && items[i] == x;
    assert Grants(items)[i] == Input(x.key, x.grant);
  }

  lemma ItemOf(items: seq<Item>, y: Ask) returns (x: Item)
    requires y in Grants(items)
    ensures x in items && x.key == y.key && x.grant == y.grant
  {
    var i :| 0 <= i < |items| && Grants(items)[i] == y;
    x := items[i];
  }

  lemma UniqueGrants(items: seq<Item>)
    requires UniqueBy(items, KeyOf)
    ensures UniqueInputs(Grants(items))
  {
  }

  /** A listing names exactly the visible grants. */
  lemma ListedGrants(d: Tables, token: int, items: seq<Item>)
    requires Lists(d, token, items)
    ensures UniqueInputs(Grants(items)) && Requested(Grants(items)) == VisibleGrants(d, token)
  {
    UniqueGrants(items);
    var want, v := Requested(Grants(items)), VisibleGrants(d, token);
    forall k ensures (k in want <==> k in v) && (k in want ==> want[k] == v[k]) {
      if k in want { var x := ItemOf(items, Input(k, want[k])); }
      if k in v { GrantOf(items, Item(k, v[k], d.rows[Slot(token, k)].revision)); }
    }
  }

  /** Compares two listings the way a change is reported: by length, then entry by entry. */
  method ListsEqual(left: seq<Item>, right: seq<Item>) returns (equal: bool)
    requires UniqueInputs(Grants(left)) && UniqueInputs(Grants(right))
    ensures equal <==> Requested(Grants(left)) == Requested(Grants(right))
  {
    var inputs := Grants(left);
    var values: map<Key, Grant> := map[];
    for i := 0 to |inputs|
      invariant UniqueInputs(inputs[..i]) && values == Requested(inputs[..i])
    {
      NextInput(inputs, i);
      values := values[inputs[i].key := inputs[i].grant];
    }
    assert inputs[..|inputs|] == inputs;
    equal := SetEqual(values, Grants(right));
  }
}
