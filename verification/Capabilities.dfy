/** The project capabilities of a token: replaced as a whole, with revision numbers that are never reused
    and a fingerprint that lets an update commit only over the set its client has loaded. */
module Capabilities {
  import opened Wrappers
  import opened Keyed

  type Time = int

  const VAULT_METADATA_READ := "vault.metadata.read"
  const VAULT_ITEM_GENERATE := "vault.item.generate"
  const VAULT_SESSION_APPLY := "vault.session.apply"
  const ALWAYS_RUN := "always_run"
  const APPROVAL_REQUIRED := "approval_required"

  datatype Key = Key(project: int, name: string)
  datatype Slot = Slot(token: int, key: Key)
  datatype Grant = Grant(rule: string, expires: Option<Time>)
  type Ask = Input<Key, Grant>
  datatype Row = Row(grant: Grant, revision: nat, created: Time, updated: Time)

  /** The capability table, the table of revision counters, and what the checks read. */
  datatype Tables = Tables(rows: map<Slot, Row>, revisions: map<Slot, nat>, tokens: set<int>, active: set<int>)

  // ---------------------------------------------------------------- what a replacement asks for

  function AllowedRules(name: string): set<string> {
    if name == VAULT_METADATA_READ then {ALWAYS_RUN}
    else if name == VAULT_ITEM_GENERATE || name == VAULT_SESSION_APPLY then {APPROVAL_REQUIRED, ALWAYS_RUN}
    else {}
  }

  predicate Supported(name: string) {
    AllowedRules(name) != {}
  }

  predicate Acceptable(i: Ask, now: Time) {
    i.key.project >= 1 && i.grant.rule in AllowedRules(i.key.name)
      && (i.grant.expires.Some? ==> i.grant.expires.value > now)
  }

  predicate Accepted(d: Tables, token: int, inputs: seq<Ask>, now: Time) {
    token >= 1 && token in d.tokens && UniqueInputs(inputs)
    && forall i | i in inputs :: Acceptable(i, now) && i.key.project in d.active
  }

  // ---------------------------------------------------------------- the replacement

  function Keys(rows: map<Slot, Row>, token: int): (keys: set<Key>)
    ensures forall k :: k in keys <==> Slot(token, k) in rows
  {
    var keys := set s | s in rows && s.token == token :: s.key;
    assert forall k :: Slot(token, k) in rows ==> Slot(token, k).key in keys;
    keys
  }

  function Existing(d: Tables, token: int): map<Key, Grant> {
    map k | k in Keys(d.rows, token) :: d.rows[Slot(token, k)].grant
  }

  function Slots(token: int, want: map<Key, Grant>): set<Slot> {
    set k | k in want :: Slot(token, k)
  }

  /** The slot is asked for and does not hold exactly that already. */
  predicate Differs(rows: map<Slot, Row>, token: int, want: map<Key, Grant>, s: Slot) {
    s.token == token && s.key in want && !(s in rows && rows[s].grant == want[s.key])
  }

  /** The counters, with that of `s` advanced unless `s` holds exactly `grant` already. */
  function Bumped(rows: map<Slot, Row>, revisions: map<Slot, nat>, s: Slot, grant: Grant): map<Slot, nat> {
    if s in rows && rows[s].grant == grant then revisions
    else revisions[s := if s in revisions then revisions[s] + 1 else 1]
  }

  /** The counters, advanced for every slot that differs. */
  function Advanced(rows: map<Slot, Row>, revisions: map<Slot, nat>, token: int,
      want: map<Key, Grant>): map<Slot, nat> {
    map s | s in revisions.Keys + Slots(token, want) && (s in revisions || Differs(rows, token, want, s)) ::
      if Differs(rows, token, want, s) then (if s in revisions then revisions[s] + 1 else 1) else revisions[s]
  }

  /** The rows, with those of the token replaced by the wanted ones at their counters' revisions. */
  function Rewritten(rows: map<Slot, Row>, revisions: map<Slot, nat>, token: int, want: map<Key, Grant>,
      now: Time): map<Slot, Row> {
    map s | s in rows.Keys + Slots(token, want) && (s.token == token ==> s.key in want && s in revisions) ::
      if s.token != token then rows[s]
      else Row(want[s.key], revisions[s], if s in rows then rows[s].created else now, now)
  }

  function Replaced(d: Tables, token: int, want: map<Key, Grant>, now: Time): Tables {
    if Existing(d, token) == want then d else
    var revisions := Advanced(d.rows, d.revisions, token, want);
    d.(revisions := revisions, rows := Rewritten(d.rows, revisions, token, want, now))
  }

  lemma InSlots(token: int, want: map<Key, Grant>, s: Slot)
    ensures s in Slots(token, want) <==> s.token == token && s.key in want
  {
    assert s == Slot(s.token, s.key);
  }

  /** Asking for nothing advances nothing and leaves the token nothing. */
  lemma NoneWanted(rows: map<Slot, Row>, revisions: map<Slot, nat>, token: int, now: Time)
    ensures Advanced(rows, revisions, token, map[]) == revisions
    ensures Rewritten(rows, revisions, token, map[], now) == map s | s in rows && s.token != token :: rows[s]
  {
    assert Slots(token, map[]) == {};
  }

  lemma AdvanceOne(rows: map<Slot, Row>, revisions: map<Slot, nat>, token: int, want: map<Key, Grant>, x: Ask)
    requires x.key !in want
    ensures var s := Slot(token, x.key);
            var r := Advanced(rows, revisions, token, want);
            Advanced(rows, revisions, token, want[x.key := x.grant]) == Bumped(rows, r, s, x.grant)
  {
    var s := Slot(token, x.key);
    var r := Advanced(rows, revisions, token, want);
    var more := Advanced(rows, revisions, token, want[x.key := x.grant]);
    var expected := Bumped(rows, r, s, x.grant);
    forall t: Slot ensures (t in more <==> t in expected) && (t in more ==> more[t] == expected[t]) {
      InSlots(token, want, t);
      InSlots(token, want[x.key := x.grant], t);
    }
  }

  lemma RewriteOne(rows: map<Slot, Row>, revisions: map<Slot, nat>, token: int, want: map<Key, Grant>, x: Ask,
      now: Time)
    requires x.key !in want
    ensures var s := Slot(token, x.key);
            var r := Rewritten(rows, revisions, token, want, now);
            Rewritten(rows, revisions, token, want[x.key := x.grant], now) ==
            if s in revisions then r[s := Row(x.grant, revisions[s], if s in rows then rows[s].created else now, now)]
            else r
  {
    var s := Slot(token, x.key);
    var r := Rewritten(rows, revisions, token, want, now);
    var more := Rewritten(rows, revisions, token, want[x.key := x.grant], now);
    var expected := if s in revisions
      then r[s := Row(x.grant, revisions[s], if s in rows then rows[s].created else now, now)] else r;
    forall t: Slot ensures (t in more <==> t in expected) && (t in more ==> more[t] == expected[t]) {
      InSlots(token, want, t);
      InSlots(token, want[x.key := x.grant], t);
    }
  }

  // ---------------------------------------------------------------- the store

  /** Both tables count the same revisions. */
  ghost predicate Consistent(d: Tables) {
    forall s | s in d.rows :: s in d.revisions && d.rows[s].revision == d.revisions[s]
  }

  class CapabilityStore {
    var rows: map<Slot, Row>
    var revisions: map<Slot, nat>
    var tokens: set<int>
    var active: set<int>

    function Snapshot(): Tables reads this {
      Tables(rows, revisions, tokens, active)
    }

    constructor (d: Tables)
      ensures Snapshot() == d
    {
      rows, revisions, tokens, active := d.rows, d.revisions, d.tokens, d.active;
    }

    /** Refuses a repeated capability and any capability that is not acceptable. */
    static method Normalize(inputs: seq<Ask>, now: Time) returns (ok: bool)
      ensures ok <==> UniqueInputs(inputs) && forall x | x in inputs :: Acceptable(x, now)
    {
      var taken: set<Key> := {};
      for i := 0 to |inputs|
        invariant UniqueInputs(inputs[..i]) && (forall x | x in inputs[..i] :: Acceptable(x, now) && x.key in taken)
        invariant forall k | k in taken :: exists j :: 0 <= j < i && inputs[j].key == k
      {
        assert inputs[..i + 1] == inputs[..i] + [inputs[i]] && inputs[i] in inputs;
        if !Acceptable(inputs[i], now) || inputs[i].key in taken { return false; }
        taken := taken + {inputs[i].key};
      }
      assert inputs[..|inputs|] == inputs;
      return true;
    }

    method RequireActive(inputs: seq<Ask>) returns (ok: bool)
      ensures ok <==> forall x | x in inputs :: x.key.project in active
    {
      for i := 0 to |inputs|
        invariant forall x | x in inputs[..i] :: x.key.project in active
      {
        assert inputs[..i + 1] == inputs[..i] + [inputs[i]] && inputs[i] in inputs;
        if inputs[i].key.project !in active { return false; }
      }
      assert inputs[..|inputs|] == inputs;
      return true;
    }

    /** Advances the counter of every input that is new or different. */
    method Advance(token: int, inputs: seq<Ask>)
      requires UniqueInputs(inputs)
      modifies `revisions
      ensures revisions == Advanced(rows, old(revisions), token, Requested(inputs))
    {
      ghost var was := revisions;
      NoneWanted(rows, was, token, 0);
      ghost var want: map<Key, Grant> := map[];
      for i := 0 to |inputs|
        invariant UniqueInputs(inputs[..i]) && want == Requested(inputs[..i])
        invariant revisions == Advanced(rows, was, token, want)
      {
        NextInput(inputs, i);
        AdvanceOne(rows, was, token, want, inputs[i]);
        want := want[inputs[i].key := inputs[i].grant];
        revisions := Bumped(rows, revisions, Slot(token, inputs[i].key), inputs[i].grant);
      }
      assert inputs[..|inputs|] == inputs;
    }

    /** Deletes the token's capabilities and inserts the inputs, each with its counter's revision. */
    method Rewrite(token: int, inputs: seq<Ask>, now: Time)
      requires UniqueInputs(inputs)
      modifies `rows
      ensures rows == Rewritten(old(rows), revisions, token, Requested(inputs), now)
    {
      var existing := rows;
      NoneWanted(rows, revisions, token, now);
      rows := map s | s in rows && s.token != token :: rows[s];
      ghost var want: map<Key, Grant> := map[];
      for i := 0 to |inputs|
        invariant UniqueInputs(inputs[..i]) && want == Requested(inputs[..i])
        invariant rows == Rewritten(existing, revisions, token, want, now)
      {
        NextInput(inputs, i);
        RewriteOne(existing, revisions, token, want, inputs[i], now);
        want := want[inputs[i].key := inputs[i].grant];
        var s := Slot(token, inputs[i].key);
        if s in revisions {
          var created := if s in existing then existing[s].created else now;
          rows := rows[s := Row(inputs[i].grant, revisions[s], created, now)];
        }
      }
      assert inputs[..|inputs|] == inputs;
    }

    method Check(token: int, inputs: seq<Ask>, now: Time) returns (ok: bool)
      ensures ok == Accepted(Snapshot(), token, inputs, now)
    {
      if token < 1 { return false; }
      ok := Normalize(inputs, now);
      if !ok { return; }
      if token !in tokens { return false; }
      ok := RequireActive(inputs);
    }

    method Apply(token: int, inputs: seq<Ask>, now: Time)
      requires UniqueInputs(inputs)
      modifies `rows, `revisions
      ensures Snapshot() == Replaced(old(Snapshot()), token, Requested(inputs), now)
    {
      var equal := SetEqual(Existing(Snapshot(), token), inputs);
      if !equal {
        Advance(token, inputs);
        Rewrite(token, inputs, now);
      }
    }

    /** Leaves the token exactly the requested capabilities, or refuses and changes nothing. */
    method Replace(token: int, inputs: seq<Ask>, now: Time) returns (ok: bool)
      modifies `rows, `revisions
      ensures ok == Accepted(old(Snapshot()), token, inputs, now)
      ensures Snapshot() == if ok then Replaced(old(Snapshot()), token, Requested(inputs), now) else old(Snapshot())
    {
      ok := Check(token, inputs, now);
      if ok { Apply(token, inputs, now); }
    }
  }

  // ---------------------------------------------------------------- one replacement

  lemma ReplacedAt(d: Tables, token: int, want: map<Key, Grant>, now: Time, s: Slot)
    requires Consistent(d) && Existing(d, token) != want
    ensures var r := Replaced(d, token, want, now);
            if s.token != token then
              (s in r.rows <==> s in d.rows)
              && (s in r.rows ==> r.rows[s] == d.rows[s] && s in r.revisions && r.revisions[s] == d.revisions[s])
            else
              (s in r.rows <==> s.key in want)
              && (s in r.rows ==>
                    r.rows[s].grant == want[s.key] && s in r.revisions && r.rows[s].revision == r.revisions[s])
  {
    InSlots(token, want, s);
  }

  lemma ExistingIs(d: Tables, token: int, want: map<Key, Grant>)
    requires forall k :: k in want <==> Slot(token, k) in d.rows
    requires forall k | k in want :: d.rows[Slot(token, k)].grant == want[k]
    ensures Existing(d, token) == want
  {
  }

  /** An accepted replacement leaves the token exactly the requested set and touches no other token. */
  lemma ReplacedExact(d: Tables, token: int, want: map<Key, Grant>, now: Time)
    requires Consistent(d)
    ensures var r := Replaced(d, token, want, now);
            Existing(r, token) == want && Consistent(r)
            && forall s: Slot | s.token != token ::
               (s in r.rows <==> s in d.rows) && (s in r.rows ==> r.rows[s] == d.rows[s])
  {
    if Existing(d, token) != want {
      var r := Replaced(d, token, want, now);
      forall s: Slot
        ensures s in r.rows ==> s in r.revisions && r.rows[s].revision == r.revisions[s]
        ensures s.token != token ==> (s in r.rows <==> s in d.rows) && (s in r.rows ==> r.rows[s] == d.rows[s])
      {
        ReplacedAt(d, token, want, now, s);
      }
      forall k ensures k in want <==> Slot(token, k) in r.rows
               ensures k in want ==> Slot(token, k) in r.rows && r.rows[Slot(token, k)].grant == want[k]
      {
        ReplacedAt(d, token, want, now, Slot(token, k));
      }
      ExistingIs(r, token, want);
    }
  }

  /** So repeating a replacement changes nothing. */
  lemma ReplacedAgain(d: Tables, token: int, want: map<Key, Grant>, now: Time, later: Time)
    requires Consistent(d)
    ensures var r := Replaced(d, token, want, now); Replaced(r, token, want, later) == r
  {
    ReplacedExact(d, token, want, now);
  }

  /** From `d` to `r` the counter of `s` does not go back, and while it stands still the capability is neither
      granted anew nor changed. */
  ghost predicate Counts(d: Tables, r: Tables, s: Slot) {
    (s in d.revisions ==> s in r.revisions && r.revisions[s] >= d.revisions[s])
    && (s in r.rows && s in d.revisions && s in r.revisions && r.revisions[s] == d.revisions[s] ==>
          s in d.rows && r.rows[s].grant == d.rows[s].grant && r.rows[s].revision == d.rows[s].revision)
  }

  lemma ReplacedCounts(d: Tables, token: int, want: map<Key, Grant>, now: Time, s: Slot)
    requires Consistent(d)
    ensures Counts(d, Replaced(d, token, want, now), s)
  {
  }
}
