/** The snapshot a request is approved against: its hash, and the reason given when a later snapshot no
    longer matches. Hashing is injective, so a hash is its material. */
module ApprovalContext {
  import opened Wrappers

  datatype Value = Null | Leaf(text: string) | List(items: seq<Value>) | Node(fields: map<string, Value>)

  type Snapshot = map<string, Value>

  const SCHEMA_VERSION := "connector-action-v2"
  const UNKNOWN := "unknown"
  const AREAS := ["connector", "token", "permission", "project", "target", "profile", "dependencies"]

  /** A field of the action and the reason that names it. */
  datatype Named = Named(field: string, reason: string)
  const ACTION_FIELDS := [
    Named("definition_hash", "action_definition"), Named("payload_hash", "payload"),
      Named("context_hash", "action_context")]

  /** What a preparation, a token and a permission contribute. */
  datatype Material = Material(
    connector: Value, token: Value, permission: Value, project: Value, target: Value, profile: Value,
    dependencies: Value, name: Value, risk: Value, definition: Value, payload: Value, context: Value)

  function Action(m: Material): map<string, Value> {
    map["name" := m.name, "risk" := m.risk, "definition" := m.definition,
        "definition_hash" := m.definition, "payload_hash" := m.payload, "context_hash" := m.context]
  }

  function Build(m: Material, capturedAt: string): Snapshot {
    map[
      "schema_version" := Leaf(SCHEMA_VERSION),
      "captured_at" := Leaf(capturedAt),
      "tool" := Node(map["name" := Leaf("connector.call_action"), "schema_version" := Leaf(SCHEMA_VERSION)]),
      "connector" := m.connector, "token" := m.token, "permission" := m.permission, "project" := m.project,
      "target" := m.target, "profile" := m.profile, "dependencies" := m.dependencies,
      "action" := Node(Action(m))]
  }

  /** When the snapshot was taken is not part of what was approved. */
  function Hash(s: Snapshot): Snapshot {
    map k | k in s && k != "captured_at" :: s[k]
  }

  function Get(s: Snapshot, k: string): Option<Value> {
    if k in s then Some(s[k]) else None
  }

  /** A field that is missing reads as null. */
  function At(s: Snapshot, k: string): Value {
    if k in s then s[k] else Null
  }

  function ActionValue(s: Snapshot, k: string): Value {
    if At(s, "action").Node? then At(At(s, "action").fields, k) else Null
  }

  /** A context that does not parse explains nothing. */
  method DriftReason(previous: Option<Snapshot>, current: Option<Snapshot>) returns (reason: string)
    ensures reason == UNKNOWN <==> previous.None? || current.None? || Same(previous.value, current.value)
    ensures previous.Some? && current.Some? ==> Explains(previous.value, current.value, reason)
  {
    if previous.None? || current.None? { return UNKNOWN; }
    reason := FirstDifference(previous.value, current.value);
  }

  /** The reason names the first area that differs, then the first field of the action that differs, then the
      action itself. */
  ghost predicate Explains(previous: Snapshot, current: Snapshot, reason: string) {
    (forall i | 0 <= i < |AREAS| :: reason == AREAS[i] ==>
       At(previous, AREAS[i]) != At(current, AREAS[i])
         && forall j | 0 <= j < i :: At(previous, AREAS[j]) == At(current, AREAS[j]))
    && (forall i | 0 <= i < |ACTION_FIELDS| :: reason == ACTION_FIELDS[i].reason ==>
          ActionValue(previous, ACTION_FIELDS[i].field) != ActionValue(current, ACTION_FIELDS[i].field)
          && SameAreas(previous, current) && SameFields(previous, current, i))
    && (reason == "action" ==> SameAreas(previous, current) && SameFields(previous, current, |ACTION_FIELDS|)
                               && At(previous, "action") != At(current, "action"))
    && (reason in AREAS || reason in {"action_definition", "payload", "action_context", "action", UNKNOWN})
  }

  method FirstDifference(previous: Snapshot, current: Snapshot) returns (reason: string)
    ensures reason == UNKNOWN <==> Same(previous, current)
    ensures Explains(previous, current, reason)
  {
    for i := 0 to |AREAS|
      invariant forall j | 0 <= j < i :: At(previous, AREAS[j]) == At(current, AREAS[j])
    {
      if At(previous, AREAS[i]) != At(current, AREAS[i]) { Names(i); return AREAS[i]; }
    }
    for i := 0 to |ACTION_FIELDS|
      invariant forall j | 0 <= j < i ::
                ActionValue(previous, ACTION_FIELDS[j].field) == ActionValue(current, ACTION_FIELDS[j].field)
    {
      if ActionValue(previous, ACTION_FIELDS[i].field) != ActionValue(current, ACTION_FIELDS[i].field) {
        return ACTION_FIELDS[i].reason;
      }
    }
    if At(previous, "action") != At(current, "action") { return "action"; }
    return UNKNOWN;
  }

  ghost predicate SameAreas(s: Snapshot, t: Snapshot) {
    forall i | 0 <= i < |AREAS| :: At(s, AREAS[i]) == At(t, AREAS[i])
  }

  ghost predicate SameFields(s: Snapshot, t: Snapshot, n: nat) {
    forall j | 0 <= j < n && j < |ACTION_FIELDS| ::
      ActionValue(s, ACTION_FIELDS[j].field) == ActionValue(t, ACTION_FIELDS[j].field)
  }

  ghost predicate Same(s: Snapshot, t: Snapshot) {
    SameAreas(s, t) && At(s, "action") == At(t, "action")
  }

  lemma Names(i: nat)
    requires i < |AREAS|
    ensures AREAS[i] != UNKNOWN && AREAS[i] != "action"
            && forall j | 0 <= j < |ACTION_FIELDS| :: AREAS[i] != ACTION_FIELDS[j].reason
    ensures forall j | 0 <= j < |AREAS| && j != i :: AREAS[j] != AREAS[i]
  {
  }

  lemma HashGet(s: Snapshot, t: Snapshot)
    ensures Hash(s) == Hash(t) <==> forall k | k != "captured_at" :: Get(s, k) == Get(t, k)
  {
    if forall k | k != "captured_at" :: Get(s, k) == Get(t, k) {
      forall k ensures (k in Hash(s) <==> k in Hash(t)) && (k in Hash(s) ==> Hash(s)[k] == Hash(t)[k]) {
        assert k != "captured_at" ==> Get(s, k) == Get(t, k);
      }
      assert Hash(s) == Hash(t);
    }
    if Hash(s) == Hash(t) {
      forall k | k != "captured_at" ensures Get(s, k) == Get(t, k) {
        assert k in Hash(s) <==> k in Hash(t);
        assert k in Hash(s) ==> Hash(s)[k] == Hash(t)[k];
      }
    }
  }

  predicate Explained(k: string) {
    k == "captured_at" || k == "action" || k in AREAS
  }

  /** Any two snapshots: equal hashes mean no reason, and no reason means equal hashes exactly when nothing
      outside the areas, the action and the capture time differs and no null stands in for a missing area. */
  lemma ReasonVersusHash(s: Snapshot, t: Snapshot)
    ensures Hash(s) == Hash(t) <==>
            Same(s, t) && (forall k | !Explained(k) :: Get(s, k) == Get(t, k))
            && (forall k | Explained(k) && k != "captured_at" :: k in s <==> k in t)
  {
    HashGet(s, t);
    if Hash(s) == Hash(t) {
      forall i | 0 <= i < |AREAS| ensures At(s, AREAS[i]) == At(t, AREAS[i]) {
        Names(i);
        assert Get(s, AREAS[i]) == Get(t, AREAS[i]);
      }
      assert Get(s, "action") == Get(t, "action");
      forall k | Explained(k) && k != "captured_at" ensures k in s <==> k in t {
        assert Get(s, k) == Get(t, k);
      }
    }
    if Same(s, t) && (forall k | !Explained(k) :: Get(s, k) == Get(t, k))
       && (forall k | Explained(k) && k != "captured_at" :: k in s <==> k in t) {
      forall k | k != "captured_at" ensures Get(s, k) == Get(t, k) {
        if Explained(k) {
          assert At(s, k) == At(t, k) by {
            if k in AREAS { var i :| 0 <= i < |AREAS| && AREAS[i] == k; }
          }
        }
      }
    }
  }

  /** A null stands in for a missing area: the hash tells the two apart, but no reason is given. */
  lemma NullHidesDrift(s: Snapshot, k: string)
    requires k in AREAS && k !in s
    ensures Same(s, s[k := Null]) && Hash(s) != Hash(s[k := Null])
  {
    var i :| 0 <= i < |AREAS| && AREAS[i] == k;
    Names(i);
    assert AREAS[i] != "captured_at";
    assert k in Hash(s[k := Null]) && k !in Hash(s);
  }

  lemma AreaOf(m: Material, capturedAt: string)
    ensures var s := Build(m, capturedAt);
            At(s, AREAS[0]) == m.connector && At(s, AREAS[1]) == m.token && At(s, AREAS[2]) == m.permission
            && At(s, AREAS[3]) == m.project && At(s, AREAS[4]) == m.target && At(s, AREAS[5]) == m.profile
            && At(s, AREAS[6]) == m.dependencies
  {
  }

  lemma ActionDetermines(m: Material, n: Material)
    requires Action(m) == Action(n)
    ensures m.name == n.name && m.risk == n.risk && m.definition == n.definition && m.payload == n.payload
            && m.context == n.context
  {
    var x, y := Action(m), Action(n);
    assert x["name"] == y["name"] && x["risk"] == y["risk"] && x["definition"] == y["definition"];
    assert x["payload_hash"] == y["payload_hash"] && x["context_hash"] == y["context_hash"];
  }

  lemma OnlyExplained(m: Material, a: string, n: Material, b: string, k: string)
    requires !Explained(k)
    ensures Get(Build(m, a), k) == Get(Build(n, b), k)
  {
    assert AREAS[0] in AREAS && AREAS[1] in AREAS && AREAS[2] in AREAS && AREAS[3] in AREAS && AREAS[4] in AREAS
           && AREAS[5] in AREAS && AREAS[6] in AREAS;
  }

  lemma SameMaterial(m: Material, a: string, n: Material, b: string)
    requires Same(Build(m, a), Build(n, b))
    ensures m == n
  {
    AreaOf(m, a);
    AreaOf(n, b);
    assert Build(m, a)["action"] == Node(Action(m)) && Build(n, b)["action"] == Node(Action(n));
    ActionDetermines(m, n);
  }

  /** Two snapshots that were built here: a changed hash always has a named reason, an unchanged one never,
      and the hash covers all of the material but not the time. */
  lemma ReasonExact(m: Material, a: string, n: Material, b: string)
    ensures Same(Build(m, a), Build(n, b)) <==> Hash(Build(m, a)) == Hash(Build(n, b))
    ensures Hash(Build(m, a)) == Hash(Build(n, b)) <==> m == n
  {
    ReasonVersusHash(Build(m, a), Build(n, b));
    assert Build(m, a).Keys == Build(n, b).Keys;
    forall k | !Explained(k) ensures Get(Build(m, a), k) == Get(Build(n, b), k) { OnlyExplained(m, a, n, b, k); }
    if Same(Build(m, a), Build(n, b)) { SameMaterial(m, a, n, b); }
    if m == n { SameWhenEqual(m, a, b); }
  }

  lemma SameWhenEqual(m: Material, a: string, b: string)
    ensures Same(Build(m, a), Build(m, b))
  {
    AreaOf(m, a);
    AreaOf(m, b);
  }
}
