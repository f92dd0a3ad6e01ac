/** The durable request table of the connector-action workflow: one row per request and the guarded
    row transitions that the store's SQL statements perform. Every transition is a pure function on a
    row or on the whole table. `Lifecycle` interleaves them; `RequestLedger` runs them on mutable state. */
module ActionStore {
  import opened Wrappers

  type Id = nat
  type Token = nat
  type Time = int

  datatype Status =
    | Completed | Failed | Canceled | Running | ApprovalPending
    | Blocked | Stale | Declined | Error | OutcomeUnknown

  datatype Rule = AlwaysRun | ApprovalRequired | RuleBlocked

  /** Why a row was finished, as far as the protocol's promises depend on the stored error text. */
  datatype Cause = NoCause | LeaseExpiredBeforeDispatch | PersistenceUnknown | OtherCause

  /** A target, a credential profile of it, and an action name. */
  datatype Ref = Ref(target: nat, profile: nat, action: string)

  /** What the approval-context hash covers. Hashing is injective, so the hash is its preimage. */
  datatype Context = Context(
    token: Token, tokenExpires: Option<Time>, revoked: bool,
    rule: Option<Rule>, permExpires: Option<Time>,
    ref: Ref, input: string, payload: string, material: string)

  /** The caller's idempotency key together with the scope it is unique in. */
  datatype Scope = TokenScope(token: Token) | SourceScope(source: string)
  datatype ScopedKey = ScopedKey(scope: Scope, key: string)

  datatype Row = Row(
    status: Status, token: Option<Token>, mcp: bool, ref: Ref,
    context: Option<Context>, key: Option<ScopedKey>,
    owner: nat, lease: Option<Time>, dispatchedAt: Option<Time>,
    cause: Cause, completedAt: Option<Time>)

  /** A lifecycle event in the audit log, named by the status it reports. */
  datatype AuditEvent = AuditEvent(id: Id, status: Status)

  /** Seconds a claim stays valid without renewal. */
  const LEASE: Time := 30

  predicate Terminal(s: Status) {
    s != Running && s != ApprovalPending
  }

  function Settle(r: Row, status: Status, cause: Cause, now: Time): Row {
    r.(status := status, cause := cause, completedAt := Some(now))
  }

  // ---------------------------------------------------------------- single-row transitions

  predicate LeaseExpired(r: Row, now: Time) {
    r.lease.None? || r.lease.value <= now
  }

  predicate Claimable(r: Row, owner: nat, now: Time) {
    r.status == Running && r.owner == owner && r.dispatchedAt.None? && r.lease.Some? && r.lease.value >= now
  }

  function Claimed(r: Row, now: Time): Row {
    r.(dispatchedAt := Some(now), lease := Some(now + LEASE))
  }

  predicate Recoverable(r: Row, now: Time) {
    r.status == Running && LeaseExpired(r, now)
  }

  function Recovered(r: Row, now: Time): Row {
    if r.dispatchedAt.None? then Settle(r, Failed, LeaseExpiredBeforeDispatch, now)
    else Settle(r, OutcomeUnknown, PersistenceUnknown, now)
  }

  predicate Markable(r: Row) {
    r.status == ApprovalPending && r.context.Some?
  }

  function MarkedRunning(r: Row, owner: nat, now: Time): Row {
    r.(status := Running, owner := owner, lease := Some(now + LEASE), dispatchedAt := None, cause := NoCause)
  }

  /** Pending, or running without a claim: what an authorization change invalidates. */
  predicate Undispatched(r: Row) {
    r.status == ApprovalPending || (r.status == Running && r.dispatchedAt.None?)
  }

  // ---------------------------------------------------------------- whole-table transitions

  function StaleForToken(rows: map<Id, Row>, t: Token, now: Time): map<Id, Row> {
    map id | id in rows ::
      if rows[id].token == Some(t) && Undispatched(rows[id]) then Settle(rows[id], Stale, OtherCause, now)
      else rows[id]
  }

  function InvalidatedRow(r: Row, target: nat, profile: Option<nat>, includeRunning: bool, now: Time): Row {
    if r.ref.target != target || (profile.Some? && r.ref.profile != profile.value) then r
    else if r.status == ApprovalPending then Settle(r, Stale, OtherCause, now)
    else if !includeRunning || r.status != Running then r
    else if r.dispatchedAt.None? then Settle(r, Stale, OtherCause, now)
    else Settle(r, OutcomeUnknown, OtherCause, now)
  }

  function InvalidatedForTarget(rows: map<Id, Row>, target: nat, profile: Option<nat>, includeRunning: bool,
      now: Time): map<Id, Row> {
    map id | id in rows :: InvalidatedRow(rows[id], target, profile, includeRunning, now)
  }

  function UnknownIfRunning(rows: map<Id, Row>, now: Time): map<Id, Row> {
    map id | id in rows ::
      if rows[id].status == Running then Settle(rows[id], OutcomeUnknown, OtherCause, now) else rows[id]
  }
}
