/** The runtime's own view of the request table: the loops and transactions that one goroutine runs on
    it, as methods on mutable state. Transactions end as the given faults say. Each method is proved
    against the row transitions of `ActionStore`, which the state machine in `Lifecycle` also uses. */
module RequestLedger {
  import opened Wrappers
  import opened ActionStore
  import opened Lifecycle
  import Canonical

  /** One try at a transaction: how it ends and the time it stamps. */
  datatype Attempt = Attempt(fault: Fault, now: Time)

  datatype Store = Store(rows: map<Id, Row>, audit: seq<AuditEvent>)

  /** What to write into a request that ends. */
  datatype Ending = Ending(status: Status, cause: Cause, allowed: seq<Status>)

  // ---------------------------------------------------------------- finishing

  /** The statuses a finish may start from; none when the caller names one that cannot be finished. */
  function Effective(allowed: seq<Status>): Option<set<Status>> {
    if allowed == [] then Some({Running})
    else if forall x | x in allowed :: x in {Running, ApprovalPending, Blocked} then Some(set x | x in allowed)
    else None
  }

  predicate Acceptable(e: Ending) {
    Terminal(e.status) && Effective(e.allowed).Some?
  }

  /** The row is in a status that this ending may replace. */
  predicate Open(d: Store, id: Id, e: Ending) {
    Effective(e.allowed).Some? && id in d.rows && d.rows[id].status in Effective(e.allowed).value
  }

  function Ended(d: Store, id: Id, e: Ending, now: Time): Store
    requires id in d.rows
  {
    Store(d.rows[id := Settle(d.rows[id], e.status, e.cause, now)], d.audit + [AuditEvent(id, e.status)])
  }

  /** One transaction, and whether the caller is told that it succeeded. */
  function FinishOnce(d: Store, id: Id, e: Ending, a: Attempt): (Store, bool) {
    if !Acceptable(e) || id !in d.rows || a.fault == RolledBack then (d, false)
    else if !Open(d, id, e) then (d, true)
    else (Ended(d, id, e, a.now), a.fault == Acknowledged)
  }

  /** The state machine's finishing transaction is this one, with the machine's clock. */
  lemma FinishRowIsFinishOnce(s: State, id: Id, e: Ending, fault: Fault)
    requires Acceptable(e)
    ensures var r := if fault == RolledBack then s else FinishRow(s, id, Effective(e.allowed).value, e.status, e.cause);
            FinishOnce(Store(s.db.rows, s.db.audit), id, e, Attempt(fault, s.clock)).0 == Store(r.db.rows, r.db.audit)
  {
    var d := Store(s.db.rows, s.db.audit);
    assert Open(d, id, e) <==> id in s.db.rows && s.db.rows[id].status in Effective(e.allowed).value;
  }

  /** So every finishing action of the machine is one attempt: of a result, of a decline, of a blocked request. */
  lemma ActionsAreAttempts(s: State, tid: nat, fault: Fault)
    requires tid in s.mem.threads
    ensures var t, d, a := s.mem.threads[tid], Store(s.db.rows, s.db.audit), Attempt(fault, s.clock);
            (t.Finishing? && Terminal(t.status) ==> var r := DoFinish(s, tid, fault).db;
                                                    Store(r.rows, r.audit)
                                                      == FinishOnce(d, t.id, Ending(t.status, t.cause, []), a).0)
            && (t.DeclineHeld? ==> var r := DoDecline(s, tid, fault).db;
                                   Store(r.rows, r.audit)
                                     == FinishOnce(d, t.id, Ending(Declined, OtherCause, [ApprovalPending]), a).0)
            && (t.Blocking? ==> var r := DoFinishBlocked(s, tid, fault).db;
                                Store(r.rows, r.audit)
                                  == FinishOnce(d, t.id, Ending(Blocked, OtherCause, [Blocked]), a).0)
  {
    var t := s.mem.threads[tid];
    if t.Finishing? && Terminal(t.status) {
      FinishRowIsFinishOnce(s, t.id, Ending(t.status, t.cause, []), fault);
    } else if t.DeclineHeld? {
      assert Effective([ApprovalPending]).value == {ApprovalPending};
      FinishRowIsFinishOnce(s, t.id, Ending(Declined, OtherCause, [ApprovalPending]), fault);
    } else if t.Blocking? {
      assert Effective([Blocked]).value == {Blocked};
      FinishRowIsFinishOnce(s, t.id, Ending(Blocked, OtherCause, [Blocked]), fault);
    }
  }

  /** Attempts in order until one is reported as a success. */
  function FinishLoop(d: Store, id: Id, e: Ending, attempts: seq<Attempt>): (Store, bool)
    decreases |attempts|
  {
    if attempts == [] then (d, false) else
    var (d', ok) := FinishOnce(d, id, e, attempts[0]);
    if ok then (d', true) else FinishLoop(d', id, e, attempts[1..])
  }

  /** A reported success means that the request is stored as ended: with this status, or in a status this
      ending may not replace. */
  lemma {:induction false} FinishPersists(d: Store, id: Id, e: Ending, attempts: seq<Attempt>)
    requires FinishLoop(d, id, e, attempts).1
    ensures var r := FinishLoop(d, id, e, attempts).0;
            id in r.rows
            && if Open(d, id, e) then r.rows[id].status == e.status && AuditEvent(id, e.status) in r.audit else r == d
    decreases |attempts|
  {
    var (d', ok) := FinishOnce(d, id, e, attempts[0]);
    if !ok { FinishPersists(d', id, e, attempts[1..]); }
  }

  /** Whatever happens, a row and its event change together: either neither or both. */
  lemma {:induction false} FinishAtomic(d: Store, id: Id, e: Ending, attempts: seq<Attempt>)
    ensures var r := FinishLoop(d, id, e, attempts).0;
            d.audit <= r.audit && (forall i | |d.audit| <= i < |r.audit| :: r.audit[i] == AuditEvent(id, e.status))
            && (r.audit == d.audit ==> r == d)
            && (r.audit != d.audit ==> Open(d, id, e) && Acceptable(e) && id in r.rows && r.rows[id].status == e.status)
            && r.rows.Keys == d.rows.Keys
            && forall other | other in d.rows && other != id :: r.rows[other] == d.rows[other]
    decreases |attempts|
  {
    if attempts != [] {
      var (d', ok) := FinishOnce(d, id, e, attempts[0]);
      if !ok { FinishAtomic(d', id, e, attempts[1..]); }
    }
  }

  lemma {:induction false} ClosedUnchanged(d: Store, id: Id, e: Ending, attempts: seq<Attempt>)
    requires !Open(d, id, e)
    ensures FinishLoop(d, id, e, attempts).0 == d
    decreases |attempts|
  {
    if attempts != [] && !FinishOnce(d, id, e, attempts[0]).1 { ClosedUnchanged(d, id, e, attempts[1..]); }
  }

  lemma {:induction false} AtMostOneEvent(d: Store, id: Id, e: Ending, attempts: seq<Attempt>)
    requires Effective(e.allowed).Some? ==> e.status !in Effective(e.allowed).value
    ensures |FinishLoop(d, id, e, attempts).0.audit| <= |d.audit| + 1
    decreases |attempts|
  {
    if attempts != [] {
      var (d', ok) := FinishOnce(d, id, e, attempts[0]);
      if !ok {
        if Open(d', id, e) {
          AtMostOneEvent(d', id, e, attempts[1..]);
        } else {
          ClosedUnchanged(d', id, e, attempts[1..]);
        }
      }
    }
  }

  /** At most one event over every pattern of faults, exactly when the ending cannot start from its own
      status. Only a blocked request can be ended from `Blocked`, and then a commit that is reported as a
      failure is repeated and reported twice. */
  lemma ReportedOnceExactly(d: Store, id: Id, e: Ending)
    requires Acceptable(e) && Open(d, id, e)
    ensures (forall attempts {:trigger FinishLoop(d, id, e, attempts)} ::
              |FinishLoop(d, id, e, attempts).0.audit| <= |d.audit| + 1) <==>
            !(e.status == Blocked && Blocked in e.allowed)
  {
    if e.status == Blocked && Blocked in e.allowed {
      var attempts := [Attempt(Ambiguous, 0), Attempt(Acknowledged, 0)];
      assert attempts[1..] == [attempts[1]];
      var once := Ended(d, id, e, 0);
      assert FinishLoop(once, id, e, attempts[1..]).0 == Ended(once, id, e, 0);
      assert |FinishLoop(d, id, e, attempts).0.audit| == |d.audit| + 2;
    } else {
      assert e.status !in Effective(e.allowed).value;
      forall attempts ensures |FinishLoop(d, id, e, attempts).0.audit| <= |d.audit| + 1 {
        AtMostOneEvent(d, id, e, attempts);
      }
    }
  }

  // ---------------------------------------------------------------- recovery

  /** The rows one recovery pass rewrites: recoverable, no live boundary, transaction not rolled back. */
  predicate Swept(rows: map<Id, Row>, boundaries: set<Id>, now: Time, faults: Id -> Fault, id: Id) {
    id in rows && Recoverable(rows[id], now) && id !in boundaries && faults(id) != RolledBack
  }

  function RecoveryPass(rows: map<Id, Row>, boundaries: set<Id>, now: Time, faults: Id -> Fault): map<Id, Row> {
    map id | id in rows :: if Swept(rows, boundaries, now, faults, id) then Recovered(rows[id], now) else rows[id]
  }

  predicate Increasing(ids: seq<Id>) {
    forall i, j | 0 <= i < j < |ids| :: ids[i] < ids[j]
  }

  /** The ids below `n` whose row satisfies `p`, in order. */
  ghost predicate Selects(rows: map<Id, Row>, p: Row -> bool, n: Id, ids: seq<Id>) {
    Increasing(ids) && forall id: Id :: id in ids <==> id < n && id in rows && p(rows[id])
  }

  /** One event for each id, carrying the status its row now has. */
  function Reported(rows: map<Id, Row>, ids: seq<Id>): seq<AuditEvent>
    requires forall id | id in ids :: id in rows
  {
    seq(|ids|, i requires 0 <= i < |ids| => AuditEvent(ids[i], rows[ids[i]].status))
  }

  lemma ReportedMore(was: map<Id, Row>, rows: map<Id, Row>, ids: seq<Id>, id: Id)
    requires id !in ids && id in rows && (forall x | x in ids :: x in was && x in rows && rows[x] == was[x])
    ensures Reported(rows, ids + [id]) == Reported(was, ids) + [AuditEvent(id, rows[id].status)]
  {
  }

  /** What is left after a pass: a row is still recoverable exactly when it was and has a live boundary or its
      transaction was rolled back. Nothing else has been touched. */
  lemma RecoveryPassSpares(rows: map<Id, Row>, boundaries: set<Id>, now: Time, faults: Id -> Fault)
    ensures var r := RecoveryPass(rows, boundaries, now, faults);
            r.Keys == rows.Keys
            && forall id | id in rows ::
                 (Recoverable(r[id], now) <==>
                     Recoverable(rows[id], now) && (id in boundaries || faults(id) == RolledBack))
                 && (!Recoverable(rows[id], now) || Recoverable(r[id], now) ==> r[id] == rows[id])
                 && (r[id] != rows[id] ==> Terminal(r[id].status))
  {
    var r := RecoveryPass(rows, boundaries, now, faults);
    forall id | id in rows
      ensures Recoverable(r[id], now) <==> Recoverable(rows[id], now) && (id in boundaries || faults(id) == RolledBack)
    {
      assert Recovered(rows[id], now).status != Running;
    }
  }

  /** A transaction is lost when it is rolled back in both passes. */
  function Either(faults: Id -> Fault, again: Id -> Fault): Id -> Fault {
    (id: Id) => if faults(id) == RolledBack then again(id) else faults(id)
  }

  /** A second pass only makes up for the rolled-back transactions of the first. Without those it changes nothing. */
  lemma RecoveryPassSettles(rows: map<Id, Row>, boundaries: set<Id>, now: Time, faults: Id -> Fault, again: Id -> Fault)
    ensures var r := RecoveryPass(rows, boundaries, now, faults);
            RecoveryPass(r, boundaries, now, again) == RecoveryPass(rows, boundaries, now, Either(faults, again))
            && ((forall id: Id :: faults(id) != RolledBack) ==> RecoveryPass(r, boundaries, now, again) == r)
  {
    var r := RecoveryPass(rows, boundaries, now, faults);
    var two := RecoveryPass(r, boundaries, now, again);
    var one := RecoveryPass(rows, boundaries, now, Either(faults, again));
    RecoveryPassSpares(rows, boundaries, now, faults);
    forall id | id in rows ensures two[id] == one[id] && (faults(id) != RolledBack ==> two[id] == r[id]) {
      assert Swept(r, boundaries, now, again, id) <==>
             Recoverable(r[id], now) && id !in boundaries && again(id) != RolledBack;
    }
    assert two.Keys == one.Keys == r.Keys;
  }

  // ---------------------------------------------------------------- authorization changes

  /** A Vault session that was opened under a token's authorization. */
  datatype Lease = Lease(token: Token, session: nat, active: bool)

  function Revoked(leases: map<nat, Lease>, token: Token): map<nat, Lease> {
    map l | l in leases :: if leases[l].token == token then leases[l].(active := false) else leases[l]
  }

  datatype VaultStatus =
    | VaultPreparing | VaultPending | VaultRunning | VaultCompleted | VaultFailed
    | VaultDeclined | VaultStale | VaultCanceled | VaultExpired

  /** A request for a Vault action. */
  datatype VaultRequest = VaultRequest(token: Token, status: VaultStatus, completedAt: Option<Time>)

  predicate Awaits(v: VaultRequest, token: Token) {
    v.token == token && v.status == VaultPending
  }

  /** Every pending Vault request of the token is stale; all others, running ones too, are as they were. */
  function VaultStaled(vault: map<nat, VaultRequest>, token: Token, now: Time): map<nat, VaultRequest> {
    map v | v in vault ::
      if Awaits(vault[v], token) then vault[v].(status := VaultStale, completedAt := Some(now)) else vault[v]
  }

  predicate Below(x: nat, y: nat) { x < y }

  // ---------------------------------------------------------------- the ledger

  /** The attempts that are made: at most three, fewer when a deadline ends them. */
  function Tries(attempts: seq<Attempt>): seq<Attempt> {
    if |attempts| <= FINISH_ATTEMPTS then attempts else attempts[..FINISH_ATTEMPTS]
  }

  /** A running row that a runtime could not claim for any other reason than its own expired lease. */
  predicate Disputed(r: Row, runtime: nat, now: Time) {
    r.status == Running && !Claimable(r, runtime, now)
    && (r.owner != runtime || r.dispatchedAt.Some? || r.lease.None? || r.lease.value > now)
  }

  datatype Dispatch = Won | Settled(row: Row) | Rejected | Expired | Lost

  class Ledger {
    const runtime: nat
    var rows: map<Id, Row>
    var audit: seq<AuditEvent>
    var nextId: Id
    var leases: map<nat, Lease>
    var vault: map<nat, VaultRequest>

    ghost predicate Valid() reads this {
      forall id | id in rows :: id < nextId
    }

    ghost function Contents(): Store reads this {
      Store(rows, audit)
    }

    constructor (runtime: nat)
      ensures Valid() && this.runtime == runtime && Contents() == Store(map[], []) && nextId == 1 && leases == map[]
              && vault == map[]
    {
      this.runtime := runtime;
      rows, audit, nextId, leases, vault := map[], [], 1, map[], map[];
    }

    /** Deduplicates the named statuses and refuses any that a finish may not start from. */
    static method AllowedStatuses(statuses: seq<Status>) returns (r: Option<set<Status>>)
      ensures r == Effective(statuses)
    {
      if statuses == [] { return Some({Running}); }
      var allowed: set<Status> := {};
      for i := 0 to |statuses|
        invariant allowed == set x | x in statuses[..i]
        invariant forall x | x in statuses[..i] :: x in {Running, ApprovalPending, Blocked}
      {
        if statuses[i] !in {Running, ApprovalPending, Blocked} { assert statuses[i] in statuses; return None; }
        allowed := allowed + {statuses[i]};
        assert statuses[..i + 1] == statuses[..i] + [statuses[i]];
      }
      assert statuses[..|statuses|] == statuses;
      return Some(allowed);
    }

    method PersistFinish(id: Id, e: Ending, a: Attempt) returns (ok: bool)
      requires Valid()
      modifies `rows, `audit
      ensures Valid() && (Contents(), ok) == FinishOnce(old(Contents()), id, e, a)
    {
      var allowed := AllowedStatuses(e.allowed);
      if !Terminal(e.status) || allowed.None? || id !in rows || a.fault == RolledBack { return false; }
      if rows[id].status !in allowed.value { return true; }
      rows := rows[id := Settle(rows[id], e.status, e.cause, a.now)];
      audit := audit + [AuditEvent(id, e.status)];
      return a.fault == Acknowledged;
    }

    /** Retries up to three times; a deadline may end the attempts earlier. */
    method FinishAllowed(id: Id, e: Ending, attempts: seq<Attempt>) returns (ok: bool)
      requires Valid()
      modifies `rows, `audit
      ensures Valid()
      ensures (Contents(), ok) == FinishLoop(old(Contents()), id, e, Tries(attempts))
    {
      ok := false;
      var i := 0;
      ghost var all := Tries(attempts);
      while i < FINISH_ATTEMPTS && i < |attempts|
        invariant i <= |all| && Valid() && !ok
        invariant FinishLoop(old(Contents()), id, e, all) == FinishLoop(Contents(), id, e, all[i..])
      {
        assert all[i..][1..] == all[i + 1..];
        ok := PersistFinish(id, e, attempts[i]);
        if ok { return; }
        i := i + 1;
      }
    }

    /** The rows with a property, by increasing id. */
    method Select(p: Row -> bool) returns (ids: seq<Id>)
      requires Valid()
      ensures Selects(rows, p, nextId, ids)
    {
      ids := [];
      for n := 0 to nextId
        invariant Selects(rows, p, n, ids)
        invariant forall i | 0 <= i < |ids| :: ids[i] < n
      {
        if n in rows && p(rows[n]) { ids := ids + [n]; }
      }
    }

    method PersistExpiredRecovery(id: Id, now: Time, fault: Fault)
      requires Valid()
      modifies `rows, `audit
      ensures Valid()
      ensures if id in old(rows) && Recoverable(old(rows[id]), now) && fault != RolledBack
              then rows == old(rows)[id := Recovered(old(rows[id]), now)]
                && audit == old(audit) + [AuditEvent(id, rows[id].status)]
              else rows == old(rows) && audit == old(audit)
      // Exactly a running row whose lease has expired changes, and the log grows exactly when it does.
      ensures rows != old(rows) <==> audit != old(audit)
      ensures rows != old(rows) <==> id in old(rows) && Recoverable(old(rows[id]), now) && fault != RolledBack
      // It ends: as failed if it was never dispatched, as unknown otherwise, and its claim is kept.
      ensures rows != old(rows) ==>
                id in rows && rows[id].status == (if old(rows[id]).dispatchedAt.None? then Failed else OutcomeUnknown)
                && Terminal(rows[id].status) && !Recoverable(rows[id], now)
                && rows[id].dispatchedAt == old(rows[id]).dispatchedAt && rows[id].completedAt == Some(now)
    {
      if id in rows && Recoverable(rows[id], now) && fault != RolledBack {
        rows := rows[id := Recovered(rows[id], now)];
        audit := audit + [AuditEvent(id, rows[id].status)];
      }
    }

    /** One recovery pass: every swept row once, in order, each with its own event. */
    method Recover(boundaries: set<Id>, now: Time, faults: Id -> Fault) returns (ghost swept: seq<Id>)
      requires Valid()
      modifies `rows, `audit
      ensures Valid() && rows == RecoveryPass(old(rows), boundaries, now, faults)
      ensures Increasing(swept) && (forall id: Id :: id in swept <==> Swept(old(rows), boundaries, now, faults, id))
      ensures (forall id | id in swept :: id in rows) && audit == old(audit) + Reported(rows, swept)
    {
      var ids := Select((r: Row) => Recoverable(r, now));
      swept := [];
      for i := 0 to |ids|
        invariant Valid() && rows.Keys == old(rows).Keys
        invariant forall id | id in rows ::
                  rows[id] == if id in swept then Recovered(old(rows)[id], now) else old(rows)[id]
        invariant Increasing(swept) && (forall j | 0 <= j < |swept| && i < |ids| :: swept[j] < ids[i])
        invariant forall id: Id :: id in swept <==> id in ids[..i] && Swept(old(rows), boundaries, now, faults, id)
        invariant forall id | id in swept :: id in rows
        invariant audit == old(audit) + Reported(rows, swept)
      {
        ghost var was, before := rows, swept;
        assert ids[..i + 1] == ids[..i] + [ids[i]];
        if ids[i] !in boundaries {
          PersistExpiredRecovery(ids[i], now, faults(ids[i]));
          if Swept(old(rows), boundaries, now, faults, ids[i]) {
            swept := swept + [ids[i]];
            ReportedMore(was, rows, before, ids[i]);
          }
        }
      }
      assert ids[..|ids|] == ids;
    }

    /** Invalidates what a token's old authorization admitted and nobody has dispatched. */
    method StalePendingForToken(token: Token, now: Time) returns (ids: seq<Id>)
      requires Valid()
      modifies `rows
      ensures Valid() && rows == StaleForToken(old(rows), token, now)
      ensures Selects(old(rows), (r: Row) => r.token == Some(token) && Undispatched(r), nextId, ids)
    {
      ids := Select((r: Row) => r.token == Some(token) && Undispatched(r));
      for i := 0 to |ids|
        invariant Valid() && rows.Keys == old(rows).Keys
        invariant forall id | id in rows ::
                  rows[id] == if id in ids[..i] then Settle(old(rows)[id], Stale, OtherCause, now) else old(rows)[id]
      {
        assert ids[..i + 1] == ids[..i] + [ids[i]];
        assert ids[i] in ids;
        rows := rows[ids[i] := Settle(rows[ids[i]], Stale, OtherCause, now)];
      }
      assert ids[..|ids|] == ids;
    }

    method StaleVaultForToken(token: Token, now: Time)
      modifies `vault
      ensures vault == VaultStaled(old(vault), token, now)
    {
      var rest := vault.Keys;
      while rest != {}
        invariant rest <= vault.Keys == old(vault).Keys
        invariant forall v | v in vault ::
                  vault[v] == if v in rest then old(vault)[v] else VaultStaled(old(vault), token, now)[v]
        decreases |rest|
      {
        var v :| v in rest;
        rest := rest - {v};
        if Awaits(vault[v], token) { vault := vault[v := vault[v].(status := VaultStale, completedAt := Some(now))]; }
      }
    }

    /** The transaction of an authorization change, after the change itself: the sessions to close, in order and
        each once; no active lease, no pending Vault request and no undispatched request of the token is left.
        A change that changed nothing is rolled back. */
    method InvalidateToken(token: Token, changed: bool, now: Time) returns (sessions: seq<nat>)
      requires Valid()
      modifies `rows, `leases, `vault
      ensures Valid()
      ensures changed ==> rows == StaleForToken(old(rows), token, now) && leases == Revoked(old(leases), token)
      ensures changed ==> vault == VaultStaled(old(vault), token, now)
      ensures changed ==> Canonical.Ordered(sessions, Below)
      ensures changed ==> forall x ::
                x in sessions <==> exists l :: l in old(leases) && old(leases)[l] == Lease(token, x, true)
      ensures !changed ==> rows == old(rows) && leases == old(leases) && vault == old(vault) && sessions == []
    {
      sessions := [];
      if !changed { return; }
      var rest := leases.Keys;
      while rest != {}
        invariant rest <= leases.Keys && Canonical.Ordered(sessions, Below)
        invariant forall x ::
                    x in sessions <==> exists l :: l in leases && l !in rest && leases[l] == Lease(token, x, true)
        decreases |rest|
      {
        var l :| l in rest;
        rest := rest - {l};
        if leases[l].token == token && leases[l].active {
          assert leases[l] == Lease(token, leases[l].session, true);
          sessions := Canonical.Insert(sessions, leases[l].session, Below);
        }
      }
      leases := Revoked(leases, token);
      StaleVaultForToken(token, now);
      var _ := StalePendingForToken(token, now);
    }

    /** Shutdown: every running row, once, each with its own event. */
    method MarkRunningOutcomeUnknown(now: Time) returns (ghost ids: seq<Id>)
      requires Valid()
      modifies `rows, `audit
      ensures Valid() && rows == UnknownIfRunning(old(rows), now)
      ensures Selects(old(rows), (r: Row) => r.status == Running, nextId, ids)
      ensures audit == old(audit) + Reported(rows, ids)
    {
      var running := Select((r: Row) => r.status == Running);
      ids := running;
      for i := 0 to |running|
        invariant Valid() && rows.Keys == old(rows).Keys
        invariant forall id | id in rows ::
                    rows[id] == if id in running[..i] then Settle(old(rows)[id], OutcomeUnknown, OtherCause, now)
                      else old(rows)[id]
        invariant audit == old(audit) + Reported(rows, running[..i])
      {
        ghost var was := rows;
        assert running[..i + 1] == running[..i] + [running[i]];
        assert running[i] in running;
        rows := rows[running[i] := Settle(rows[running[i]], OutcomeUnknown, OtherCause, now)];
        ReportedMore(was, rows, running[..i], running[i]);
        audit := audit + [AuditEvent(running[i], OutcomeUnknown)];
      }
      assert running[..|running|] == running;
    }

    /** Claims a request for its one connector call, or explains why it may not be called. */
    method BeginDispatch(id: Id, now: Time, fault: Fault, attempts: seq<Attempt>) returns (d: Dispatch)
      requires Valid()
      modifies `rows, `audit
      ensures Valid()
      ensures d == Won <==> fault == Acknowledged && id in old(rows) && Claimable(old(rows[id]), runtime, now)
      ensures d == Rejected <==> fault != RolledBack && id in old(rows) && Disputed(old(rows[id]), runtime, now)
      ensures Contents() ==
              if fault == RolledBack || id !in old(rows) then old(Contents())
              else if Claimable(old(rows[id]), runtime, now)
                then Store(old(rows)[id := Claimed(old(rows[id]), now)], old(audit))
              else if old(rows[id]).status != Running || Disputed(old(rows[id]), runtime, now) then old(Contents())
              else FinishLoop(old(Contents()), id, Ending(Failed, LeaseExpiredBeforeDispatch, []), Tries(attempts)).0
      ensures d == Expired ==>
              id in old(rows) && id in rows && old(rows[id].dispatchedAt).None? && LeaseExpired(old(rows[id]), now)
                  && rows[id].status == Failed && rows[id].cause == LeaseExpiredBeforeDispatch
                  && rows[id].dispatchedAt.None?
      ensures d.Settled? ==> id in rows && d.row == rows[id] && d.row.status != Running
      ensures d == Lost ==> fault != Acknowledged || id !in rows || rows[id].status == Running
    {
      if fault == RolledBack || id !in rows { return Lost; }
      if Claimable(rows[id], runtime, now) {
        rows := rows[id := Claimed(rows[id], now)];
        return if fault == Acknowledged then Won else Lost;
      }
      var row := rows[id];
      if row.status != Running { return Settled(row); }
      if Disputed(row, runtime, now) { return Rejected; }
      ghost var was := Contents();
      var e := Ending(Failed, LeaseExpiredBeforeDispatch, []);
      var ok := FinishAllowed(id, e, attempts);
      FinishShape(was, id, e, Tries(attempts));
      if ok { return Expired; }
      if rows[id].status != Running { return Settled(rows[id]); }
      return Lost;
    }
  }

  /** A finish leaves the row alone or settles it; it never touches the claim. */
  lemma {:induction false} FinishShape(d: Store, id: Id, e: Ending, attempts: seq<Attempt>)
    requires id in d.rows && e.status != Running && e.allowed == []
    ensures var (r, ok) := FinishLoop(d, id, e, attempts);
            r.rows.Keys == d.rows.Keys && r.rows[id].dispatchedAt == d.rows[id].dispatchedAt
            && (ok && d.rows[id].status == Running ==> r.rows[id].status == e.status && r.rows[id].cause == e.cause)
    decreases |attempts|
  {
    if attempts != [] {
      var (d', ok) := FinishOnce(d, id, e, attempts[0]);
      if !ok {
        if d' != d { ClosedUnchanged(d', id, e, attempts[1..]); } else { FinishShape(d', id, e, attempts[1..]); }
      }
    }
  }
}
