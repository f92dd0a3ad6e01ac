/** What every action of the protocol keeps. The invariant is a conjunction of facts about the parts of
    the state they name. `Live`, `Stored`, `Made` and `Gone` are membership tests used as the only
    triggers of the invariant's quantifiers, so that a proof instantiates exactly what it mentions. */
module LifecycleInvariant {
  import opened Wrappers
  import opened ActionStore
  import opened Lifecycle

  ghost predicate Live(threads: map<nat, Thread>, tid: nat) { tid in threads }
  ghost predicate Stored(rows: map<Id, Row>, id: Id) { id in rows }
  ghost predicate Made(born: map<Id, Birth>, id: Id) { id in born }
  ghost predicate Taken(claims: map<Id, Claim>, id: Id) { id in claims }
  ghost predicate Gone(purged: map<Id, Time>, id: Id) { id in purged }
  ghost predicate Buried(tombstones: map<ScopedKey, Tombstone>, k: ScopedKey) { k in tombstones }
  ghost predicate Carried(index: map<ScopedKey, Id>, k: ScopedKey) { k in index }
  ghost predicate Nth<T>(items: seq<T>, k: int) { 0 <= k < |items| }
  ghost predicate Kept(boundaries: set<Id>, id: Id) { id in boundaries }

  // ---------------------------------------------------------------- threads and the gate

  /** The request that this thread may still claim or execute, or reports that it never will. */
  function Lineage(t: Thread): Option<Id> {
    match t
    case Executing(id) => Some(id)
    case Revalidating(id) => Some(id)
    case Snapshotting(id, _) => Some(id)
    case ReadingClock(id, _) => Some(id)
    case Claiming(id, _, _) => Some(id)
    case Refused(id, _) => Some(id)
    case Dispatched(id, _) => Some(id)
    case Finishing(id, _, cause, _, _) => if cause == LeaseExpiredBeforeDispatch then Some(id) else None
    case _ => None
  }

  predicate NeedsGate(t: Thread) {
    match t
    case Replaying(c) => Gated(c)
    case Admitting(c) => Gated(c)
    case Inserting(c, _, _, _) => Gated(c)
    case Revalidating(_) => true
    case Snapshotting(_, _) => true
    case ReadingClock(_, _) => true
    case Claiming(_, _, _) => true
    case _ => false
  }

  ghost predicate GateOk(tid: nat, t: Thread, readers: set<nat>, writer: Option<nat>) {
    (NeedsGate(t) ==> tid in readers) && (t.MutationHeld? ==> writer == Some(tid))
  }

  /** Shared and exclusive holders of the delivery gate exclude each other. */
  ghost predicate Gate(threads: map<nat, Thread>, readers: set<nat>, writer: Option<nat>) {
    (writer.Some? ==> readers == {})
    && forall tid: nat {:trigger Live(threads, tid)} ::
       Live(threads, tid) ==> GateOk(tid, threads[tid], readers, writer)
  }

  /** At most one thread can claim or execute a request. */
  ghost predicate Unique(threads: map<nat, Thread>) {
    forall x: nat, y: nat {:trigger Live(threads, x), Live(threads, y)} ::
      Live(threads, x) && Live(threads, y) && x != y && Lineage(threads[x]).Some? ==>
        Lineage(threads[x]) != Lineage(threads[y])
  }

  // ---------------------------------------------------------------- validations, claims, executions

  /** A validation of a token-owned request matches the context stored when the request was created. */
  ghost predicate ValidFor(b: Birth, v: Validation) {
    b.call.token.Some? ==>
      v.auth.Some? && v.context == b.context && Authorizes(v.auth.value, b, v.at, v.payload, v.material)
  }

  /** The validation is against the authorization that is still in force. */
  ghost predicate Fresh(b: Birth, v: Validation, clock: Time, auth: map<Token, Auth>) {
    ValidFor(b, v) && v.at <= clock
    && (b.call.token.Some? ==> b.call.token.value in auth && v.auth == Some(auth[b.call.token.value]))
  }

  ghost predicate Unclaimed(id: Id, born: map<Id, Birth>, claims: map<Id, Claim>) {
    id in born && id !in claims && born[id].status in {Running, ApprovalPending}
  }

  ghost predicate Executed(id: Id, executions: seq<Execution>) {
    exists k {:trigger Nth(executions, k)} :: Nth(executions, k) && executions[k].id == id
  }

  /** The context was drawn up from this authorization: the token's expiry and revocation, and the approval rule
      and its expiry. */
  ghost predicate Drawn(context: Context, c: Call, a: Auth) {
    Some(context.token) == c.token && context.tokenExpires == a.expiresAt && context.revoked == a.revoked
    && c.ref in a.perms && a.perms[c.ref].rule == ApprovalRequired && context.rule == Some(ApprovalRequired)
    && context.permExpires == a.perms[c.ref].expiresAt
  }

  /** A replay names an equal call with the same key, a conflict a different one. */
  ghost predicate Truthful(c: Call, answer: Answer, born: map<Id, Birth>) {
    match answer
    case Unrecorded => true
    case Replayed(id) => id in born && KeyOf(born[id].call) == KeyOf(c) && Identity(born[id].call) == Identity(c)
    case Conflicting(id) => id in born && KeyOf(born[id].call) == KeyOf(c) && Identity(born[id].call) != Identity(c)
  }

  /** What a thread knows: its local view agrees with the history, and with the present where the gate
      protects it. */
  ghost predicate Knows(t: Thread, clock: Time, auth: map<Token, Auth>, born: map<Id, Birth>, claims: map<Id, Claim>,
                        executions: seq<Execution>)
  {
    match t
    case Inserting(c, status, context, epoch) =>
      Gated(c) ==>
        c.token.value in auth && epoch == auth[c.token.value].epoch
        && (status == ApprovalPending ==> context.Some? && Drawn(context.value, c, auth[c.token.value]))
    case Answered(c, answer) => Truthful(c, answer, born)
    case Executing(id) => Unclaimed(id, born, claims)
    case Revalidating(id) => Unclaimed(id, born, claims)
    case Snapshotting(id, v) => Unclaimed(id, born, claims) && Fresh(born[id], v, clock, auth)
    case ReadingClock(id, v) => Unclaimed(id, born, claims) && Fresh(born[id], v, clock, auth)
    case Claiming(id, v, now) => Unclaimed(id, born, claims) && Fresh(born[id], v, clock, auth) && now <= clock
    case Refused(id, _) => Unclaimed(id, born, claims)
    case Dispatched(id, v) => id in claims && claims[id].valid == v && !Executed(id, executions)
    case Finishing(id, status, cause, _, _) =>
      Terminal(status) && status !in {Stale, Declined, Blocked}
      && (cause == LeaseExpiredBeforeDispatch ==> Unclaimed(id, born, claims))
    case _ => true
  }

  ghost predicate Threads(threads: map<nat, Thread>, clock: Time, auth: map<Token, Auth>, born: map<Id, Birth>,
                          claims: map<Id, Claim>, executions: seq<Execution>)
  {
    forall tid: nat {:trigger Live(threads, tid)} ::
      Live(threads, tid) ==> Knows(threads[tid], clock, auth, born, claims, executions)
  }

  /** A won claim was validated against the authorization in force when it was won. */
  ghost predicate ClaimOk(b: Birth, c: Claim) {
    ValidFor(b, c.valid) && c.valid.at <= c.at && (b.call.token.Some? ==> c.auth == c.valid.auth)
  }

  ghost predicate Claims(born: map<Id, Birth>, claims: map<Id, Claim>, executions: seq<Execution>) {
    (forall id: Id {:trigger Taken(claims, id)} :: Taken(claims, id) ==> id in born && ClaimOk(born[id], claims[id]))
    && (forall k {:trigger Nth(executions, k)} :: Nth(executions, k) ==>
          executions[k].id in claims && executions[k].valid == claims[executions[k].id].valid)
    && (forall j, k {:trigger Nth(executions, j), Nth(executions, k)} ::
          Nth(executions, j) && Nth(executions, k) && j < k ==> executions[j].id != executions[k].id)
  }

  // ---------------------------------------------------------------- rows

  ghost predicate RowOk(r: Row, b: Birth, claimed: bool) {
    r.token == b.call.token && r.mcp == Gated(b.call) && r.context == b.context && r.key == KeyOf(b.call)
    && (r.dispatchedAt.Some? <==> claimed)
    && (r.completedAt.Some? ==> Terminal(r.status))
    && (r.cause == LeaseExpiredBeforeDispatch ==> Terminal(r.status) && !claimed)
    && (r.status in {Declined, Blocked} ==> !claimed)
    && (!Terminal(r.status) ==> b.status in {Running, ApprovalPending})
    && (r.status == ApprovalPending ==> b.status == ApprovalPending && !claimed)
  }

  ghost predicate Table(rows: map<Id, Row>, born: map<Id, Birth>, claims: map<Id, Claim>, nextId: Id) {
    (forall id: Id {:trigger Made(born, id)} :: Made(born, id) ==> id < nextId)
    && (forall id: Id {:trigger Stored(rows, id)} ::
         Stored(rows, id) ==> id in born && RowOk(rows[id], born[id], id in claims))
  }

  /** A pending request has no executor. */
  ghost predicate Parked(rows: map<Id, Row>, threads: map<nat, Thread>) {
    forall id: Id, tid: nat {:trigger Stored(rows, id), Live(threads, tid)} ::
      Stored(rows, id) && Live(threads, tid) && rows[id].status == ApprovalPending ==> Lineage(threads[tid]) != Some(id)
  }

  /** A pending MCP request was created under its token's current authorization. */
  ghost predicate CurrentRow(r: Row, b: Birth, auth: map<Token, Auth>) {
    r.status == ApprovalPending && r.mcp && r.token.Some? ==>
      r.token.value in auth && b.epoch == auth[r.token.value].epoch
      && r.context.Some? && Drawn(r.context.value, b.call, auth[r.token.value])
  }

  ghost predicate Current(rows: map<Id, Row>, born: map<Id, Birth>, auth: map<Token, Auth>) {
    forall id: Id {:trigger Stored(rows, id)} :: Stored(rows, id) && id in born ==> CurrentRow(rows[id], born[id], auth)
  }

  // ---------------------------------------------------------------- idempotency keys

  ghost predicate Indexed(rows: map<Id, Row>, index: map<ScopedKey, Id>) {
    (forall k {:trigger Carried(index, k)} :: Carried(index, k) ==> index[k] in rows && rows[index[k]].key == Some(k))
    && (forall id: Id {:trigger Stored(rows, id)} :: Stored(rows, id) && rows[id].key.Some? ==>
          rows[id].key.value in index && index[rows[id].key.value] == id)
  }

  /** Until its tombstone runs out, a purged request keeps its key. */
  ghost predicate Remembered(k: Option<ScopedKey>, purgedAt: Time, clock: Time, tombstones: map<ScopedKey, Tombstone>) {
    purgedAt <= clock
    && (k.Some? && clock < purgedAt + WINDOW ==>
         k.value in tombstones && tombstones[k.value].expires >= purgedAt + WINDOW)
  }

  ghost predicate Purges(clock: Time, ids: set<Id>, born: map<Id, Birth>, purged: map<Id, Time>,
                         tombstones: map<ScopedKey, Tombstone>)
  {
    (forall id: Id {:trigger Made(born, id)} ::
        Made(born, id) ==> (id in ids <==> id !in purged) && born[id].at <= clock)
    && (forall id: Id {:trigger Gone(purged, id)} :: Gone(purged, id) ==>
          id in born && Remembered(KeyOf(born[id].call), purged[id], clock, tombstones))
  }

  /** A tombstone is kept for a purged request that carried its key, with its identity, and no longer than the
      window. */
  ghost predicate Marks(k: ScopedKey, v: Tombstone, born: map<Id, Birth>, purged: map<Id, Time>) {
    Gone(purged, v.id) && v.id in born && KeyOf(born[v.id].call) == Some(k) && v.identity == Identity(born[v.id].call)
    && v.expires <= purged[v.id] + WINDOW
  }

  ghost predicate Tombs(tombstones: map<ScopedKey, Tombstone>, born: map<Id, Birth>, purged: map<Id, Time>) {
    forall k {:trigger Buried(tombstones, k)} :: Buried(tombstones, k) ==> Marks(k, tombstones[k], born, purged)
  }

  /** Two requests share a key only when the first was purged and forgotten before the second was made. */
  ghost predicate Spaced(born: map<Id, Birth>, purged: map<Id, Time>) {
    forall i: Id, j: Id {:trigger Made(born, i), Made(born, j)} ::
      Made(born, i) && Made(born, j) && i < j && KeyOf(born[i].call).Some?
        && KeyOf(born[i].call) == KeyOf(born[j].call) ==>
        i in purged && born[j].at >= purged[i] + WINDOW
  }

  // ---------------------------------------------------------------- audit and boundaries

  /** Events whose transaction is conditional on the row change; `Stale` and `Blocked` are not. */
  predicate Reports(e: AuditEvent) {
    Terminal(e.status) && e.status != Stale && e.status != Blocked
  }

  ghost predicate AuditOnce(audit: seq<AuditEvent>, rows: map<Id, Row>, born: map<Id, Birth>) {
    (forall i, j {:trigger Nth(audit, i), Nth(audit, j)} ::
       Nth(audit, i) && Nth(audit, j) && i < j && Reports(audit[i]) && Reports(audit[j]) ==> audit[i].id != audit[j].id)
    && (forall i {:trigger Nth(audit, i)} :: Nth(audit, i) && Reports(audit[i]) ==>
          audit[i].id in born && (audit[i].id in rows ==> Terminal(rows[audit[i].id].status)))
  }

  ghost predicate Owned(s: State, id: Id) {
    exists tid: nat {:trigger Live(s.mem.threads, tid)} ::
      Live(s.mem.threads, tid) && Responsible(s, s.mem.threads[tid]) == Some(id)
  }

  /** Every tracked boundary belongs to a live thread that will remove it. */
  ghost predicate Bounded(s: State) {
    forall id: Id {:trigger Kept(s.mem.boundaries, id)} :: Kept(s.mem.boundaries, id) ==> Owned(s, id)
  }

  ghost predicate Inv(s: State) {
    Gate(s.mem.threads, s.mem.readers, s.mem.writer)
    && Unique(s.mem.threads)
    && Threads(s.mem.threads, s.clock, s.db.auth, s.past.born, s.past.claims, s.past.executions)
    && Claims(s.past.born, s.past.claims, s.past.executions)
    && Table(s.db.rows, s.past.born, s.past.claims, s.db.nextId)
    && Parked(s.db.rows, s.mem.threads)
    && Current(s.db.rows, s.past.born, s.db.auth)
    && Indexed(s.db.rows, s.db.index)
    && Purges(s.clock, s.db.rows.Keys, s.past.born, s.past.purged, s.db.tombstones)
    && Tombs(s.db.tombstones, s.past.born, s.past.purged)
    && Spaced(s.past.born, s.past.purged)
    && AuditOnce(s.db.audit, s.db.rows, s.past.born)
    && Bounded(s)
  }

  // ---------------------------------------------------------------- one thread advances

  /** `s'` differs from `s` in what thread `tid` does, holds and tracks, and in nothing else. */
  ghost predicate Advances(s: State, s': State, tid: nat) {
    s' == s.(mem := s.mem.(threads := s'.mem.threads, readers := s'.mem.readers, writer := s'.mem.writer,
        boundaries := s'.mem.boundaries))
    && s'.mem.threads - {tid} == s.mem.threads - {tid}
    && s'.mem.readers - {tid} == s.mem.readers - {tid}
    && (s'.mem.writer.Some? ==> s'.mem.readers == {})
    && (s'.mem.writer == s.mem.writer || {s'.mem.writer, s.mem.writer} == {None, Some(tid)})
  }

  /** No thread is the executor of `id`, and it does not wait for approval. */
  ghost predicate Free(id: Id, threads: map<nat, Thread>, rows: map<Id, Row>) {
    (forall x: nat {:trigger Live(threads, x)} :: Live(threads, x) ==> Lineage(threads[x]) != Some(id))
    && (id in rows ==> rows[id].status != ApprovalPending)
  }

  /** What the thread's new program point has to satisfy. */
  ghost predicate Succeeds(s: State, s': State, tid: nat) {
    (tid in s'.mem.threads ==>
       Knows(s'.mem.threads[tid], s.clock, s.db.auth, s.past.born, s.past.claims, s.past.executions)
       && GateOk(tid, s'.mem.threads[tid], s'.mem.readers, s'.mem.writer)
       && (Lineage(s'.mem.threads[tid]).Some? ==>
             (tid in s.mem.threads && Lineage(s.mem.threads[tid]) == Lineage(s'.mem.threads[tid]))
             || Free(Lineage(s'.mem.threads[tid]).value, s.mem.threads, s.db.rows)))
    && forall id: Id {:trigger Kept(s'.mem.boundaries, id)} :: Kept(s'.mem.boundaries, id) ==>
         (tid in s'.mem.threads && Responsible(s', s'.mem.threads[tid]) == Some(id))
         || (id in s.mem.boundaries && !(tid in s.mem.threads && Responsible(s, s.mem.threads[tid]) == Some(id)))
  }

  lemma Other(threads: map<nat, Thread>, threads': map<nat, Thread>, tid: nat, x: nat)
    requires threads' - {tid} == threads - {tid} && x != tid
    ensures Live(threads, x) <==> Live(threads', x)
    ensures Live(threads, x) ==> threads[x] == threads'[x]
  {
    assert x in threads - {tid} <==> x in threads' - {tid};
    if x in threads { assert (threads - {tid})[x] == (threads' - {tid})[x]; }
  }

  lemma AdvanceGate(s: State, s': State, tid: nat)
    requires Gate(s.mem.threads, s.mem.readers, s.mem.writer) && Advances(s, s', tid) && Succeeds(s, s', tid)
    ensures Gate(s'.mem.threads, s'.mem.readers, s'.mem.writer)
  {
    forall x: nat | Live(s'.mem.threads, x) ensures GateOk(x, s'.mem.threads[x], s'.mem.readers, s'.mem.writer) {
      if x != tid {
        Other(s.mem.threads, s'.mem.threads, tid, x);
        assert x in s'.mem.readers - {tid} <==> x in s.mem.readers - {tid};
        assert GateOk(x, s.mem.threads[x], s.mem.readers, s.mem.writer);
        assert None in {s'.mem.writer, s.mem.writer} || s'.mem.writer == s.mem.writer;
      }
    }
  }

  lemma AdvanceThreads(s: State, s': State, tid: nat)
    requires Unique(s.mem.threads)
             && Threads(s.mem.threads, s.clock, s.db.auth, s.past.born, s.past.claims, s.past.executions)
             && Parked(s.db.rows, s.mem.threads)
    requires Advances(s, s', tid) && Succeeds(s, s', tid)
    ensures Unique(s'.mem.threads)
            && Threads(s'.mem.threads, s.clock, s.db.auth, s.past.born, s.past.claims, s.past.executions)
            && Parked(s.db.rows, s'.mem.threads)
  {
    forall x: nat | Live(s'.mem.threads, x)
      ensures Knows(s'.mem.threads[x], s.clock, s.db.auth, s.past.born, s.past.claims, s.past.executions)
    {
      if x != tid { Other(s.mem.threads, s'.mem.threads, tid, x); }
    }
    forall x: nat, y: nat | Live(s'.mem.threads, x) && Live(s'.mem.threads, y) && x != y
      && Lineage(s'.mem.threads[x]).Some?
      ensures Lineage(s'.mem.threads[x]) != Lineage(s'.mem.threads[y])
    {
      if x != tid { Other(s.mem.threads, s'.mem.threads, tid, x); }
      if y != tid { Other(s.mem.threads, s'.mem.threads, tid, y); }
      assert x != tid || y != tid;
      assert x in s.mem.threads ==> Live(s.mem.threads, x);
      assert y in s.mem.threads ==> Live(s.mem.threads, y);
    }
    forall id: Id, x: nat | Stored(s.db.rows, id) && Live(s'.mem.threads, x) && s.db.rows[id].status == ApprovalPending
      ensures Lineage(s'.mem.threads[x]) != Some(id)
    {
      if x != tid { Other(s.mem.threads, s'.mem.threads, tid, x); }
      assert x in s.mem.threads ==> Live(s.mem.threads, x);
    }
  }

  lemma AdvanceKeeps(s: State, s': State, tid: nat)
    requires Inv(s) && Advances(s, s', tid) && Succeeds(s, s', tid)
    ensures Inv(s')
  {
    AdvanceGate(s, s', tid);
    AdvanceThreads(s, s', tid);
    forall id: Id | Kept(s'.mem.boundaries, id) ensures Owned(s', id) {
      if tid in s'.mem.threads && Responsible(s', s'.mem.threads[tid]) == Some(id) {
        assert Live(s'.mem.threads, tid);
      } else {
        assert Kept(s.mem.boundaries, id);
        var x :| Live(s.mem.threads, x) && Responsible(s, s.mem.threads[x]) == Some(id);
        Other(s.mem.threads, s'.mem.threads, tid, x);
      }
    }
  }

  // ---------------------------------------------------------------- rows are finished

  ghost predicate Settled(r: Row, r': Row, claimed: bool) {
    r' == r
    || (r' == r.(status := r'.status, cause := r'.cause, completedAt := r'.completedAt)
        && Terminal(r'.status)
        && (r'.cause == LeaseExpiredBeforeDispatch || r'.status in {Declined, Blocked} ==> !claimed))
  }

  ghost predicate AllSettled(rows: map<Id, Row>, rows': map<Id, Row>, claims: map<Id, Claim>) {
    rows'.Keys == rows.Keys
    && forall id: Id {:trigger Stored(rows', id)} :: Stored(rows', id) ==> Settled(rows[id], rows'[id], id in claims)
  }

  /** Rows change or disappear, none becomes pending, and a finished one stays finished. */
  ghost predicate Reshaped(rows: map<Id, Row>, rows': map<Id, Row>, born: map<Id, Birth>, claims: map<Id, Claim>) {
    rows'.Keys <= rows.Keys
    && forall id: Id {:trigger Stored(rows', id)} :: Stored(rows', id) ==>
         id in born && RowOk(rows'[id], born[id], id in claims)
         && (rows'[id].status == ApprovalPending ==> rows'[id] == rows[id])
         && (Terminal(rows[id].status) ==> Terminal(rows'[id].status))
  }

  lemma ReshapeKeeps(s: State, rows: map<Id, Row>, claims: map<Id, Claim>)
    requires Table(s.db.rows, s.past.born, s.past.claims, s.db.nextId) && Current(s.db.rows, s.past.born, s.db.auth)
             && Parked(s.db.rows, s.mem.threads)
    requires AuditOnce(s.db.audit, s.db.rows, s.past.born) && Reshaped(s.db.rows, rows, s.past.born, claims)
    ensures Table(rows, s.past.born, claims, s.db.nextId) && Current(rows, s.past.born, s.db.auth)
            && Parked(rows, s.mem.threads)
    ensures AuditOnce(s.db.audit, rows, s.past.born)
  {
    forall id: Id | Stored(rows, id) && id in s.past.born ensures CurrentRow(rows[id], s.past.born[id], s.db.auth) {
      assert Stored(s.db.rows, id);
    }
    forall id: Id, x: nat | Stored(rows, id) && Live(s.mem.threads, x) && rows[id].status == ApprovalPending
      ensures Lineage(s.mem.threads[x]) != Some(id)
    {
      assert Stored(s.db.rows, id);
    }
    forall i | Nth(s.db.audit, i) && Reports(s.db.audit[i])
      ensures s.db.audit[i].id in s.past.born && (s.db.audit[i].id in rows ==> Terminal(rows[s.db.audit[i].id].status))
    {
      assert s.db.audit[i].id in rows ==> Stored(rows, s.db.audit[i].id);
    }
  }

  lemma SameKeysIndexed(rows: map<Id, Row>, rows': map<Id, Row>, index: map<ScopedKey, Id>)
    requires Indexed(rows, index) && rows'.Keys == rows.Keys
    requires forall id: Id {:trigger Stored(rows', id)} :: Stored(rows', id) ==> rows'[id].key == rows[id].key
    ensures Indexed(rows', index)
  {
    forall id: Id | Stored(rows', id) && rows'[id].key.Some?
      ensures rows'[id].key.value in index && index[rows'[id].key.value] == id
    {
      assert Stored(rows, id);
    }
    forall k | Carried(index, k) ensures index[k] in rows' && rows'[index[k]].key == Some(k) {
      assert Stored(rows', index[k]);
    }
  }

  lemma SettleReshapes(s: State, rows: map<Id, Row>)
    requires Table(s.db.rows, s.past.born, s.past.claims, s.db.nextId) && AllSettled(s.db.rows, rows, s.past.claims)
    ensures Reshaped(s.db.rows, rows, s.past.born, s.past.claims)
  {
    forall id: Id | Stored(rows, id)
      ensures id in s.past.born && RowOk(rows[id], s.past.born[id], id in s.past.claims)
      ensures rows[id].status == ApprovalPending ==> rows[id] == s.db.rows[id]
      ensures Terminal(s.db.rows[id].status) ==> Terminal(rows[id].status)
    {
      assert Stored(s.db.rows, id);
      assert RowOk(s.db.rows[id], s.past.born[id], id in s.past.claims);
    }
  }

  lemma SettleKeeps(s: State, rows: map<Id, Row>, audit: seq<AuditEvent>)
    requires Inv(s) && AllSettled(s.db.rows, rows, s.past.claims) && AuditOnce(audit, rows, s.past.born)
    ensures Inv(s.(db := s.db.(rows := rows, audit := audit)))
  {
    var s' := s.(db := s.db.(rows := rows, audit := audit));
    SettleReshapes(s, rows);
    ReshapeKeeps(s, rows, s.past.claims);
    SameKeysIndexed(s.db.rows, rows, s.db.index);
    SameOwners(s, s');
  }

  /** Boundaries stay owned when every responsible thread stays responsible. */
  lemma SameOwners(s: State, s': State)
    requires Bounded(s) && s'.mem.boundaries == s.mem.boundaries && s'.mem.threads == s.mem.threads
    requires forall x: nat {:trigger Live(s.mem.threads, x)} ::
             Live(s.mem.threads, x) ==> Responsible(s', s.mem.threads[x]) == Responsible(s, s.mem.threads[x])
    ensures Bounded(s')
  {
    forall id: Id | Kept(s'.mem.boundaries, id) ensures Owned(s', id) {
      assert Kept(s.mem.boundaries, id);
      var x: nat :| Live(s.mem.threads, x) && Responsible(s, s.mem.threads[x]) == Some(id);
      assert Live(s'.mem.threads, x);
    }
  }

  /** Finishing rows without an event keeps the log truthful. */
  lemma QuietLog(audit: seq<AuditEvent>, rows: map<Id, Row>, rows': map<Id, Row>, born: map<Id, Birth>,
      claims: map<Id, Claim>)
    requires AuditOnce(audit, rows, born) && AllSettled(rows, rows', claims)
    ensures AuditOnce(audit, rows', born)
  {
    forall i | Nth(audit, i) && Reports(audit[i])
      ensures audit[i].id in born && (audit[i].id in rows' ==> Terminal(rows'[audit[i].id].status))
    {
      if audit[i].id in rows' { assert Stored(rows', audit[i].id); }
    }
  }

  /** One more event: a report must come with the finish of an open row. */
  lemma LogKeeps(audit: seq<AuditEvent>, e: AuditEvent, rows: map<Id, Row>, rows': map<Id, Row>, born: map<Id, Birth>,
      claims: map<Id, Claim>)
    requires AuditOnce(audit, rows, born) && AllSettled(rows, rows', claims)
    requires Reports(e) ==> e.id in born && e.id in rows && !Terminal(rows[e.id].status) && Terminal(rows'[e.id].status)
    ensures AuditOnce(audit + [e], rows', born)
  {
    var audit' := audit + [e];
    QuietLog(audit, rows, rows', born, claims);
    forall i | Nth(audit', i) && Reports(audit'[i])
      ensures audit'[i].id in born && (audit'[i].id in rows' ==> Terminal(rows'[audit'[i].id].status))
    {
      if i < |audit| { assert Nth(audit, i); }
    }
    forall i, j | Nth(audit', i) && Nth(audit', j) && i < j && Reports(audit'[i]) && Reports(audit'[j])
      ensures audit'[i].id != audit'[j].id
    {
      assert Nth(audit, i);
      if j < |audit| { assert Nth(audit, j); }
    }
  }

  lemma SettleOneKeeps(s: State, id: Id, r: Row)
    requires Inv(s) && id in s.db.rows
    requires Settled(s.db.rows[id], r, id in s.past.claims) && Terminal(r.status)
    requires Reports(AuditEvent(id, r.status)) ==> !Terminal(s.db.rows[id].status)
    ensures Inv(Log(SetRow(s, id, r), id, r.status))
  {
    assert Stored(s.db.rows, id);
    var rows := s.db.rows[id := r];
    LogKeeps(s.db.audit, AuditEvent(id, r.status), s.db.rows, rows, s.past.born, s.past.claims);
    SettleKeeps(s, rows, s.db.audit + [AuditEvent(id, r.status)]);
  }

  lemma FinishRowKeeps(s: State, id: Id, allowed: set<Status>, status: Status, cause: Cause)
    requires Inv(s)
    requires Terminal(status) && (cause == LeaseExpiredBeforeDispatch ==> id !in s.past.claims)
    requires allowed == if status == Blocked then {Blocked} else if status == Declined then {ApprovalPending}
             else {Running}
    ensures Inv(FinishRow(s, id, allowed, status, cause))
  {
    if id in s.db.rows && s.db.rows[id].status in allowed {
      assert Stored(s.db.rows, id);
      SettleOneKeeps(s, id, Settle(s.db.rows[id], status, cause, s.clock));
    }
  }

  lemma RecoverRowKeeps(s: State, id: Id, now: Time)
    requires Inv(s)
    ensures Inv(RecoverRow(s, id, now))
  {
    if id in s.db.rows && Recoverable(s.db.rows[id], now) {
      assert Stored(s.db.rows, id);
      SettleOneKeeps(s, id, Recovered(s.db.rows[id], now));
    }
  }

  lemma SettleQuietlyKeeps(s: State, rows: map<Id, Row>)
    requires Inv(s) && AllSettled(s.db.rows, rows, s.past.claims)
    ensures Inv(s.(db := s.db.(rows := rows)))
  {
    QuietLog(s.db.audit, s.db.rows, rows, s.past.born, s.past.claims);
    SettleKeeps(s, rows, s.db.audit);
  }

  /** A batch of reports about distinct open rows, written while those rows are finished. */
  lemma LogBatchKeeps(audit: seq<AuditEvent>, ids: seq<Id>, rows: map<Id, Row>, rows': map<Id, Row>,
      born: map<Id, Birth>, claims: map<Id, Claim>)
    requires AuditOnce(audit, rows, born) && AllSettled(rows, rows', claims)
    requires forall id | id in ids ::
             id in born && id in rows && !Terminal(rows[id].status) && Terminal(rows'[id].status)
    requires forall i, j | 0 <= i < j < |ids| :: ids[i] != ids[j]
    ensures AuditOnce(audit + seq(|ids|, i requires 0 <= i < |ids| => AuditEvent(ids[i], OutcomeUnknown)), rows', born)
  {
    var audit' := audit + seq(|ids|, i requires 0 <= i < |ids| => AuditEvent(ids[i], OutcomeUnknown));
    QuietLog(audit, rows, rows', born, claims);
    forall i | Nth(audit', i) && Reports(audit'[i])
      ensures audit'[i].id in born && (audit'[i].id in rows' ==> Terminal(rows'[audit'[i].id].status))
    {
      if i < |audit| { assert Nth(audit, i); } else { assert audit'[i].id == ids[i - |audit|]; }
    }
    forall i, j | Nth(audit', i) && Nth(audit', j) && i < j && Reports(audit'[i]) && Reports(audit'[j])
      ensures audit'[i].id != audit'[j].id
    {
      if j < |audit| {
        assert Nth(audit, i) && Nth(audit, j);
      } else {
        assert audit'[j].id == ids[j - |audit|];
        if i < |audit| { assert Nth(audit, i); } else { assert audit'[i].id == ids[i - |audit|]; }
      }
    }
  }

  lemma MarkRunningUnknownKeeps(s: State, ids: seq<Id>)
    requires Inv(s)
    ensures Inv(DoMarkRunningUnknown(s, ids))
  {
    if RunningExactly(s, ids) {
      var batch := seq(|ids|, i requires 0 <= i < |ids| => AuditEvent(ids[i], OutcomeUnknown));
      var rows := UnknownIfRunning(s.db.rows, s.clock);
      forall id | id in ids ensures id in s.past.born { assert Stored(s.db.rows, id); }
      LogBatchKeeps(s.db.audit, ids, s.db.rows, rows, s.past.born, s.past.claims);
      SettleKeeps(s, rows, s.db.audit + batch);
    }
  }

  // ---------------------------------------------------------------- a request is created

  lemma LookupFree(s: State, k: ScopedKey)
    requires Indexed(s.db.rows, s.db.index) && Table(s.db.rows, s.past.born, s.past.claims, s.db.nextId)
             && Lookup(s, k).None?
    ensures k !in s.db.index && (k in s.db.tombstones ==> s.db.tombstones[k].expires <= s.clock)
  {
    if k in s.db.index {
      assert Carried(s.db.index, k);
      assert Stored(s.db.rows, s.db.index[k]);
    }
  }

  /** A key that no stored row and no live tombstone carries may be used again. */
  lemma FreeKeySpaced(s: State, b: Birth)
    requires Spaced(s.past.born, s.past.purged) && Indexed(s.db.rows, s.db.index)
             && Purges(s.clock, s.db.rows.Keys, s.past.born, s.past.purged, s.db.tombstones)
    requires Table(s.db.rows, s.past.born, s.past.claims, s.db.nextId) && b.at == s.clock
    requires KeyOf(b.call).Some? ==> Lookup(s, KeyOf(b.call).value).None?
    ensures Spaced(s.past.born[s.db.nextId := b], s.past.purged)
  {
    var k := KeyOf(b.call);
    if k.Some? { LookupFree(s, k.value); }
    var born := s.past.born[s.db.nextId := b];
    forall i: Id, j: Id | Made(born, i) && Made(born, j) && i < j && KeyOf(born[i].call).Some?
      && KeyOf(born[i].call) == KeyOf(born[j].call)
      ensures i in s.past.purged && born[j].at >= s.past.purged[i] + WINDOW
    {
      assert j != s.db.nextId ==> Made(s.past.born, j);
      assert Made(s.past.born, i);
      if j == s.db.nextId {
        if i in s.db.rows { assert Stored(s.db.rows, i); }
        assert Gone(s.past.purged, i);
      }
    }
  }

  lemma CreatedTable(s: State, t: Thread)
    requires Table(s.db.rows, s.past.born, s.past.claims, s.db.nextId)
             && Claims(s.past.born, s.past.claims, s.past.executions) && Current(s.db.rows, s.past.born, s.db.auth)
    requires t.Inserting? && Knows(t, s.clock, s.db.auth, s.past.born, s.past.claims, s.past.executions)
    ensures s.db.nextId !in s.past.born && s.db.nextId !in s.db.rows && s.db.nextId !in s.past.claims
    ensures var s' := Created(s, t);
            Table(s'.db.rows, s'.past.born, s'.past.claims, s'.db.nextId)
              && Claims(s'.past.born, s'.past.claims, s'.past.executions)
              && Current(s'.db.rows, s'.past.born, s'.db.auth)
  {
    var s' := Created(s, t);
    var n := s.db.nextId;
    assert n in s.past.born ==> Made(s.past.born, n);
    assert n in s.db.rows ==> Stored(s.db.rows, n);
    assert n in s.past.claims ==> Taken(s.past.claims, n);
    forall id: Id | Made(s'.past.born, id) ensures id < s'.db.nextId { if id != n { assert Made(s.past.born, id); } }
    forall id: Id | Taken(s'.past.claims, id)
      ensures id in s'.past.born && ClaimOk(s'.past.born[id], s'.past.claims[id]) { assert Taken(s.past.claims, id); }
    forall id: Id | Stored(s'.db.rows, id)
      ensures id in s'.past.born && RowOk(s'.db.rows[id], s'.past.born[id], id in s'.past.claims)
              && CurrentRow(s'.db.rows[id], s'.past.born[id], s'.db.auth)
    {
      if id != n { assert Stored(s.db.rows, id); }
    }
  }

  lemma CreatedKeysAndLog(s: State, t: Thread)
    requires Indexed(s.db.rows, s.db.index)
             && Purges(s.clock, s.db.rows.Keys, s.past.born, s.past.purged, s.db.tombstones)
             && AuditOnce(s.db.audit, s.db.rows, s.past.born)
    requires t.Inserting? && s.db.nextId !in s.past.born && s.db.nextId !in s.db.rows
             && (KeyOf(t.call).Some? ==> KeyOf(t.call).value !in s.db.index)
    ensures var s' := Created(s, t);
            Indexed(s'.db.rows, s'.db.index)
              && Purges(s'.clock, s'.db.rows.Keys, s'.past.born, s'.past.purged, s'.db.tombstones)
              && AuditOnce(s'.db.audit, s'.db.rows, s'.past.born)
  {
    var s' := Created(s, t);
    var n := s.db.nextId;
    forall id: Id | Stored(s'.db.rows, id) && s'.db.rows[id].key.Some?
      ensures s'.db.rows[id].key.value in s'.db.index && s'.db.index[s'.db.rows[id].key.value] == id
    {
      if id != n { assert Stored(s.db.rows, id); }
    }
    forall k | Carried(s'.db.index, k)
      ensures s'.db.index[k] in s'.db.rows && s'.db.rows[s'.db.index[k]].key == Some(k)
    {
      if KeyOf(t.call) != Some(k) { assert Carried(s.db.index, k); }
    }
    forall id: Id | Gone(s'.past.purged, id)
      ensures id in s'.past.born
              && Remembered(KeyOf(s'.past.born[id].call), s'.past.purged[id], s'.clock, s'.db.tombstones)
    {
      assert Gone(s.past.purged, id);
    }
    forall id: Id | Made(s'.past.born, id)
      ensures (id in s'.db.rows.Keys <==> id !in s'.past.purged) && s'.past.born[id].at <= s'.clock
    {
      assert id != n ==> Made(s.past.born, id);
      assert id in s.past.purged ==> Gone(s.past.purged, id);
    }
    forall i | Nth(s'.db.audit, i) && Reports(s'.db.audit[i])
      ensures s'.db.audit[i].id in s'.past.born
              && (s'.db.audit[i].id in s'.db.rows ==> Terminal(s'.db.rows[s'.db.audit[i].id].status))
    {
      assert Nth(s.db.audit, i);
    }
  }

  lemma CreatedTombs(s: State, b: Birth)
    requires Tombs(s.db.tombstones, s.past.born, s.past.purged) && s.db.nextId !in s.past.born
    ensures Tombs(s.db.tombstones, s.past.born[s.db.nextId := b], s.past.purged)
  {
    forall k | Buried(s.db.tombstones, k)
      ensures Marks(k, s.db.tombstones[k], s.past.born[s.db.nextId := b], s.past.purged)
    {
      assert Marks(k, s.db.tombstones[k], s.past.born, s.past.purged);
    }
  }

  lemma CreatedThreads(s: State, b: Birth)
    requires Threads(s.mem.threads, s.clock, s.db.auth, s.past.born, s.past.claims, s.past.executions)
             && Claims(s.past.born, s.past.claims, s.past.executions)
    requires s.db.nextId !in s.past.born && s.db.nextId !in s.past.claims
    ensures Threads(s.mem.threads, s.clock, s.db.auth, s.past.born[s.db.nextId := b], s.past.claims, s.past.executions)
    ensures forall x: nat {:trigger Live(s.mem.threads, x)} :: Live(s.mem.threads, x) ==>
              Lineage(s.mem.threads[x]) != Some(s.db.nextId)
    ensures forall x: nat {:trigger Live(s.mem.threads, x)} ::
            Live(s.mem.threads, x)
              && (s.mem.threads[x].Executing? || s.mem.threads[x].Revalidating? || s.mem.threads[x].Snapshotting?) ==>
              s.mem.threads[x].id != s.db.nextId
  {
    forall x: nat | Live(s.mem.threads, x)
      ensures Knows(s.mem.threads[x], s.clock, s.db.auth, s.past.born[s.db.nextId := b], s.past.claims,
                s.past.executions)
      ensures Lineage(s.mem.threads[x]) != Some(s.db.nextId)
    {
      assert Knows(s.mem.threads[x], s.clock, s.db.auth, s.past.born, s.past.claims, s.past.executions);
    }
  }

  lemma CreatedKeeps(s: State, t: Thread)
    requires Inv(s) && t.Inserting? && Knows(t, s.clock, s.db.auth, s.past.born, s.past.claims, s.past.executions)
    requires KeyOf(t.call).Some? ==> Lookup(s, KeyOf(t.call).value).None?
    ensures Inv(Created(s, t))
    ensures t.status == Running ==> Unclaimed(s.db.nextId, Created(s, t).past.born, s.past.claims)
    ensures forall x: nat {:trigger Live(s.mem.threads, x)} ::
            Live(s.mem.threads, x) ==> Lineage(s.mem.threads[x]) != Some(s.db.nextId)
  {
    var s' := Created(s, t);
    var b := Birth(t.call, t.status, t.context, t.epoch, s.clock);
    CreatedTable(s, t);
    FreeKeySpaced(s, b);
    if KeyOf(t.call).Some? { LookupFree(s, KeyOf(t.call).value); }
    CreatedKeysAndLog(s, t);
    CreatedThreads(s, b);
    CreatedTombs(s, b);
    forall id: Id, x: nat | Stored(s'.db.rows, id) && Live(s.mem.threads, x) && s'.db.rows[id].status == ApprovalPending
      ensures Lineage(s.mem.threads[x]) != Some(id)
    {
      if id != s.db.nextId { assert Stored(s.db.rows, id); }
    }
    SameOwners(s, s');
  }

  // ---------------------------------------------------------------- an approval, a claim, a call

  lemma MarkKeeps(s: State, id: Id)
    requires Inv(s) && id in s.db.rows && Markable(s.db.rows[id])
    ensures Approved(s, id) && Unclaimed(id, s.past.born, s.past.claims)
    ensures Inv(SetRow(s, id, MarkedRunning(s.db.rows[id], s.mem.runtime, s.clock)))
    ensures Free(id, s.mem.threads, SetRow(s, id, MarkedRunning(s.db.rows[id], s.mem.runtime, s.clock)).db.rows)
  {
    assert Stored(s.db.rows, id);
    var r := MarkedRunning(s.db.rows[id], s.mem.runtime, s.clock);
    ReplaceRow(s, id, r);
  }

  /** Replacing one open row by another open row. */
  lemma ReplaceRow(s: State, id: Id, r: Row)
    requires Inv(s) && id in s.db.rows && id in s.past.born && RowOk(r, s.past.born[id], id in s.past.claims)
    requires r.key == s.db.rows[id].key && r.status != ApprovalPending && !Terminal(s.db.rows[id].status)
    ensures Inv(SetRow(s, id, r))
  {
    var s' := SetRow(s, id, r);
    assert s'.db.rows.Keys == s.db.rows.Keys;
    forall i: Id | Stored(s'.db.rows, i) && i != id
      ensures i in s.past.born && RowOk(s.db.rows[i], s.past.born[i], i in s.past.claims)
    {
      assert Stored(s.db.rows, i);
    }
    ReshapeKeeps(s, s'.db.rows, s.past.claims);
    SameKeysIndexed(s.db.rows, s'.db.rows, s.db.index);
    SameOwners(s, s');
  }

  /** The claim, with the claiming thread already out of the way. */
  lemma WonKeeps(s: State, id: Id, valid: Validation, now: Time)
    requires Inv(s) && id in s.db.rows && Claimable(s.db.rows[id], s.mem.runtime, now)
    requires Unclaimed(id, s.past.born, s.past.claims) && Fresh(s.past.born[id], valid, s.clock, s.db.auth)
             && Free(id, s.mem.threads, s.db.rows)
    ensures Inv(Won(s, id, valid, now)) && !Executed(id, s.past.executions)
  {
    var s' := Won(s, id, valid, now);
    assert s'.db.rows.Keys == s.db.rows.Keys;
    WonHistory(s, id, s'.past.claims[id]);
    forall i: Id | Stored(s'.db.rows, i)
      ensures i in s.past.born && RowOk(s'.db.rows[i], s.past.born[i], i in s'.past.claims)
    {
      assert Stored(s.db.rows, i);
      assert RowOk(s.db.rows[i], s.past.born[i], i in s.past.claims);
    }
    ReshapeKeeps(s, s'.db.rows, s'.past.claims);
    SameKeysIndexed(s.db.rows, s'.db.rows, s.db.index);
    SameOwners(s, s');
  }

  lemma WonHistory(s: State, id: Id, c: Claim)
    requires Threads(s.mem.threads, s.clock, s.db.auth, s.past.born, s.past.claims, s.past.executions)
             && Claims(s.past.born, s.past.claims, s.past.executions)
    requires Unclaimed(id, s.past.born, s.past.claims) && ClaimOk(s.past.born[id], c)
             && Free(id, s.mem.threads, s.db.rows)
    ensures Threads(s.mem.threads, s.clock, s.db.auth, s.past.born, s.past.claims[id := c], s.past.executions)
    ensures Claims(s.past.born, s.past.claims[id := c], s.past.executions) && !Executed(id, s.past.executions)
  {
    var claims := s.past.claims[id := c];
    forall x: nat | Live(s.mem.threads, x)
      ensures Knows(s.mem.threads[x], s.clock, s.db.auth, s.past.born, claims, s.past.executions)
    {
      assert Knows(s.mem.threads[x], s.clock, s.db.auth, s.past.born, s.past.claims, s.past.executions);
    }
    forall i: Id | Taken(claims, i) ensures i in s.past.born && ClaimOk(s.past.born[i], claims[i]) {
      assert i != id ==> Taken(s.past.claims, i);
    }
  }

  /** The connector call, with the dispatching thread already past it. */
  lemma CallKeeps(s: State, id: Id, valid: Validation)
    requires Inv(s) && id in s.past.claims && s.past.claims[id].valid == valid && !Executed(id, s.past.executions)
    requires forall x: nat {:trigger Live(s.mem.threads, x)} ::
             Live(s.mem.threads, x) ==> !(s.mem.threads[x].Dispatched? && s.mem.threads[x].id == id)
    ensures Inv(s.(past := s.past.(executions := s.past.executions + [Execution(id, valid)])))
  {
    var s' := s.(past := s.past.(executions := s.past.executions + [Execution(id, valid)]));
    var n := |s.past.executions|;
    forall k | Nth(s'.past.executions, k)
      ensures s'.past.executions[k].id in s.past.claims
              && s'.past.executions[k].valid == s.past.claims[s'.past.executions[k].id].valid
    {
      assert k < n ==> Nth(s.past.executions, k);
    }
    forall j, k | Nth(s'.past.executions, j) && Nth(s'.past.executions, k) && j < k
      ensures s'.past.executions[j].id != s'.past.executions[k].id
    {
      assert Nth(s.past.executions, j);
      assert k < n ==> Nth(s.past.executions, k);
    }
    forall x: nat | Live(s.mem.threads, x)
      ensures Knows(s.mem.threads[x], s.clock, s.db.auth, s.past.born, s.past.claims, s'.past.executions)
    {
      if s.mem.threads[x].Dispatched? && Executed(s.mem.threads[x].id, s'.past.executions) {
        var k :| Nth(s'.past.executions, k) && s'.past.executions[k].id == s.mem.threads[x].id;
        assert Nth(s.past.executions, k);
      }
    }
    SameOwners(s, s');
  }

  // ---------------------------------------------------------------- authorization changes

  lemma MutateAuth(s: State, t: Token, a: Auth)
    requires Inv(s) && t in s.db.auth && s.mem.readers == {} && a.epoch == s.db.auth[t].epoch + 1
    ensures var rows := StaleForToken(s.db.rows, t, s.clock);
            Threads(s.mem.threads, s.clock, s.db.auth[t := a], s.past.born, s.past.claims, s.past.executions)
            && Current(rows, s.past.born, s.db.auth[t := a])
  {
    var auth := s.db.auth[t := a];
    var rows := StaleForToken(s.db.rows, t, s.clock);
    forall x: nat | Live(s.mem.threads, x)
      ensures Knows(s.mem.threads[x], s.clock, auth, s.past.born, s.past.claims, s.past.executions)
    {
      assert GateOk(x, s.mem.threads[x], s.mem.readers, s.mem.writer);
      assert Knows(s.mem.threads[x], s.clock, s.db.auth, s.past.born, s.past.claims, s.past.executions);
    }
    forall id: Id | Stored(rows, id) && id in s.past.born ensures CurrentRow(rows[id], s.past.born[id], auth) {
      assert Stored(s.db.rows, id);
    }
  }

  lemma MutateKeeps(s: State, t: Token, a: Auth)
    requires Inv(s) && t in s.db.auth && s.mem.readers == {}
    ensures Inv(Mutated(s, t, a))
  {
    MutateAuth(s, t, a.(epoch := s.db.auth[t].epoch + 1));
    SettleQuietlyKeeps(s, StaleForToken(s.db.rows, t, s.clock));
    SameOwners(s, Mutated(s, t, a));
  }

  lemma CreateTokenKeeps(s: State, t: Token, a: Auth)
    requires Inv(s) && t !in s.db.auth
    ensures Inv(s.(db := s.db.(auth := s.db.auth[t := a])))
  {
    var s' := s.(db := s.db.(auth := s.db.auth[t := a]));
    forall x: nat | Live(s.mem.threads, x)
      ensures Knows(s.mem.threads[x], s.clock, s'.db.auth, s.past.born, s.past.claims, s.past.executions)
    {
      assert Knows(s.mem.threads[x], s.clock, s.db.auth, s.past.born, s.past.claims, s.past.executions);
    }
    forall id: Id | Stored(s.db.rows, id) && id in s.past.born
      ensures CurrentRow(s.db.rows[id], s.past.born[id], s'.db.auth)
    {
      assert CurrentRow(s.db.rows[id], s.past.born[id], s.db.auth);
    }
    SameOwners(s, s');
  }

  // ---------------------------------------------------------------- time, retention, restart

  lemma TickKeeps(s: State, seconds: nat)
    requires Inv(s)
    ensures Inv(s.(clock := s.clock + seconds))
  {
    var s' := s.(clock := s.clock + seconds);
    forall x: nat | Live(s.mem.threads, x)
      ensures Knows(s.mem.threads[x], s'.clock, s.db.auth, s.past.born, s.past.claims, s.past.executions)
    {
      assert Knows(s.mem.threads[x], s.clock, s.db.auth, s.past.born, s.past.claims, s.past.executions);
    }
    forall id: Id | Made(s.past.born, id)
      ensures (id in s.db.rows.Keys <==> id !in s.past.purged) && s.past.born[id].at <= s'.clock { }
    forall id: Id | Gone(s.past.purged, id)
      ensures id in s.past.born && Remembered(KeyOf(s.past.born[id].call), s.past.purged[id], s'.clock, s.db.tombstones)
    {
      assert Remembered(KeyOf(s.past.born[id].call), s.past.purged[id], s.clock, s.db.tombstones);
    }
    SameOwners(s, s');
  }

  lemma PurgeTombstoneKeeps(s: State, k: ScopedKey)
    requires Inv(s) && k in s.db.tombstones && s.db.tombstones[k].expires <= s.clock
    ensures Inv(s.(db := s.db.(tombstones := s.db.tombstones - {k})))
  {
    var s' := s.(db := s.db.(tombstones := s.db.tombstones - {k}));
    forall i | Buried(s'.db.tombstones, i) ensures Marks(i, s'.db.tombstones[i], s.past.born, s.past.purged) {
      assert Buried(s.db.tombstones, i);
    }
    forall id: Id | Made(s.past.born, id)
      ensures (id in s.db.rows.Keys <==> id !in s.past.purged) && s.past.born[id].at <= s'.clock { }
    forall id: Id | Gone(s.past.purged, id)
      ensures id in s.past.born
              && Remembered(KeyOf(s.past.born[id].call), s.past.purged[id], s'.clock, s'.db.tombstones)
    {
      assert Remembered(KeyOf(s.past.born[id].call), s.past.purged[id], s.clock, s.db.tombstones);
    }
    SameOwners(s, s');
  }

  lemma PurgeIndexed(rows: map<Id, Row>, index: map<ScopedKey, Id>, id: Id)
    requires Indexed(rows, index) && id in rows
    ensures rows[id].key.Some? ==> Indexed(rows - {id}, index - {rows[id].key.value})
    ensures rows[id].key.None? ==> Indexed(rows - {id}, index)
  {
    assert Stored(rows, id);
    var index' := if rows[id].key.Some? then index - {rows[id].key.value} else index;
    forall i: Id | Stored(rows - {id}, i) && rows[i].key.Some?
      ensures rows[i].key.value in index' && index'[rows[i].key.value] == i
    {
      assert Stored(rows, i);
    }
    forall k | Carried(index', k) ensures index'[k] in rows - {id} && rows[index'[k]].key == Some(k) {
      assert Carried(index, k);
    }
  }

  lemma PurgeRecords(clock: Time, ids: set<Id>, born: map<Id, Birth>, purged: map<Id, Time>,
      tombstones: map<ScopedKey, Tombstone>,
                     tombstones': map<ScopedKey, Tombstone>, id: Id, v: Tombstone)
    requires Purges(clock, ids, born, purged, tombstones) && id in ids && id in born
    requires var k := KeyOf(born[id].call);
             tombstones' == (if k.None? then tombstones else tombstones[k.value := v]) && v.expires == clock + WINDOW
    ensures Purges(clock, ids - {id}, born, purged[id := clock], tombstones')
  {
    assert Made(born, id);
    forall i: Id | Made(born, i) ensures (i in ids - {id} <==> i !in purged[id := clock]) && born[i].at <= clock { }
    forall i: Id | Gone(purged[id := clock], i)
      ensures i in born && Remembered(KeyOf(born[i].call), purged[id := clock][i], clock, tombstones')
    {
      if i != id {
        assert Gone(purged, i);
        assert Remembered(KeyOf(born[i].call), purged[i], clock, tombstones);
      }
    }
  }

  lemma PurgeSpaced(born: map<Id, Birth>, purged: map<Id, Time>, id: Id, clock: Time)
    requires Spaced(born, purged) && id !in purged
    ensures Spaced(born, purged[id := clock])
  {
    forall i: Id, j: Id | Made(born, i) && Made(born, j) && i < j && KeyOf(born[i].call).Some?
      && KeyOf(born[i].call) == KeyOf(born[j].call)
      ensures i in purged[id := clock] && born[j].at >= purged[id := clock][i] + WINDOW { }
  }

  lemma PurgeTombs(tombstones: map<ScopedKey, Tombstone>, born: map<Id, Birth>, purged: map<Id, Time>, id: Id,
      clock: Time, k: ScopedKey, v: Tombstone)
    requires Tombs(tombstones, born, purged) && id !in purged && id in born
    ensures Tombs(tombstones, born, purged[id := clock])
    ensures KeyOf(born[id].call) == Some(k) && v == Tombstone(id, Identity(born[id].call), clock + WINDOW) ==>
            Tombs(tombstones[k := v], born, purged[id := clock])
  {
    forall i | Buried(tombstones, i) ensures Marks(i, tombstones[i], born, purged[id := clock]) {
      assert Marks(i, tombstones[i], born, purged);
    }
    if KeyOf(born[id].call) == Some(k) && v == Tombstone(id, Identity(born[id].call), clock + WINDOW) {
      var tombstones' := tombstones[k := v];
      forall i | Buried(tombstones', i) ensures Marks(i, tombstones'[i], born, purged[id := clock]) {
        if i == k { assert Gone(purged[id := clock], id); } else { assert Buried(tombstones, i); }
      }
    }
  }

  lemma PurgeTable(s: State, id: Id)
    requires Table(s.db.rows, s.past.born, s.past.claims, s.db.nextId) && Current(s.db.rows, s.past.born, s.db.auth)
             && Parked(s.db.rows, s.mem.threads)
    requires AuditOnce(s.db.audit, s.db.rows, s.past.born)
    ensures Table(s.db.rows - {id}, s.past.born, s.past.claims, s.db.nextId)
            && Current(s.db.rows - {id}, s.past.born, s.db.auth)
    ensures Parked(s.db.rows - {id}, s.mem.threads) && AuditOnce(s.db.audit, s.db.rows - {id}, s.past.born)
  {
    forall i: Id | Stored(s.db.rows - {id}, i)
      ensures i in s.past.born && RowOk(s.db.rows[i], s.past.born[i], i in s.past.claims)
    {
      assert Stored(s.db.rows, i);
    }
    ReshapeKeeps(s, s.db.rows - {id}, s.past.claims);
  }

  lemma PurgeKeeps(s: State, id: Id)
    requires Inv(s)
    ensures Inv(DoPurge(s, id))
  {
    if id in s.db.rows && id in s.past.born && s.db.rows[id].completedAt.Some? {
      var s' := DoPurge(s, id);
      assert Stored(s.db.rows, id) && Made(s.past.born, id);
      PurgeIndexed(s.db.rows, s.db.index, id);
      assert (s.db.rows - {id}).Keys == s.db.rows.Keys - {id};
      var v := Tombstone(id, Identity(s.past.born[id].call), s.clock + WINDOW);
      PurgeRecords(s.clock, s.db.rows.Keys, s.past.born, s.past.purged, s.db.tombstones, s'.db.tombstones, id, v);
      PurgeSpaced(s.past.born, s.past.purged, id, s.clock);
      var k := s.db.rows[id].key;
      var anyKey := if k.Some? then k.value else ScopedKey(TokenScope(0), "");
      PurgeTombs(s.db.tombstones, s.past.born, s.past.purged, id, s.clock, anyKey, v);
      PurgeTable(s, id);
      SameOwners(s, s');
    }
  }
}
