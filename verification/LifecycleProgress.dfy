/** What one thread achieves when nothing interrupts it: an admitted call and an approved request are
    claimed, executed once and finished, and every trace of the thread is gone. */
module LifecycleProgress {
  import opened Wrappers
  import opened ActionStore
  import opened Lifecycle

  /** The thread id is unused and nobody holds the gate exclusively. */
  predicate Free(s: State, tid: nat) {
    tid !in s.mem.threads && tid !in s.mem.readers && s.mem.writer.None?
  }

  // ---------------------------------------------------------------- admission

  function Admission(s: State, tid: nat, c: Call, payload: string): State {
    DoInsert(DoAdmit(DoReplay(DoAcquire(DoSpawn(s, tid, Calling(c)), tid), tid), tid, payload), tid, Acknowledged)
  }

  /** What a call of a token is inserted as. */
  function Request(s: State, c: Call, payload: string): Thread
    requires c.token.Some? && c.token.value in s.db.auth && c.ref in s.world
  {
    var a := s.db.auth[c.token.value];
    var perm := Permission(a, c.ref, s.clock);
    Inserting(c, AdmissionStatus(perm), Some(BuildContext(c.token.value, a, perm, c, payload, s.world[c.ref])), a.epoch)
  }

  /** `s` while thread `tid` runs `t` and holds the gate. */
  function Holding(s: State, tid: nat, t: Thread): State {
    s.(mem := s.mem.(readers := s.mem.readers + {tid}, threads := s.mem.threads[tid := t]))
  }

  lemma Enters(s: State, tid: nat, c: Call)
    requires Free(s, tid) && s.mcpStarted && Gated(c)
    ensures DoAcquire(DoSpawn(s, tid, Calling(c)), tid) == Holding(s, tid, Replaying(c))
  {
    assert s.mem.threads[tid := Calling(c)][tid := Replaying(c)] == s.mem.threads[tid := Replaying(c)];
  }

  lemma Prepares(s: State, tid: nat, c: Call, payload: string)
    requires c.token.Some? && c.token.value in s.db.auth && c.ref in s.world
    requires KeyOf(c).None? || Lookup(s, KeyOf(c).value).None?
    ensures DoAdmit(DoReplay(Holding(s, tid, Replaying(c)), tid), tid, payload)
            == Holding(s, tid, Request(s, c, payload))
  {
    var h := Holding(s, tid, Replaying(c));
    assert KeyOf(c).Some? ==> Lookup(h, KeyOf(c).value) == Lookup(s, KeyOf(c).value);
    assert DoReplay(h, tid) == Holding(s, tid, Admitting(c)) by {
      assert h.mem.threads[tid := Admitting(c)] == s.mem.threads[tid := Admitting(c)];
    }
    assert s.mem.threads[tid := Admitting(c)][tid := Request(s, c, payload)]
           == s.mem.threads[tid := Request(s, c, payload)];
  }

  lemma Inserts(s: State, tid: nat, t: Thread)
    requires Free(s, tid) && t.Inserting? && (KeyOf(t.call).None? || Lookup(s, KeyOf(t.call).value).None?)
    ensures var r := DoInsert(Holding(s, tid, t), tid, Acknowledged);
            if t.status == ApprovalPending then r == Created(s, t)
            else if t.status == Running then r == Move(Created(s, t), tid, Executing(s.db.nextId))
            else r == Holding(Created(s, t), tid, Blocking(s.db.nextId, FINISH_ATTEMPTS))
  {
    var h := Holding(s, tid, t);
    assert KeyOf(t.call).Some? ==> Lookup(h, KeyOf(t.call).value) == Lookup(s, KeyOf(t.call).value);
    assert s.mem.readers + {tid} - {tid} == s.mem.readers;
    assert h.mem.threads - {tid} == s.mem.threads;
    assert h.mem.threads[tid := Executing(s.db.nextId)] == s.mem.threads[tid := Executing(s.db.nextId)];
    assert h.mem.threads[tid := Blocking(s.db.nextId, FINISH_ATTEMPTS)]
           == s.mem.threads[tid := Blocking(s.db.nextId, FINISH_ATTEMPTS)];
  }

  /** A call whose key is free is stored under the status its permission asks for; one that may run at once
      goes on to execution. */
  lemma AdmissionAdmits(s: State, tid: nat, c: Call, payload: string)
    requires Free(s, tid) && s.mcpStarted && Gated(c) && c.token.value in s.db.auth && c.ref in s.world
    requires KeyOf(c).None? || Lookup(s, KeyOf(c).value).None?
    ensures var t := Request(s, c, payload);
            var r := Admission(s, tid, c, payload);
            if t.status == ApprovalPending then r == Created(s, t)
            else if t.status == Running then r == Move(Created(s, t), tid, Executing(s.db.nextId))
            else r == Holding(Created(s, t), tid, Blocking(s.db.nextId, FINISH_ATTEMPTS))
  {
    Enters(s, tid, c);
    Prepares(s, tid, c, payload);
    Inserts(s, tid, Request(s, c, payload));
  }

  // ---------------------------------------------------------------- approval

  function Approval(s: State, tid: nat, id: Id, payload: string): State {
    DoMarkRunning(DoTrackPending(DoPreparePending(DoAcquire(DoSpawn(s, tid, Approving(id)), tid), tid, payload), tid),
        tid, Acknowledged)
  }

  function Track(s: State, id: Id): State {
    s.(mem := s.mem.(boundaries := s.mem.boundaries + {id}))
  }

  lemma PreparesPending(s: State, tid: nat, id: Id, payload: string)
    requires Free(s, tid) && s.mcpStarted && id in s.db.rows && s.db.rows[id].status == ApprovalPending
             && StillAuthorized(s, id, payload)
    ensures DoPreparePending(DoAcquire(DoSpawn(s, tid, Approving(id)), tid), tid, payload)
            == Holding(s, tid, Prepared(id))
  {
    var h := DoAcquire(DoSpawn(s, tid, Approving(id)), tid);
    assert h == Holding(s, tid, Preparing(id)) by {
      assert s.mem.threads[tid := Approving(id)][tid := Preparing(id)] == s.mem.threads[tid := Preparing(id)];
    }
    assert StillAuthorized(h, id, payload);
    assert h.mem.threads[tid := Prepared(id)] == s.mem.threads[tid := Prepared(id)];
  }

  /** A pending request that is still authorized is marked running, with its boundary tracked. */
  lemma ApprovalMarks(s: State, tid: nat, id: Id, payload: string)
    requires Free(s, tid) && s.mcpStarted && id in s.db.rows && Markable(s.db.rows[id])
             && StillAuthorized(s, id, payload)
    ensures Approval(s, tid, id, payload) ==
            Move(SetRow(Track(s, id), id, MarkedRunning(s.db.rows[id], s.mem.runtime, s.clock)), tid, Executing(id))
  {
    PreparesPending(s, tid, id, payload);
    var h := Holding(s, tid, Prepared(id));
    var m := DoTrackPending(h, tid);
    assert m == Holding(Track(s, id), tid, Marking(id)) by {
      assert h.mem.threads[tid := Marking(id)] == s.mem.threads[tid := Marking(id)];
    }
    assert s.mem.readers + {tid} - {tid} == s.mem.readers;
    assert m.mem.threads[tid := Executing(id)] == s.mem.threads[tid := Executing(id)];
  }

  // ---------------------------------------------------------------- execution

  function ReachClaim(s: State, tid: nat, payload: string): State {
    DoReadClock(DoSnapshot(DoRevalidate(DoAcquire(s, tid), tid, payload, true), tid, true), tid)
  }

  /** What the revalidation establishes for a request of a token. */
  function Validated(s: State, id: Id, payload: string): Validation
    requires StillAuthorized(s, id, payload)
  {
    var b := s.past.born[id];
    Validation(payload, s.world[b.call.ref], s.clock, Some(s.db.auth[b.call.token.value]), b.context)
  }

  /** The thread is about to execute `id` and may take the gate. */
  predicate Ready(s: State, tid: nat, id: Id) {
    tid in s.mem.threads && s.mem.threads[tid] == Executing(id) && tid !in s.mem.readers && s.mem.writer.None?
  }

  lemma Revalidates(s: State, tid: nat, id: Id, payload: string)
    requires Ready(s, tid, id) && StillAuthorized(s, id, payload) && s.mcpStarted
    ensures DoRevalidate(DoAcquire(s, tid), tid, payload, true)
            == Holding(s, tid, Snapshotting(id, Validated(s, id, payload)))
  {
    var h := DoAcquire(s, tid);
    assert h == Holding(s, tid, Revalidating(id));
    assert StillAuthorized(h, id, payload);
    assert h.mem.threads[tid := Snapshotting(id, Validated(s, id, payload))]
           == s.mem.threads[tid := Snapshotting(id, Validated(s, id, payload))];
  }

  lemma ReachesClaim(s: State, tid: nat, id: Id, payload: string)
    requires Ready(s, tid, id) && StillAuthorized(s, id, payload) && s.mcpStarted
    ensures ReachClaim(s, tid, payload) == Holding(Track(s, id), tid, Claiming(id, Validated(s, id, payload), s.clock))
  {
    Revalidates(s, tid, id, payload);
    var v := Validated(s, id, payload);
    var h := Holding(s, tid, Snapshotting(id, v));
    var m := DoSnapshot(h, tid, true);
    assert m == Holding(Track(s, id), tid, ReadingClock(id, v)) by {
      assert h.mem.threads[tid := ReadingClock(id, v)] == s.mem.threads[tid := ReadingClock(id, v)];
    }
    assert m.mem.threads[tid := Claiming(id, v, s.clock)] == s.mem.threads[tid := Claiming(id, v, s.clock)];
  }

  lemma Claims(s: State, tid: nat, id: Id, v: Validation)
    requires tid !in s.mem.readers && s.mem.writer.None? && id in s.db.rows && id in s.past.born
             && Claimable(s.db.rows[id], s.mem.runtime, s.clock)
    ensures DoBeginDispatch(Holding(s, tid, Claiming(id, v, s.clock)), tid, Acknowledged)
            == Move(Won(s, id, v, s.clock), tid, Dispatched(id, v))
  {
    var h := Holding(s, tid, Claiming(id, v, s.clock));
    assert s.mem.readers + {tid} - {tid} == s.mem.readers;
    assert h.mem.threads[tid := Dispatched(id, v)] == s.mem.threads[tid := Dispatched(id, v)];
  }

  function CallConnector(s: State, tid: nat, payload: string, outcome: Outcome): State {
    DoExecute(DoBeginDispatch(ReachClaim(s, tid, payload), tid, Acknowledged), tid, outcome)
  }

  /** The state after the connector call: one claim and one execution more, both with what was validated. */
  function Called(s: State, tid: nat, id: Id, v: Validation, outcome: Outcome): State
    requires id in s.db.rows && id in s.past.born
  {
    var w := Won(Track(s, id), id, v, s.clock);
    Move(w.(past := w.past.(executions := w.past.executions + [Execution(id, v)])), tid, AfterExecution(id, outcome))
  }

  /** A request that is still authorized and claimable is claimed and executed. */
  lemma ExecutionCalls(s: State, tid: nat, id: Id, payload: string, outcome: Outcome)
    requires Ready(s, tid, id) && StillAuthorized(s, id, payload) && s.mcpStarted
    requires id in s.db.rows && Claimable(s.db.rows[id], s.mem.runtime, s.clock)
    ensures CallConnector(s, tid, payload, outcome) == Called(s, tid, id, Validated(s, id, payload), outcome)
  {
    ReachesClaim(s, tid, id, payload);
    var v := Validated(s, id, payload);
    Claims(Track(s, id), tid, id, v);
    var w := Won(Track(s, id), id, v, s.clock);
    assert w.mem.threads[tid := Dispatched(id, v)][tid := AfterExecution(id, outcome)]
           == w.mem.threads[tid := AfterExecution(id, outcome)];
  }

  // ---------------------------------------------------------------- completion

  function Completion(s: State, tid: nat): State {
    DoClear(DoFinish(s, tid, Acknowledged), tid)
  }

  lemma CompletionFinishes(s: State, tid: nat, id: Id, status: Status)
    requires tid in s.mem.threads && s.mem.threads[tid] == Finishing(id, status, OtherCause, FINISH_ATTEMPTS, true)
    requires tid !in s.mem.readers && s.mem.writer.None? && id in s.db.rows && s.db.rows[id].status == Running
    ensures var r := Completion(s, tid);
            r.db == s.db.(rows := s.db.rows[id := Settle(s.db.rows[id], status, OtherCause, s.clock)],
                audit := s.db.audit + [AuditEvent(id, status)])
            && r.mem == s.mem.(boundaries := s.mem.boundaries - {id}, threads := s.mem.threads - {tid})
            && r.past == s.past
  {
    assert s.mem.readers - {tid} == s.mem.readers;
    assert s.mem.threads[tid := Clearing(id)] - {tid} == s.mem.threads - {tid};
  }

  // ---------------------------------------------------------------- from start to end

  /** From `s`, request `id` has been executed once more with what was validated, and is completed and
      reported; threads, boundaries and the gate are as in `s`. */
  ghost predicate Completes(s: State, r: State, id: Id, v: Validation) {
    r.mem == s.mem && id in r.db.rows && r.db.rows[id].status == Completed
      && r.db.rows[id].dispatchedAt == Some(s.clock)
    && r.db.audit == s.db.audit + [AuditEvent(id, Completed)]
    && r.past.executions == s.past.executions + [Execution(id, v)]
  }

  /** `a` is `s` with thread `tid` about to execute `id`, its boundary perhaps tracked already. */
  ghost predicate Entered(s: State, a: State, tid: nat, id: Id) {
    Free(s, tid) && id !in s.mem.boundaries && id in a.db.rows && Claimable(a.db.rows[id], a.mem.runtime, a.clock)
    && s.mem.boundaries <= a.mem.boundaries <= s.mem.boundaries + {id}
    && a.mem == s.mem.(threads := s.mem.threads[tid := Executing(id)], boundaries := a.mem.boundaries)
    && a.clock == s.clock && a.mcpStarted && a.db.audit == s.db.audit && a.past.executions == s.past.executions
  }

  lemma CalledCompletes(s: State, a: State, tid: nat, id: Id, v: Validation)
    requires Entered(s, a, tid, id) && id in a.past.born
    ensures Completes(s, Completion(Called(a, tid, id, v, Returned(Completed)), tid), id, v)
  {
    var b := Called(a, tid, id, v, Returned(Completed));
    CompletionFinishes(b, tid, id, Completed);
    assert b.mem.boundaries - {id} == s.mem.boundaries;
    assert b.mem.threads - {tid} == s.mem.threads;
  }

  /** Execution and completion, for a thread that entered at `s` and stands ready in `a`. */
  lemma ReadyCompletes(s: State, a: State, tid: nat, id: Id, payload: string)
    requires Entered(s, a, tid, id) && StillAuthorized(a, id, payload)
    ensures Completes(s, Completion(CallConnector(a, tid, payload, Returned(Completed)), tid), id,
              Validated(a, id, payload))
  {
    ExecutionCalls(a, tid, id, payload, Returned(Completed));
    CalledCompletes(s, a, tid, id, Validated(a, id, payload));
  }

  lemma FreshIsReady(s: State, tid: nat, c: Call, payload: string)
    requires Gated(c) && c.token.value in s.db.auth && c.ref in s.world
             && TokenActive(s.db.auth[c.token.value], s.clock)
    requires var perm := Permission(s.db.auth[c.token.value], c.ref, s.clock);
             perm.Some? && perm.value.rule == AlwaysRun
    ensures var a := Move(Created(s, Request(s, c, payload)), tid, Executing(s.db.nextId));
            StillAuthorized(a, s.db.nextId, payload) && s.db.nextId in a.db.rows
              && Claimable(a.db.rows[s.db.nextId], a.mem.runtime, a.clock)
  {
  }

  /** A call that may always run is stored, claimed, executed once and completed. */
  lemma CallRunsThrough(s: State, tid: nat, c: Call, payload: string) returns (v: Validation)
    requires Free(s, tid) && s.mcpStarted && Gated(c) && c.token.value in s.db.auth && c.ref in s.world
    requires (KeyOf(c).None? || Lookup(s, KeyOf(c).value).None?) && s.db.nextId !in s.mem.boundaries
    requires TokenActive(s.db.auth[c.token.value], s.clock)
    requires var perm := Permission(s.db.auth[c.token.value], c.ref, s.clock);
             perm.Some? && perm.value.rule == AlwaysRun
    ensures v.payload == payload && v.material == s.world[c.ref]
    ensures Completes(s,
              Completion(CallConnector(Admission(s, tid, c, payload), tid, payload, Returned(Completed)), tid),
                s.db.nextId, v)
  {
    var a := Move(Created(s, Request(s, c, payload)), tid, Executing(s.db.nextId));
    AdmissionAdmits(s, tid, c, payload);
    FreshIsReady(s, tid, c, payload);
    ReadyCompletes(s, a, tid, s.db.nextId, payload);
    v := Validated(a, s.db.nextId, payload);
  }

  lemma MarkedIsReady(s: State, tid: nat, id: Id, payload: string)
    requires id in s.db.rows && Markable(s.db.rows[id]) && StillAuthorized(s, id, payload)
    ensures var a := Move(SetRow(Track(s, id), id, MarkedRunning(s.db.rows[id], s.mem.runtime, s.clock)), tid,
              Executing(id));
            StillAuthorized(a, id, payload) && id in a.db.rows && Claimable(a.db.rows[id], a.mem.runtime, a.clock)
  {
  }

  /** An approved request is claimed, executed once and completed. */
  lemma ApprovalRunsThrough(s: State, tid: nat, id: Id, payload: string) returns (v: Validation)
    requires Free(s, tid) && s.mcpStarted && id in s.db.rows && Markable(s.db.rows[id])
             && StillAuthorized(s, id, payload)
    requires id !in s.mem.boundaries
    ensures v.payload == payload && v.context == s.past.born[id].context
    ensures Completes(s,
              Completion(CallConnector(Approval(s, tid, id, payload), tid, payload, Returned(Completed)), tid), id, v)
  {
    var a := Move(SetRow(Track(s, id), id, MarkedRunning(s.db.rows[id], s.mem.runtime, s.clock)), tid, Executing(id));
    ApprovalMarks(s, tid, id, payload);
    MarkedIsReady(s, tid, id, payload);
    ReadyCompletes(s, a, tid, id, payload);
    v := Validated(a, id, payload);
  }
}
