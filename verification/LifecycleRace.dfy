/** Why recovery spares a live execution only while one approval of a request is in flight at a time: a second
    approver that gives up removes the boundary that protects the first one's execution. */
module LifecycleRace {
  import opened Wrappers
  import opened ActionStore
  import opened Lifecycle
  import opened LifecycleProgress
  import opened LifecycleReach
  import LifecycleInvariant
  import Recovery = LifecycleRecovery

  /** A second approver tracks the boundary and is cancelled before it marks the request. */
  function GivesUp(s: State, tid: nat, id: Id, payload: string): State {
    DoAbort(DoTrackPending(DoPreparePending(DoAcquire(DoSpawn(s, tid, Approving(id)), tid), tid, payload), tid), tid)
  }

  lemma GivesUpIs(s: State, tid: nat, id: Id, payload: string)
    requires Free(s, tid) && s.mcpStarted && id in s.db.rows && s.db.rows[id].status == ApprovalPending
             && StillAuthorized(s, id, payload)
    ensures GivesUp(s, tid, id, payload) == Move(Track(s, id), tid, Clearing(id))
  {
    PreparesPending(s, tid, id, payload);
    var h := Holding(s, tid, Prepared(id));
    var m := DoTrackPending(h, tid);
    assert m == Holding(Track(s, id), tid, Marking(id)) by {
      assert h.mem.threads[tid := Marking(id)] == s.mem.threads[tid := Marking(id)];
    }
    assert s.mem.readers + {tid} - {tid} == s.mem.readers;
    assert m.mem.threads[tid := Clearing(id)] == s.mem.threads[tid := Clearing(id)];
  }

  /** One pass of the recovery worker over a table whose only request is `id`. */
  function Sweep(s: State, tid: nat, id: Id): State {
    DoPersistRecovery(DoCheckBoundary(DoListExpired(DoReadClock(DoSpawn(s, tid, Waking), tid), tid, [id]), tid), tid,
        Acknowledged)
  }

  lemma Again(s: State, tid: nat, t: Thread, t': Thread)
    ensures Move(Move(s, tid, t), tid, t') == Move(s, tid, t')
  {
    assert s.mem.threads[tid := t][tid := t'] == s.mem.threads[tid := t'];
  }

  lemma SweepLists(s: State, tid: nat, id: Id)
    requires Free(s, tid) && s.db.rows.Keys == {id} && Recoverable(s.db.rows[id], s.clock)
    ensures DoListExpired(DoReadClock(DoSpawn(s, tid, Waking), tid), tid, [id])
            == Move(s, tid, Recovering(s.clock, [id]))
  {
    Again(s, tid, Waking, Listing(s.clock));
    var a := Move(s, tid, Listing(s.clock));
    assert ListedExactly(a, s.clock, [id]);
    Again(s, tid, Listing(s.clock), Recovering(s.clock, [id]));
  }

  lemma SweepPersists(s: State, tid: nat, id: Id)
    requires id !in s.mem.boundaries
    ensures DoPersistRecovery(DoCheckBoundary(Move(s, tid, Recovering(s.clock, [id])), tid), tid, Acknowledged)
            == Move(RecoverRow(s, id, s.clock), tid, Recovering(s.clock, []))
  {
    assert [id][1..] == [];
    Again(s, tid, Recovering(s.clock, [id]), Checked(s.clock, id, []));
    Again(RecoverRow(s, id, s.clock), tid, Checked(s.clock, id, []), Recovering(s.clock, []));
  }

  lemma SweepRecovers(s: State, tid: nat, id: Id)
    requires Free(s, tid) && s.db.rows.Keys == {id} && Recoverable(s.db.rows[id], s.clock) && id !in s.mem.boundaries
    ensures Sweep(s, tid, id) == Move(RecoverRow(s, id, s.clock), tid, Recovering(s.clock, []))
  {
    SweepLists(s, tid, id);
    SweepPersists(s, tid, id);
  }

  /** The first approver has called the connector and has not finished; then the second one cleans up. */
  function Exposed(s: State, first: nat, second: nat, id: Id, payload: string): State {
    DoClear(CallConnector(Approval(GivesUp(s, second, id, payload), first, id, payload), first, payload,
        Returned(Running)), second)
  }

  /** The first approver is about to execute while the second one still has to clean up. */
  function Behind(s: State, first: nat, second: nat, id: Id): State
    requires id in s.db.rows
  {
    Move(SetRow(Move(Track(s, id), second, Clearing(id)), id, MarkedRunning(s.db.rows[id], s.mem.runtime, s.clock)),
        first, Executing(id))
  }

  lemma BehindIs(s: State, first: nat, second: nat, id: Id, payload: string)
    requires Free(s, first) && Free(s, second) && first != second && s.mcpStarted
    requires id in s.db.rows && Markable(s.db.rows[id]) && StillAuthorized(s, id, payload)
    ensures Approval(GivesUp(s, second, id, payload), first, id, payload) == Behind(s, first, second, id)
  {
    GivesUpIs(s, second, id, payload);
    var s1 := Move(Track(s, id), second, Clearing(id));
    assert StillAuthorized(s1, id, payload);
    ApprovalMarks(s1, first, id, payload);
    assert s1.mem.boundaries + {id} == s1.mem.boundaries;
    assert Track(s1, id) == s1;
  }

  lemma BehindIsReady(s: State, first: nat, second: nat, id: Id, payload: string)
    requires Free(s, first) && Free(s, second) && first != second && id in s.db.rows && Markable(s.db.rows[id])
             && StillAuthorized(s, id, payload)
    ensures var a := Behind(s, first, second, id);
            Ready(a, first, id) && StillAuthorized(a, id, payload) && Claimable(a.db.rows[id], a.mem.runtime, a.clock)
            && Validated(a, id, payload) == Validated(s, id, payload)
            && a.mem.threads.Keys == s.mem.threads.Keys + {first, second}
  {
  }

  /** The request is claimed and executed, its executor is alive, and nothing protects it. */
  ghost predicate Unprotected(s: State, r: State, first: nat, id: Id) {
    id in r.db.rows && r.db.rows.Keys == s.db.rows.Keys && r.db.rows[id].status == Running
      && r.db.rows[id].dispatchedAt.Some?
    && r.db.rows[id].lease == Some(s.clock + LEASE) && r.clock == s.clock && id !in r.mem.boundaries
    && first in r.mem.threads && r.mem.threads[first] == Launching(id)
    && r.mem.threads.Keys == s.mem.threads.Keys + {first}
    && r.mem.readers == s.mem.readers && r.mem.writer.None? && |r.past.executions| == |s.past.executions| + 1
  }

  lemma BehindIsUnprotected(s: State, first: nat, second: nat, id: Id, v: Validation)
    requires Free(s, first) && Free(s, second) && first != second && id in s.db.rows && id in s.past.born
    ensures Unprotected(s, DoClear(Called(Behind(s, first, second, id), first, id, v, Returned(Running)), second),
              first, id)
  {
    ClearsAway(Behind(s, first, second, id), first, second, id, v);
  }

  lemma ExposedIs(s: State, first: nat, second: nat, id: Id, payload: string)
    requires Free(s, first) && Free(s, second) && first != second && s.mcpStarted
    requires id in s.db.rows && Markable(s.db.rows[id]) && StillAuthorized(s, id, payload)
    ensures Unprotected(s, Exposed(s, first, second, id, payload), first, id)
  {
    BehindIs(s, first, second, id, payload);
    BehindIsReady(s, first, second, id, payload);
    ExecutionCalls(Behind(s, first, second, id), first, id, payload, Returned(Running));
    BehindIsUnprotected(s, first, second, id, Validated(s, id, payload));
  }

  lemma ClearsAway(s: State, first: nat, second: nat, id: Id, v: Validation)
    requires first != second && first in s.mem.threads && second in s.mem.threads
             && s.mem.threads[second] == Clearing(id)
    requires second !in s.mem.readers && s.mem.writer.None? && id in s.db.rows && id in s.past.born
    ensures var r := DoClear(Called(s, first, id, v, Returned(Running)), second);
            r.db == s.db.(rows := s.db.rows[id := Claimed(s.db.rows[id], s.clock)]) && r.clock == s.clock
              && id !in r.mem.boundaries
            && r.mem.threads == s.mem.threads[first := Launching(id)] - {second} && r.mem.readers == s.mem.readers
            && r.mem.writer.None?
            && r.past.executions == s.past.executions + [Execution(id, v)]
  {
    assert s.mem.readers - {second} == s.mem.readers;
  }

  /** Then, once the lease has run out, recovery gives up on the request. */
  lemma ExposedIsRecovered(s: State, first: nat, second: nat, worker: nat, id: Id, payload: string)
    requires Free(s, first) && Free(s, second) && Free(s, worker) && first != second && worker != first && s.mcpStarted
    requires s.db.rows.Keys == {id} && Markable(s.db.rows[id]) && StillAuthorized(s, id, payload)
    ensures var r := Sweep(DoOutside(Exposed(s, first, second, id, payload), Tick(31)), worker, id);
            id in r.db.rows && r.db.rows[id].status == OutcomeUnknown && first in r.mem.threads
              && r.mem.threads[first] == Launching(id)
  {
    ExposedIs(s, first, second, id, payload);
    var e := DoOutside(Exposed(s, first, second, id, payload), Tick(31));
    assert id in e.db.rows;
    SweepRecovers(e, worker, id);
  }

  // ---------------------------------------------------------------- as a run

  lemma RunGivesUp(s: State, actions: seq<Action>, tid: nat, id: Id, payload: string) returns (more: seq<Action>)
    ensures actions <= more && Run(s, more) == GivesUp(Run(s, actions), tid, id, payload)
  {
    more := RunEnter(s, actions, Spawn(tid, Approving(id)));
    more := RunEnter(s, more, Acquire(tid));
    more := RunEnter(s, more, PreparePending(tid, payload));
    more := RunEnter(s, more, TrackPending(tid));
    more := RunDispatch(s, more, Abort(tid));
  }

  lemma RunSweep(s: State, actions: seq<Action>, tid: nat, id: Id) returns (more: seq<Action>)
    ensures actions <= more && Run(s, more) == Sweep(Run(s, actions), tid, id)
  {
    more := RunEnter(s, actions, Spawn(tid, Waking));
    more := RunDispatch(s, more, ReadClock(tid));
    more := RunMaintain(s, more, ListExpired(tid, [id]));
    more := RunMaintain(s, more, CheckBoundary(tid));
    more := RunMaintain(s, more, PersistRecovery(tid, Acknowledged));
  }

  lemma BehindHasTwo(s: State, first: nat, second: nat, id: Id)
    requires first != second && id in s.db.rows && Approved(s, id)
    ensures !Recovery.OneClaimant(Behind(s, first, second, id), id)
  {
    var a := Behind(s, first, second, id);
    assert LifecycleInvariant.Live(a.mem.threads, first) && LifecycleInvariant.Live(a.mem.threads, second);
    assert Approved(a, id);
  }

  lemma {:induction false} SerialBefore(s: State, first: seq<Action>, all: seq<Action>, id: Id)
    requires first <= all && Recovery.Serial(s, all, id)
    ensures Recovery.OneClaimant(Run(s, first), id)
    decreases |all|
  {
    if |first| < |all| { SerialBefore(s, first, all[..|all| - 1], id); } else { assert first == all; }
  }

  /** Up to the point where both approvals are in flight, and on to the exposed execution. */
  lemma RunExposed(s: State, actions: seq<Action>, first: nat, second: nat, id: Id, payload: string)
    returns (both: seq<Action>, more: seq<Action>)
    ensures both <= more && Run(s, both) == Approval(GivesUp(Run(s, actions), second, id, payload), first, id, payload)
    ensures Run(s, more) == Exposed(Run(s, actions), first, second, id, payload)
  {
    var gone := RunGivesUp(s, actions, second, id, payload);
    both := RunApproval(s, gone, first, id, payload);
    more := RunCall(s, both, first, payload, Returned(Running));
    more := RunDispatch(s, more, ClearBoundary(second));
  }

  /** The whole of it, from any point of a run at which the request is pending. */
  lemma RunRace(s: State, actions: seq<Action>, first: nat, second: nat, worker: nat, id: Id, payload: string)
      returns (more: seq<Action>)
    requires var p := Run(s, actions);
             Free(p, first) && Free(p, second) && first != second && p.mcpStarted
             && id in p.db.rows && Markable(p.db.rows[id]) && StillAuthorized(p, id, payload) && Approved(p, id)
    ensures !Recovery.Serial(s, more, id)
    ensures Run(s, more) ==
            Sweep(DoOutside(Exposed(Run(s, actions), first, second, id, payload), Tick(31)), worker, id)
  {
    var p := Run(s, actions);
    var both, exposed := RunExposed(s, actions, first, second, id, payload);
    var later := RunOutside(s, exposed, Tick(31));
    more := RunSweep(s, later, worker, id);
    assert both <= more;
    BehindIs(p, first, second, id, payload);
    BehindHasTwo(p, first, second, id);
    if Recovery.Serial(s, more, id) { SerialBefore(s, both, more, id); }
  }

  lemma PendingIsReady(s: State)
    requires Pending(s)
    ensures Free(s, 2) && Free(s, 3) && Free(s, 4) && s.mcpStarted && s.db.rows.Keys == {1}
    ensures Markable(s.db.rows[1]) && StillAuthorized(s, 1, "payload") && Approved(s, 1)
  {
  }

  /** From an empty database, with two approvals of one request in flight: recovery ends the request as unknown
      while the runtime that claimed it is still executing it. */
  lemma DuplicateApprovalIsNotSpared() returns (actions: seq<Action>)
    ensures Init(START) && !Recovery.Serial(START, actions, 1)
    ensures var r := Run(START, actions);
            1 in r.db.rows && r.db.rows[1].status == OutcomeUnknown
            && 2 in r.mem.threads && r.mem.threads[2] == Launching(1)
  {
    StartIsInit();
    var before := ReachesPending();
    var p := Run(START, before);
    PendingIsReady(p);
    actions := RunRace(START, before, 2, 3, 4, 1, "payload");
    ExposedIsRecovered(p, 2, 3, 4, 1, "payload");
  }
}
