/** The recovery worker and the requests its own runtime is executing. */
module LifecycleRecovery {
  import opened Wrappers
  import opened ActionStore
  import opened Lifecycle
  import opened LifecycleInvariant
  import opened LifecycleSteps
  import Turns = LifecycleTurns

  /** A request that this thread tracks or is about to track. */
  function Claimant(s: State, t: Thread): Option<Id> {
    if t.Prepared? then Some(t.id) else Responsible(s, t)
  }

  /** No two threads track this request or are about to. */
  ghost predicate OneClaimant(s: State, id: Id) {
    forall x: nat, y: nat {:trigger Live(s.mem.threads, x), Live(s.mem.threads, y)} ::
      Live(s.mem.threads, x) && Live(s.mem.threads, y) && x != y && Claimant(s, s.mem.threads[x]) == Some(id) ==>
        Claimant(s, s.mem.threads[y]) != Some(id)
  }

  ghost predicate ThreadHeld(s: State, t: Thread, id: Id) {
    (Responsible(s, t) == Some(id) ==> id in s.mem.boundaries)
    && (t.Listing? || t.Recovering? || t.Checked? ==> t.now <= s.clock)
    && ((t.Prepared? || t.Marking?) && t.id == id ==> Approved(s, id) && id !in s.past.claims)
  }

  /** `c` passed the boundary check for the request while `t` tracks it: then `t` claims or has claimed it with
      a lease that outlives the clock reading of `c`. */
  ghost predicate Overtaken(s: State, c: Thread, t: Thread, id: Id) {
    c.Checked? && c.id == id && Responsible(s, t) == Some(id) ==>
      (t.Claiming? ==> c.now <= t.now)
      && (Turns.IsClaimed(s, id) ==> s.db.rows[id].lease.Some? && s.db.rows[id].lease.value > c.now)
  }

  ghost predicate Held(s: State, id: Id) {
    (forall x: nat {:trigger Live(s.mem.threads, x)} ::
       Live(s.mem.threads, x) ==> ThreadHeld(s, s.mem.threads[x], id))
    && (forall x: nat, y: nat {:trigger Live(s.mem.threads, x), Live(s.mem.threads, y)} ::
          Live(s.mem.threads, x) && Live(s.mem.threads, y) ==> Overtaken(s, s.mem.threads[x], s.mem.threads[y], id))
  }

  // ---------------------------------------------------------------- a thread's turn

  lemma SameResponsible(s: State, r: State, tid: nat, x: nat)
    requires Inv(s) && Turns.Turn(s, r, tid) && x != tid && Live(r.mem.threads, x)
    ensures Live(s.mem.threads, x) && r.mem.threads[x] == s.mem.threads[x]
    ensures Responsible(r, r.mem.threads[x]) == Responsible(s, s.mem.threads[x])
  {
    assert Seen(x);
    assert Turns.ThreadOf(r, x) == Turns.ThreadOf(s, x);
    assert Live(s.mem.threads, x);
    var t := s.mem.threads[x];
    if t.Executing? || t.Revalidating? || t.Snapshotting? {
      assert Made(s.past.born, t.id);
      assert Seen(t.id);
      assert Turns.RequestStep(s, r, tid, t.id);
    }
  }

  lemma OtherHeld(s: State, r: State, tid: nat, x: nat, id: Id)
    requires Inv(s) && Held(s, id) && OneClaimant(s, id) && Turns.Turn(s, r, tid) && x != tid && Live(r.mem.threads, x)
    ensures ThreadHeld(r, r.mem.threads[x], id)
  {
    SameResponsible(s, r, tid, x);
    var t := s.mem.threads[x];
    if Claimant(s, t) == Some(id) {
      assert Seen(id);
      assert tid in s.mem.threads ==> Live(s.mem.threads, tid);
      assert Turns.RequestStep(s, r, tid, id);
      if t.Prepared? || t.Marking? { assert Made(s.past.born, id); }
    }
  }

  lemma ActorTracks(s: State, r: State, tid: nat, id: Id)
    requires Inv(s) && Held(s, id) && Turns.Turn(s, r, tid) && Live(r.mem.threads, tid)
    ensures Responsible(r, r.mem.threads[tid]) == Some(id) ==> id in r.mem.boundaries
  {
    if Responsible(r, r.mem.threads[tid]) == Some(id) {
      assert Seen(id);
      assert Turns.RequestStep(s, r, tid, id);
      assert tid in s.mem.threads ==> Live(s.mem.threads, tid);
      assert id in s.past.born ==> Made(s.past.born, id);
    }
  }

  lemma ActorHeld(s: State, r: State, tid: nat, id: Id)
    requires Inv(s) && Held(s, id) && Turns.Turn(s, r, tid) && Live(r.mem.threads, tid)
    ensures ThreadHeld(r, r.mem.threads[tid], id)
  {
    var t := r.mem.threads[tid];
    ActorTracks(s, r, tid, id);
    assert tid in s.mem.threads ==> Live(s.mem.threads, tid);
    if (t.Prepared? || t.Marking?) && t.id == id {
      assert Seen(id);
      assert Turns.RequestStep(s, r, tid, id);
      assert id in s.db.rows ==> Stored(s.db.rows, id);
      assert id in s.past.born ==> Made(s.past.born, id);
    }
  }

  lemma ClaimedIsClaimed(s: State, id: Id)
    requires Inv(s) && Turns.IsClaimed(s, id)
    ensures id in s.past.claims
  {
    assert Stored(s.db.rows, id);
  }

  /** The checker did not just check, and the tracker did not move. */
  lemma StillOvertaken(s: State, r: State, tid: nat, x: nat, y: nat, id: Id)
    requires Inv(s) && Held(s, id) && OneClaimant(s, id) && Turns.Turn(s, r, tid)
    requires Live(r.mem.threads, x) && Live(r.mem.threads, y) && Live(s.mem.threads, x)
    requires r.mem.threads[x].Checked? && s.mem.threads[x] == r.mem.threads[x] && y != tid
    ensures Overtaken(r, r.mem.threads[x], r.mem.threads[y], id)
  {
    var c := r.mem.threads[x];
    assert Seen(id);
    assert Turns.RequestStep(s, r, tid, id);
    SameResponsible(s, r, tid, y);
    assert Overtaken(s, c, s.mem.threads[y], id);
    assert tid in s.mem.threads ==> Live(s.mem.threads, tid);
  }

  /** The checker read the clock no later than a tracker that is just about to claim. */
  lemma TrackerClaims(s: State, r: State, tid: nat, x: nat, id: Id)
    requires Held(s, id) && Turns.Turn(s, r, tid)
    requires Live(r.mem.threads, x) && Live(r.mem.threads, tid) && Live(s.mem.threads, x)
    requires r.mem.threads[x].Checked? && r.mem.threads[x].id == id && s.mem.threads[x] == r.mem.threads[x]
    ensures var c, t := r.mem.threads[x], r.mem.threads[tid]; t.Claiming? && t.id == id ==> c.now <= t.now
  {
    assert ThreadHeld(s, s.mem.threads[x], id);
    assert tid in s.mem.threads ==> Live(s.mem.threads, tid);
  }

  /** A thread that tracks a request claimed before its turn tracked it then. */
  lemma TrackedBefore(s: State, r: State, tid: nat, id: Id)
    requires Inv(s) && Held(s, id) && Turns.Turn(s, r, tid) && Live(r.mem.threads, tid)
    requires Turns.IsClaimed(s, id) && Responsible(r, r.mem.threads[tid]) == Some(id)
    ensures tid in s.mem.threads && Responsible(s, s.mem.threads[tid]) == Some(id)
  {
    assert Seen(id);
    assert Turns.RequestStep(s, r, tid, id);
    assert tid in s.mem.threads ==> Live(s.mem.threads, tid);
    ClaimedIsClaimed(s, id);
    assert id in s.past.born ==> Made(s.past.born, id);
  }

  /** The checker did not just check, and the tracker moved. */
  lemma TrackerOvertakes(s: State, r: State, tid: nat, x: nat, id: Id)
    requires Inv(s) && Held(s, id) && Turns.Turn(s, r, tid)
    requires Live(r.mem.threads, x) && Live(r.mem.threads, tid) && Live(s.mem.threads, x)
    requires r.mem.threads[x].Checked? && s.mem.threads[x] == r.mem.threads[x]
    ensures Overtaken(r, r.mem.threads[x], r.mem.threads[tid], id)
  {
    var c := r.mem.threads[x];
    if c.id == id && Responsible(r, r.mem.threads[tid]) == Some(id) {
      TrackerClaims(s, r, tid, x, id);
      assert Seen(id);
      assert Turns.RequestStep(s, r, tid, id);
      if Turns.IsClaimed(s, id) { TrackedBefore(s, r, tid, id); }
      assert tid in s.mem.threads ==> Live(s.mem.threads, tid);
    }
  }

  lemma TurnOvertaken(s: State, r: State, tid: nat, x: nat, y: nat, id: Id)
    requires Inv(s) && Held(s, id) && OneClaimant(s, id) && Turns.Turn(s, r, tid)
    requires Live(r.mem.threads, x) && Live(r.mem.threads, y)
    ensures Overtaken(r, r.mem.threads[x], r.mem.threads[y], id)
  {
    var c := r.mem.threads[x];
    if c.Checked? && c.id == id {
      assert Seen(x);
      if Turns.ThreadOf(s, x) == Some(c) {
        assert Live(s.mem.threads, x);
        if y == tid { TrackerOvertakes(s, r, tid, x, id); } else { StillOvertaken(s, r, tid, x, y, id); }
      } else {
        assert x == tid;
        if y != x { SameResponsible(s, r, tid, y); }
      }
    }
  }

  lemma TurnHeld(s: State, r: State, tid: nat, id: Id)
    requires Inv(s) && Held(s, id) && OneClaimant(s, id) && Turns.Turn(s, r, tid)
    ensures Held(r, id)
  {
    forall x: nat | Live(r.mem.threads, x) ensures ThreadHeld(r, r.mem.threads[x], id) {
      if x == tid { ActorHeld(s, r, tid, id); } else { OtherHeld(s, r, tid, x, id); }
    }
    forall x: nat, y: nat | Live(r.mem.threads, x) && Live(r.mem.threads, y)
      ensures Overtaken(r, r.mem.threads[x], r.mem.threads[y], id)
    {
      TurnOvertaken(s, r, tid, x, y, id);
    }
  }

  // ---------------------------------------------------------------- every action, every serial run

  lemma EnterHasTurn(s: State, a: Entering)
    ensures Turns.Turn(s, DoEnter(s, a), a.tid)
  {
    match a
    case Spawn(tid, t) => Turns.SpawnTurn(s, tid, t);
    case Acquire(tid) => Turns.AcquireTurn(s, tid);
    case Replay(tid) => Turns.ReplayTurn(s, tid);
    case Admit(tid, payload) => Turns.AdmitTurn(s, tid, payload);
    case Insert(tid, fault) => Turns.InsertTurn(s, tid, fault);
    case FinishBlocked(tid, fault) => Turns.FinishBlockedTurn(s, tid, fault);
    case PreparePending(tid, payload) => Turns.PreparePendingTurn(s, tid, payload);
    case TrackPending(tid) => Turns.TrackPendingTurn(s, tid);
    case MarkRunning(tid, fault) => Turns.MarkRunningTurn(s, tid, fault);
    case FinishStale(tid, fault) => Turns.FinishStaleTurn(s, tid, fault);
    case Decline(tid, fault) => Turns.DeclineTurn(s, tid, fault);
  }

  lemma DispatchHasTurn(s: State, a: Dispatching)
    ensures Turns.Turn(s, DoDispatch(s, a), a.tid)
  {
    match a
    case Revalidate(tid, payload, readable) => Turns.RevalidateTurn(s, tid, payload, readable);
    case Snapshot(tid, readable) => Turns.SnapshotTurn(s, tid, readable);
    case ReadClock(tid) => Turns.ReadClockTurn(s, tid);
    case BeginDispatch(tid, fault) => Turns.BeginDispatchTurn(s, tid, fault);
    case ExplainRefusal(tid) => Turns.ExplainRefusalTurn(s, tid);
    case Execute(tid, outcome) => Turns.ExecuteTurn(s, tid, outcome);
    case Launch(tid) => Turns.LaunchTurn(s, tid);
    case Finalize(tid, status) => Turns.FinalizeTurn(s, tid, status);
    case Finish(tid, fault) => Turns.FinishTurn(s, tid, fault);
    case ClearBoundary(tid) => Turns.ClearTurn(s, tid);
    case Abort(tid) => Turns.AbortTurn(s, tid);
  }

  /** An action of no thread. */
  ghost predicate Quiet(s: State, r: State) {
    r.mem.threads == s.mem.threads && r.mem.boundaries == s.mem.boundaries && s.clock <= r.clock
      && r.past.born == s.past.born
    && r.past.claims == s.past.claims
    && forall id: Id {:trigger Seen(id)} :: Seen(id) && Turns.IsClaimed(r, id) ==>
         Turns.IsClaimed(s, id) && r.db.rows[id].lease == s.db.rows[id].lease
  }

  lemma QuietHeld(s: State, r: State, id: Id)
    requires Held(s, id) && Quiet(s, r)
    ensures Held(r, id)
  {
    forall x: nat | Live(r.mem.threads, x) ensures ThreadHeld(r, r.mem.threads[x], id) {
      assert ThreadHeld(s, s.mem.threads[x], id);
    }
    forall x: nat, y: nat | Live(r.mem.threads, x) && Live(r.mem.threads, y)
      ensures Overtaken(r, r.mem.threads[x], r.mem.threads[y], id)
    {
      assert Overtaken(s, s.mem.threads[x], s.mem.threads[y], id);
      assert Seen(id);
    }
  }

  /** Maintenance that one thread carries out. */
  predicate Threaded(a: Maintaining) {
    a.ListExpired? || a.CheckBoundary? || a.PersistRecovery? || a.AcquireExclusive? || a.Mutate?
  }

  lemma MaintainQuiet(s: State, a: Maintaining)
    requires !Threaded(a) && !a.Restart?
    ensures Quiet(s, DoMaintain(s, a))
  {
  }

  lemma OutsideQuiet(s: State, e: Event)
    ensures Quiet(s, DoOutside(s, e))
  {
  }

  lemma MaintainQuietHeld(s: State, a: Maintaining, id: Id)
    requires Held(s, id) && !Threaded(a) && !a.Restart?
    ensures Held(DoMaintain(s, a), id)
  {
    MaintainQuiet(s, a);
    QuietHeld(s, DoMaintain(s, a), id);
  }

  lemma MaintainHasTurn(s: State, a: Maintaining)
    requires Threaded(a)
    ensures Turns.Turn(s, DoMaintain(s, a), a.tid)
  {
    match a
    case ListExpired(tid, ids) => Turns.ListExpiredTurn(s, tid, ids);
    case CheckBoundary(tid) => Turns.CheckBoundaryTurn(s, tid);
    case PersistRecovery(tid, fault) => Turns.PersistRecoveryTurn(s, tid, fault);
    case AcquireExclusive(tid) => Turns.AcquireExclusiveTurn(s, tid);
    case Mutate(tid, auth, fault) => Turns.MutateTurn(s, tid, auth, fault);
  }

  lemma MaintainHeld(s: State, a: Maintaining, id: Id)
    requires Inv(s) && Held(s, id) && OneClaimant(s, id)
    ensures Held(DoMaintain(s, a), id)
  {
    if Threaded(a) {
      MaintainHasTurn(s, a);
      TurnHeld(s, DoMaintain(s, a), a.tid, id);
    } else if !a.Restart? {
      MaintainQuietHeld(s, a, id);
    }
  }

  lemma StepHeld(s: State, a: Action, id: Id)
    requires Inv(s) && Held(s, id) && OneClaimant(s, id)
    ensures Held(Do(s, a), id)
  {
    match a
    case Outside(event) => OutsideQuiet(s, event); QuietHeld(s, DoOutside(s, event), id);
    case Enter(entering) => EnterHasTurn(s, entering); TurnHeld(s, DoEnter(s, entering), entering.tid, id);
    case Dispatch(dispatching) =>
      DispatchHasTurn(s, dispatching);
      TurnHeld(s, DoDispatch(s, dispatching), dispatching.tid, id);
    case Maintain(maintaining) => MaintainHeld(s, maintaining, id);
  }

  /** A run in which no two approvals of this request are ever in flight together. */
  ghost predicate Serial(s: State, actions: seq<Action>, id: Id)
    decreases |actions|
  {
    OneClaimant(Run(s, actions), id) && (actions != [] ==> Serial(s, actions[..|actions| - 1], id))
  }

  lemma {:induction false} SerialHeld(s: State, actions: seq<Action>, id: Id)
    requires Init(s) && Serial(s, actions, id)
    ensures Held(Run(s, actions), id)
    decreases |actions|
  {
    if actions != [] {
      var n := |actions| - 1;
      SerialHeld(s, actions[..n], id);
      RunKeeps(s, actions[..n]);
      StepHeld(Run(s, actions[..n]), actions[n], id);
    }
  }

  /** The worker is about to settle the request, and this thread has claimed it and is executing or finishing it. */
  ghost predicate AtRisk(s: State, worker: nat, executor: nat, id: Id) {
    worker in s.mem.threads && s.mem.threads[worker].Checked? && s.mem.threads[worker].id == id
    && executor in s.mem.threads && Responsible(s, s.mem.threads[executor]) == Some(id) && id in s.past.claims
  }

  /** As long as no two approvals of the request were in flight together, whatever happened to other requests,
      the recovery worker does not rewrite it while its own runtime is executing or finishing it. */
  lemma RecoverySparesLive(s: State, actions: seq<Action>, worker: nat, executor: nat, id: Id, fault: Fault)
    requires Init(s) && Serial(s, actions, id) && AtRisk(Run(s, actions), worker, executor, id)
    ensures DoPersistRecovery(Run(s, actions), worker, fault).db == Run(s, actions).db
  {
    SerialHeld(s, actions, id);
    RunKeeps(s, actions);
    var r := Run(s, actions);
    assert Live(r.mem.threads, worker) && Live(r.mem.threads, executor);
    assert Overtaken(r, r.mem.threads[worker], r.mem.threads[executor], id);
    if id in r.db.rows { assert Stored(r.db.rows, id); }
  }
}
