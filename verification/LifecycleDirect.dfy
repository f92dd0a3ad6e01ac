/** A request that was admitted without approval has one thread at most, so recovery spares it in every run. */
module LifecycleDirect {
  import opened Wrappers
  import opened ActionStore
  import opened Lifecycle
  import opened LifecycleInvariant
  import opened LifecycleSteps
  import opened LifecycleRecovery
  import Turns = LifecycleTurns

  /** On the way from the insertion or the running mark to the boundary. */
  predicate Early(t: Thread) {
    t.Executing? || t.Revalidating? || t.Snapshotting?
  }

  /** The request this thread executes, tracks or is about to track. */
  function Carries(t: Thread): Option<Id> {
    if Early(t) || t.Prepared? then Some(t.id) else Tracked(t)
  }

  ghost predicate CarriesKnown(s: State, t: Thread) {
    (Carries(t).Some? ==> Carries(t).value in s.past.born) && (t.Prepared? || t.Marking? ==> Approved(s, t.id))
  }

  /** Only approvals can share a request. */
  ghost predicate Alone(s: State) {
    (forall x: nat {:trigger Live(s.mem.threads, x)} :: Live(s.mem.threads, x) ==> CarriesKnown(s, s.mem.threads[x]))
    && (forall x: nat, y: nat {:trigger Live(s.mem.threads, x), Live(s.mem.threads, y)} ::
          Live(s.mem.threads, x) && Live(s.mem.threads, y) && x != y && Carries(s.mem.threads[x]).Some?
          && Carries(s.mem.threads[x]) == Carries(s.mem.threads[y]) ==>
            Approved(s, Carries(s.mem.threads[x]).value))
  }

  // ---------------------------------------------------------------- how a thread gets there

  /** An early thread was early before, had just been marked, or has just inserted its request. */
  ghost predicate Advances(s: State, r: State, tid: nat) {
    tid in r.mem.threads && Early(r.mem.threads[tid]) ==>
      var t := r.mem.threads[tid];
      (t.id == s.db.nextId && t.id in r.past.born)
      || (tid in s.mem.threads
          && (s.mem.threads[tid] == Marking(t.id) || (Early(s.mem.threads[tid]) && s.mem.threads[tid].id == t.id)))
  }

  lemma SpawnAdvances(s: State, tid: nat, t: Thread)
    ensures Advances(s, DoSpawn(s, tid, t), tid)
  {
  }

  lemma AcquireAdvances(s: State, tid: nat)
    ensures Advances(s, DoAcquire(s, tid), tid)
  {
  }

  lemma AdmitAdvances(s: State, a: Entering)
    requires a.Replay? || a.Admit? || a.FinishBlocked?
    ensures Advances(s, DoEnter(s, a), a.tid)
  {
  }

  lemma InsertAdvances(s: State, tid: nat, fault: Fault)
    ensures Advances(s, DoInsert(s, tid, fault), tid)
  {
  }

  lemma ApproveAdvances(s: State, a: Entering)
    requires a.PreparePending? || a.TrackPending? || a.FinishStale? || a.Decline?
    ensures Advances(s, DoEnter(s, a), a.tid)
  {
  }

  lemma MarkAdvances(s: State, tid: nat, fault: Fault)
    ensures Advances(s, DoMarkRunning(s, tid, fault), tid)
  {
  }

  lemma EnterAdvances(s: State, a: Entering)
    ensures Advances(s, DoEnter(s, a), a.tid)
  {
    match a
    case Spawn(tid, t) => SpawnAdvances(s, tid, t);
    case Acquire(tid) => AcquireAdvances(s, tid);
    case Insert(tid, fault) => InsertAdvances(s, tid, fault);
    case MarkRunning(tid, fault) => MarkAdvances(s, tid, fault);
    case Replay(_) => AdmitAdvances(s, a);
    case Admit(_, _) => AdmitAdvances(s, a);
    case FinishBlocked(_, _) => AdmitAdvances(s, a);
    case _ => ApproveAdvances(s, a);
  }

  lemma ValidateAdvances(s: State, a: Dispatching)
    requires a.Revalidate? || a.Snapshot? || a.ReadClock?
    ensures Advances(s, DoDispatch(s, a), a.tid)
  {
  }

  lemma ClaimAdvances(s: State, a: Dispatching)
    requires a.BeginDispatch? || a.ExplainRefusal? || a.Execute?
    ensures Advances(s, DoDispatch(s, a), a.tid)
  {
  }

  lemma CompleteAdvances(s: State, a: Dispatching)
    requires a.Launch? || a.Finalize? || a.Finish? || a.ClearBoundary? || a.Abort?
    ensures Advances(s, DoDispatch(s, a), a.tid)
  {
  }

  lemma DispatchAdvances(s: State, a: Dispatching)
    ensures Advances(s, DoDispatch(s, a), a.tid)
  {
    if a.Revalidate? || a.Snapshot? || a.ReadClock? {
      ValidateAdvances(s, a);
    } else if a.BeginDispatch? || a.ExplainRefusal? || a.Execute? {
      ClaimAdvances(s, a);
    } else {
      CompleteAdvances(s, a);
    }
  }

  lemma RecoverAdvances(s: State, a: Maintaining)
    requires Threaded(a)
    ensures Advances(s, DoMaintain(s, a), a.tid)
  {
  }

  // ---------------------------------------------------------------- every action, every run

  lemma BornStays(s: State, r: State, tid: nat, id: Id)
    requires Inv(s) && Turns.Turn(s, r, tid)
    ensures id in s.past.born ==> id in r.past.born && r.past.born[id] == s.past.born[id]
  {
    if id in s.past.born {
      assert Made(s.past.born, id) && Seen(id);
      assert Turns.RequestStep(s, r, tid, id);
    }
  }

  /** What the acting thread carries it carried before, or it is an approval's, or it is new. */
  lemma ActorCarries(s: State, r: State, tid: nat)
    requires Inv(s) && Alone(s) && Turns.Turn(s, r, tid) && Advances(s, r, tid) && Live(r.mem.threads, tid)
    ensures CarriesKnown(r, r.mem.threads[tid])
    ensures var c := Carries(r.mem.threads[tid]);
            c.Some? && c.value != s.db.nextId && !Approved(s, c.value) ==>
              tid in s.mem.threads && Carries(s.mem.threads[tid]) == c
  {
    var t := r.mem.threads[tid];
    assert tid in s.mem.threads ==> Live(s.mem.threads, tid) && CarriesKnown(s, s.mem.threads[tid]);
    if Carries(t).Some? {
      var id := Carries(t).value;
      BornStays(s, r, tid, id);
      assert id in s.db.rows ==> Stored(s.db.rows, id);
    }
  }

  lemma OtherCarries(s: State, r: State, tid: nat, x: nat)
    requires Inv(s) && Alone(s) && Turns.Turn(s, r, tid) && x != tid && Live(r.mem.threads, x)
    ensures Live(s.mem.threads, x) && r.mem.threads[x] == s.mem.threads[x] && CarriesKnown(r, r.mem.threads[x])
    ensures Carries(r.mem.threads[x]).Some? ==> Carries(r.mem.threads[x]).value < s.db.nextId
  {
    SameResponsible(s, r, tid, x);
    assert CarriesKnown(s, s.mem.threads[x]);
    var c := Carries(s.mem.threads[x]);
    if c.Some? {
      assert Made(s.past.born, c.value);
      BornStays(s, r, tid, c.value);
    }
  }

  lemma PairAlone(s: State, r: State, tid: nat, x: nat, y: nat)
    requires Inv(s) && Alone(s) && Turns.Turn(s, r, tid) && Advances(s, r, tid)
    requires Live(r.mem.threads, x) && Live(r.mem.threads, y) && x != y
    requires Carries(r.mem.threads[x]).Some? && Carries(r.mem.threads[x]) == Carries(r.mem.threads[y])
    ensures Approved(r, Carries(r.mem.threads[x]).value)
  {
    var id := Carries(r.mem.threads[x]).value;
    if x == tid { ActorCarries(s, r, tid); } else { OtherCarries(s, r, tid, x); }
    if y == tid { ActorCarries(s, r, tid); } else { OtherCarries(s, r, tid, y); }
    BornStays(s, r, tid, id);
    if !Approved(s, id) {
      assert Live(s.mem.threads, x) && Live(s.mem.threads, y);
    }
  }

  lemma TurnAlone(s: State, r: State, tid: nat)
    requires Inv(s) && Alone(s) && Turns.Turn(s, r, tid) && Advances(s, r, tid)
    ensures Alone(r)
  {
    forall x: nat | Live(r.mem.threads, x) ensures CarriesKnown(r, r.mem.threads[x]) {
      if x == tid { ActorCarries(s, r, tid); } else { OtherCarries(s, r, tid, x); }
    }
    forall x: nat, y: nat | Live(r.mem.threads, x) && Live(r.mem.threads, y) && x != y
      && Carries(r.mem.threads[x]).Some? && Carries(r.mem.threads[x]) == Carries(r.mem.threads[y])
      ensures Approved(r, Carries(r.mem.threads[x]).value)
    {
      PairAlone(s, r, tid, x, y);
    }
  }

  lemma QuietAlone(s: State, r: State)
    requires Alone(s) && Quiet(s, r)
    ensures Alone(r)
  {
    forall x: nat | Live(r.mem.threads, x) ensures CarriesKnown(r, r.mem.threads[x]) {
      assert CarriesKnown(s, s.mem.threads[x]);
    }
  }

  lemma MaintainAlone(s: State, a: Maintaining)
    requires Inv(s) && Alone(s)
    ensures Alone(DoMaintain(s, a))
  {
    if Threaded(a) {
      MaintainHasTurn(s, a);
      RecoverAdvances(s, a);
      TurnAlone(s, DoMaintain(s, a), a.tid);
    } else if !a.Restart? {
      MaintainQuiet(s, a);
      QuietAlone(s, DoMaintain(s, a));
    }
  }

  lemma StepAlone(s: State, a: Action)
    requires Inv(s) && Alone(s)
    ensures Alone(Do(s, a))
  {
    match a
    case Outside(event) => OutsideQuiet(s, event); QuietAlone(s, DoOutside(s, event));
    case Enter(entering) =>
      EnterHasTurn(s, entering);
      EnterAdvances(s, entering);
      TurnAlone(s, DoEnter(s, entering), entering.tid);
    case Dispatch(dispatching) =>
      DispatchHasTurn(s, dispatching);
      DispatchAdvances(s, dispatching);
      TurnAlone(s, DoDispatch(s, dispatching), dispatching.tid);
    case Maintain(maintaining) => MaintainAlone(s, maintaining);
  }

  lemma StepBorn(s: State, a: Action, id: Id)
    requires Inv(s) && id in s.past.born
    ensures id in Do(s, a).past.born && Do(s, a).past.born[id] == s.past.born[id]
  {
    match a
    case Outside(event) => OutsideQuiet(s, event);
    case Enter(entering) => EnterHasTurn(s, entering); BornStays(s, DoEnter(s, entering), entering.tid, id);
    case Dispatch(dispatching) =>
      DispatchHasTurn(s, dispatching);
      BornStays(s, DoDispatch(s, dispatching), dispatching.tid, id);
    case Maintain(m) =>
      if Threaded(m) {
        MaintainHasTurn(s, m);
        BornStays(s, DoMaintain(s, m), m.tid, id);
      } else if !m.Restart? {
        MaintainQuiet(s, m);
      }
  }

  lemma {:induction false} RunAlone(s: State, actions: seq<Action>)
    requires Init(s)
    ensures Alone(Run(s, actions))
    decreases |actions|
  {
    if actions != [] {
      var n := |actions| - 1;
      RunAlone(s, actions[..n]);
      RunKeeps(s, actions[..n]);
      StepAlone(Run(s, actions[..n]), actions[n]);
    }
  }

  lemma AloneIsOne(s: State, id: Id)
    requires Alone(s) && !Approved(s, id)
    ensures OneClaimant(s, id)
  {
    forall x: nat, y: nat | Live(s.mem.threads, x) && Live(s.mem.threads, y) && x != y
      && Claimant(s, s.mem.threads[x]) == Some(id)
      ensures Claimant(s, s.mem.threads[y]) != Some(id)
    {
      assert Carries(s.mem.threads[x]) == Some(id);
    }
  }

  /** No approvals of such a request are in flight together, in any run. */
  lemma {:induction false} DirectIsSerial(s: State, actions: seq<Action>, id: Id)
    requires Init(s) && !Approved(Run(s, actions), id)
    ensures Serial(s, actions, id)
    decreases |actions|
  {
    RunAlone(s, actions);
    AloneIsOne(Run(s, actions), id);
    if actions != [] {
      var n := |actions| - 1;
      RunKeeps(s, actions[..n]);
      if Approved(Run(s, actions[..n]), id) { StepBorn(Run(s, actions[..n]), actions[n], id); }
      DirectIsSerial(s, actions[..n], id);
    }
  }

  /** In every run, recovery does not rewrite a request that was admitted without approval while its own runtime
      is executing or finishing it. */
  lemma RecoverySparesDirect(s: State, actions: seq<Action>, worker: nat, executor: nat, id: Id, fault: Fault)
    requires Init(s) && AtRisk(Run(s, actions), worker, executor, id) && !Approved(Run(s, actions), id)
    ensures DoPersistRecovery(Run(s, actions), worker, fault).db == Run(s, actions).db
  {
    DirectIsSerial(s, actions, id);
    RecoverySparesLive(s, actions, worker, executor, id, fault);
  }
}
