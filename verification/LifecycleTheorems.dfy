/** The promises of the connector-action workflow, over every run. */
module LifecycleTheorems {
  import opened Wrappers
  import opened ActionStore
  import opened Lifecycle
  import opened LifecycleInvariant
  import opened LifecycleSteps

  // ---------------------------------------------------------------- at most one connector call

  /** Whatever callers, approvers, recovery, shutdown and restarts do, a request is executed at most once,
      and only after it won its claim. */
  lemma ExecutedAtMostOnce(s: State, actions: seq<Action>, j: nat, k: nat)
    requires Init(s) && j < k < |Run(s, actions).past.executions|
    ensures Run(s, actions).past.executions[j].id != Run(s, actions).past.executions[k].id
    ensures Run(s, actions).past.executions[j].id in Run(s, actions).past.claims
  {
    RunKeeps(s, actions);
    assert Nth(Run(s, actions).past.executions, j) && Nth(Run(s, actions).past.executions, k);
  }

  // ---------------------------------------------------------------- what a finished row tells

  /** Never claimed, and out of reach of any later claim. */
  ghost predicate Closed(s: State, id: Id) {
    id < s.db.nextId && id !in s.past.claims && (id in s.db.rows ==> Terminal(s.db.rows[id].status))
  }

  lemma ClosedStays(s: State, a: Action, id: Id)
    requires Closed(s, id)
    ensures Closed(Do(s, a), id)
  {
    assert Seen(id);
  }

  lemma {:induction false} ClosedForEver(s: State, actions: seq<Action>, id: Id)
    requires Closed(s, id)
    ensures Closed(Run(s, actions), id)
    decreases |actions|
  {
    if actions != [] {
      var n := |actions| - 1;
      ClosedForEver(s, actions[..n], id);
      ClosedStays(Run(s, actions[..n]), actions[n], id);
    }
  }

  lemma ClosedUnexecuted(s: State, id: Id)
    requires Inv(s) && Closed(s, id)
    ensures !Executed(id, s.past.executions)
  {
  }

  lemma {:induction false} RunConcat(s: State, first: seq<Action>, second: seq<Action>)
    ensures Run(s, first + second) == Run(Run(s, first), second)
    decreases |second|
  {
    if second == [] {
      assert first + second == first;
    } else {
      var n := |second| - 1;
      RunConcat(s, first, second[..n]);
      assert (first + second)[..|first + second| - 1] == first + second[..n];
    }
  }

  /** A request that was declined, blocked, or finished with "lease expired before dispatch; no remote action
      was attempted" has not been executed, and no continuation of the run executes it. */
  lemma NeverAttempted(s: State, before: seq<Action>, after: seq<Action>, id: Id)
    requires Init(s) && id in Run(s, before).db.rows
    requires var r := Run(s, before).db.rows[id];
             r.cause == LeaseExpiredBeforeDispatch || r.status == Declined || r.status == Blocked
    ensures !Executed(id, Run(s, before).past.executions)
    ensures !Executed(id, Run(s, before + after).past.executions)
  {
    var now := Run(s, before);
    RunKeeps(s, before);
    assert Stored(now.db.rows, id);
    assert Made(now.past.born, id);
    ClosedForEver(now, after, id);
    RunConcat(s, before, after);
    RunKeeps(s, before + after);
  }

  /** Recovery tells the truth: a lost request that was claimed becomes outcome_unknown, and only one that
      was never claimed becomes failed. */
  lemma RecoveryVerdict(s: State, actions: seq<Action>, id: Id, now: Time)
    requires Init(s)
    requires var r := Run(s, actions); id in r.db.rows && Recoverable(r.db.rows[id], now)
    ensures var r := Run(s, actions);
            var row := RecoverRow(r, id, now).db.rows[id];
            if id in r.past.claims then row.status == OutcomeUnknown && row.cause == PersistenceUnknown
            else row.status == Failed && row.cause == LeaseExpiredBeforeDispatch && !Executed(id, r.past.executions)
  {
    RunKeeps(s, actions);
    assert Stored(Run(s, actions).db.rows, id);
  }

  // ---------------------------------------------------------------- authorization

  /** A token-owned request is executed with the input, payload and material that were hashed when it was
      created, under a live token and the required rule, and the authorization it was validated against is
      the one in force at the moment of the claim. */
  lemma ExecutionAuthorized(s: State, actions: seq<Action>, k: nat)
    requires Init(s) && k < |Run(s, actions).past.executions|
    ensures var r := Run(s, actions);
            var e := r.past.executions[k];
            e.id in r.past.born && e.id in r.past.claims && e.valid == r.past.claims[e.id].valid
    ensures var r := Run(s, actions);
            var e := r.past.executions[k];
            var b := r.past.born[e.id];
            var c := r.past.claims[e.id];
            b.call.token.Some? ==>
              c.auth.Some? && c.auth == e.valid.auth && e.valid.at <= c.at
              && Authorizes(c.auth.value, b, e.valid.at, e.valid.payload, e.valid.material)
  {
    RunKeeps(s, actions);
    var r := Run(s, actions);
    assert Nth(r.past.executions, k);
    assert Taken(r.past.claims, r.past.executions[k].id);
  }

  /** In every reachable state an approval-pending MCP request of a token was created under that token's
      current authorization: no change has been committed since, and the context that was stored for approval
      has the token expiry, revocation, rule and permission expiry that are in force. */
  lemma PendingIsCurrent(s: State, actions: seq<Action>, id: Id)
    requires Init(s)
    requires var r := Run(s, actions);
             id in r.db.rows && r.db.rows[id].status == ApprovalPending && r.db.rows[id].mcp
               && r.db.rows[id].token.Some?
    ensures var r := Run(s, actions);
            var row := r.db.rows[id];
            var t := row.token.value;
            t in r.db.auth && id in r.past.born && r.past.born[id].epoch == r.db.auth[t].epoch
            && row.context.Some? && Drawn(row.context.value, r.past.born[id].call, r.db.auth[t])
  {
    RunKeeps(s, actions);
    assert Stored(Run(s, actions).db.rows, id);
  }

  /** A committed authorization change leaves the token without an active lease and without any request
      that is pending or running unclaimed, and touches no row of another token. */
  lemma ChangeCommits(s: State, tid: nat, t: Token, auth: Auth, fault: Fault)
    requires tid in s.mem.threads && s.mem.threads[tid] == MutationHeld(t) && t in s.db.auth && fault != RolledBack
    ensures var r := DoMutate(s, tid, auth, fault);
            (forall l | l in r.db.leases :: r.db.leases[l] != t)
            && (forall id | id in r.db.rows && r.db.rows[id].token == Some(t) :: !Undispatched(r.db.rows[id]))
            && (forall id | id in s.db.rows && s.db.rows[id].token != Some(t) ::
                 id in r.db.rows && r.db.rows[id] == s.db.rows[id])
            && r.db.auth[t].epoch == s.db.auth[t].epoch + 1
  {
  }

  lemma ChangeCloses(s: State, tid: nat, t: Token, auth: Auth, fault: Fault, id: Id)
    requires Inv(s) && tid in s.mem.threads && s.mem.threads[tid] == MutationHeld(t) && t in s.db.auth
             && fault != RolledBack
    requires id in s.past.born && s.past.born[id].call.token == Some(t) && id !in s.past.claims
    ensures Closed(DoMutate(s, tid, auth, fault), id)
  {
    ChangeCommits(s, tid, t, auth, fault);
    assert Made(s.past.born, id);
    if id in s.db.rows { assert Stored(s.db.rows, id); }
  }

  /** Whatever happens afterwards, a request of the token that existed and had not been claimed when the change
      was committed is never executed. */
  lemma ChangeInvalidates(s: State, before: seq<Action>, tid: nat, t: Token, auth: Auth, fault: Fault,
      after: seq<Action>, id: Id)
    requires Init(s)
    requires var r := Run(s, before);
             tid in r.mem.threads && r.mem.threads[tid] == MutationHeld(t) && t in r.db.auth && fault != RolledBack
             && id in r.past.born && r.past.born[id].call.token == Some(t) && id !in r.past.claims
    ensures !Executed(id, Run(s, before + [Maintain(Mutate(tid, auth, fault))] + after).past.executions)
  {
    var first := before + [Maintain(Mutate(tid, auth, fault))];
    RunKeeps(s, before);
    ChangeCloses(Run(s, before), tid, t, auth, fault, id);
    assert first[..|before|] == before;
    assert Run(s, first) == DoMutate(Run(s, before), tid, auth, fault);
    ClosedForEver(Run(s, first), after, id);
    RunConcat(s, first, after);
    RunKeeps(s, first + after);
    ClosedUnexecuted(Run(s, first + after), id);
  }

  /** While the gate protects a validation, no authorization change can commit. */
  lemma ValidatedMeansGated(s: State, actions: seq<Action>, tid: nat, other: nat)
    requires Init(s)
    requires var r := Run(s, actions);
             tid in r.mem.threads && other in r.mem.threads
             && (r.mem.threads[tid].Snapshotting? || r.mem.threads[tid].ReadingClock? || r.mem.threads[tid].Claiming?)
    ensures !Run(s, actions).mem.threads[other].MutationHeld?
  {
    RunKeeps(s, actions);
    var r := Run(s, actions);
    assert Live(r.mem.threads, tid) && Live(r.mem.threads, other);
  }

  // ---------------------------------------------------------------- idempotency

  /** Two requests with the same principal scope and key exist only when the first was purged and its
      record forgotten before the second was created. */
  lemma KeyUsedOnce(s: State, actions: seq<Action>, i: Id, j: Id)
    requires Init(s)
    requires var b := Run(s, actions).past.born;
             i in b && j in b && i < j && KeyOf(b[i].call).Some? && KeyOf(b[i].call) == KeyOf(b[j].call)
    ensures var r := Run(s, actions);
            i in r.past.purged && i !in r.db.rows && r.past.born[j].at >= r.past.purged[i] + WINDOW
  {
    RunKeeps(s, actions);
    var r := Run(s, actions);
    assert Made(r.past.born, i) && Made(r.past.born, j);
  }

  /** Hence one key leads to one execution, until the first request's record is forgotten. */
  lemma KeyExecutedOnce(s: State, actions: seq<Action>, j: nat, k: nat)
    requires Init(s) && j < |Run(s, actions).past.executions| && k < |Run(s, actions).past.executions| && j != k
    ensures var r := Run(s, actions);
            var x := r.past.executions[j].id;
            var y := r.past.executions[k].id;
            x in r.past.born && y in r.past.born && x != y
            && (x < y && KeyOf(r.past.born[x].call).Some?
                && KeyOf(r.past.born[x].call) == KeyOf(r.past.born[y].call) ==>
                x in r.past.purged && r.past.born[y].at >= r.past.purged[x] + WINDOW)
  {
    RunKeeps(s, actions);
    var r := Run(s, actions);
    var x := r.past.executions[j].id;
    var y := r.past.executions[k].id;
    assert Nth(r.past.executions, j) && Nth(r.past.executions, k);
    assert Taken(r.past.claims, x) && Taken(r.past.claims, y);
    assert Made(r.past.born, x) && Made(r.past.born, y);
  }

  /** The request is stored, or was purged within the window, and carries the key. */
  ghost predicate OnRecord(s: State, k: ScopedKey, id: Id) {
    id in s.past.born && KeyOf(s.past.born[id].call) == Some(k)
    && (id in s.db.rows || (id in s.past.purged && s.clock < s.past.purged[id] + WINDOW))
  }

  ghost predicate KeyFree(s: State, k: ScopedKey) {
    forall id: Id :: !OnRecord(s, k, id)
  }

  lemma OneOnRecord(s: State, k: ScopedKey, i: Id, j: Id)
    requires Inv(s) && OnRecord(s, k, i) && OnRecord(s, k, j)
    ensures i == j
  {
    assert Made(s.past.born, i) && Made(s.past.born, j);
  }

  /** What is found under a key is on record. */
  lemma FoundIsOnRecord(s: State, k: ScopedKey)
    requires Inv(s) && Lookup(s, k).Some?
    ensures var found := Lookup(s, k).value;
            OnRecord(s, k, found.id) && found.identity == Identity(s.past.born[found.id].call)
  {
    if k in s.db.index {
      assert Carried(s.db.index, k);
      assert Stored(s.db.rows, s.db.index[k]);
    } else {
      assert Buried(s.db.tombstones, k);
      assert Made(s.past.born, s.db.tombstones[k].id);
    }
  }

  /** What is on record is found. */
  lemma OnRecordIsFound(s: State, k: ScopedKey, id: Id)
    requires Inv(s) && OnRecord(s, k, id)
    ensures Lookup(s, k).Some?
  {
    assert Made(s.past.born, id);
    if id in s.db.rows { assert Stored(s.db.rows, id); } else { assert Gone(s.past.purged, id); }
  }

  /** The record of a key is found exactly while a request with it is on record, of which there is one. */
  lemma LookupExact(s: State, k: ScopedKey, id: Id)
    requires Inv(s)
    ensures (Lookup(s, k).Some? && Lookup(s, k).value.id == id) <==> OnRecord(s, k, id)
    ensures OnRecord(s, k, id) ==> Lookup(s, k) == Some(Record(id, Identity(s.past.born[id].call)))
  {
    if OnRecord(s, k, id) { OnRecordIsFound(s, k, id); }
    if Lookup(s, k).Some? {
      FoundIsOnRecord(s, k);
      if OnRecord(s, k, id) { OneOnRecord(s, k, id, Lookup(s, k).value.id); }
    }
  }

  lemma NothingFound(s: State, k: ScopedKey)
    requires Inv(s)
    ensures Lookup(s, k).None? <==> KeyFree(s, k)
  {
    if Lookup(s, k).Some? { FoundIsOnRecord(s, k); }
    forall id: Id | OnRecord(s, k, id) ensures Lookup(s, k).Some? { OnRecordIsFound(s, k, id); }
  }

  /** In every run: a retry gets the recorded request if and only if it is the same call, is refused if and only
      if the record is another call's, and is taken up if and only if nothing is on record. */
  lemma AnswerExact(s: State, actions: seq<Action>, c: Call, id: Id)
    requires Init(s) && KeyOf(c).Some?
    ensures var r := Run(s, actions);
            var k := KeyOf(c).value;
            (AnswerTo(r, c) == Replayed(id) <==> OnRecord(r, k, id) && Identity(r.past.born[id].call) == Identity(c))
            && (AnswerTo(r, c) == Conflicting(id) <==>
                 OnRecord(r, k, id) && Identity(r.past.born[id].call) != Identity(c))
            && (AnswerTo(r, c) == Unrecorded <==> KeyFree(r, k))
  {
    RunKeeps(s, actions);
    AnswerAt(Run(s, actions), c, id);
  }

  lemma AnswerAt(s: State, c: Call, id: Id)
    requires Inv(s) && KeyOf(c).Some?
    ensures var k := KeyOf(c).value;
            (AnswerTo(s, c) == Replayed(id) <==> OnRecord(s, k, id) && Identity(s.past.born[id].call) == Identity(c))
            && (AnswerTo(s, c) == Conflicting(id) <==>
                 OnRecord(s, k, id) && Identity(s.past.born[id].call) != Identity(c))
            && (AnswerTo(s, c) == Unrecorded <==> KeyFree(s, k))
  {
    LookupExact(s, KeyOf(c).value, id);
    NothingFound(s, KeyOf(c).value);
  }

  /** A call with a key on record is answered, at the replay or at the insertion, and creates, claims and executes
      nothing. */
  lemma RetryIsAnswered(s: State, actions: seq<Action>, tid: nat)
    requires Init(s) && tid in Run(s, actions).mem.threads
    requires var t := Run(s, actions).mem.threads[tid];
             (t.Replaying? || t.Inserting?) && KeyOf(t.call).Some? && !KeyFree(Run(s, actions), KeyOf(t.call).value)
    ensures var r := Run(s, actions);
            var t := r.mem.threads[tid];
            var r' := if t.Replaying? then DoReplay(r, tid) else DoInsert(r, tid, Acknowledged);
            r'.db == r.db && r'.past == r.past && tid in r'.mem.threads
            && r'.mem.threads[tid] == Answered(t.call, AnswerTo(r, t.call)) && AnswerTo(r, t.call) != Unrecorded
  {
    RunKeeps(s, actions);
    NothingFound(Run(s, actions), KeyOf(Run(s, actions).mem.threads[tid].call).value);
  }

  /** An insertion with a key creates a request exactly when nothing is on record for it. */
  lemma InsertExactlyWhenFree(s: State, actions: seq<Action>, tid: nat)
    requires Init(s)
    requires var r := Run(s, actions);
             tid in r.mem.threads && r.mem.threads[tid].Inserting? && KeyOf(r.mem.threads[tid].call).Some?
    ensures var r := Run(s, actions);
            var k := KeyOf(r.mem.threads[tid].call).value;
            var r' := DoInsert(r, tid, Acknowledged);
            if KeyFree(r, k) then r'.past.born.Keys == r.past.born.Keys + {r.db.nextId} && r.db.nextId !in r.past.born
            else r'.past == r.past && r'.db == r.db
  {
    RunKeeps(s, actions);
    InsertsWhenFree(Run(s, actions), tid);
  }

  lemma InsertsWhenFree(s: State, tid: nat)
    requires Inv(s) && tid in s.mem.threads && s.mem.threads[tid].Inserting? && KeyOf(s.mem.threads[tid].call).Some?
    ensures var r := DoInsert(s, tid, Acknowledged);
            if KeyFree(s, KeyOf(s.mem.threads[tid].call).value)
            then r.past.born.Keys == s.past.born.Keys + {s.db.nextId} && s.db.nextId !in s.past.born
            else r.past == s.past && r.db == s.db
  {
    NothingFound(s, KeyOf(s.mem.threads[tid].call).value);
    assert s.db.nextId in s.past.born ==> Made(s.past.born, s.db.nextId);
  }

  /** In every run an answer that was given is true: a replay names an equal call, a conflict a different one. */
  lemma AnswersAreTrue(s: State, actions: seq<Action>, tid: nat)
    requires Init(s) && tid in Run(s, actions).mem.threads && Run(s, actions).mem.threads[tid].Answered?
    ensures var r := Run(s, actions); Truthful(r.mem.threads[tid].call, r.mem.threads[tid].answer, r.past.born)
  {
    RunKeeps(s, actions);
    assert Live(Run(s, actions).mem.threads, tid);
  }

  /** An answered call only returns: no action makes it execute anything. */
  lemma AnsweredOnlyReturns(s: State, a: Action, tid: nat)
    requires tid in s.mem.threads && s.mem.threads[tid].Answered?
    ensures tid in Do(s, a).mem.threads ==> Do(s, a).mem.threads[tid] == s.mem.threads[tid]
  {
    match a
    case Outside(event) =>
    case Enter(entering) => EnterLeaves(s, entering, tid);
    case Dispatch(dispatching) => DispatchLeaves(s, dispatching, tid);
    case Maintain(maintaining) => MaintainLeaves(s, maintaining, tid);
  }

  /** Thread `tid` is gone, or as it was. */
  ghost predicate Leaves(s: State, r: State, tid: nat)
    requires tid in s.mem.threads
  {
    tid in r.mem.threads ==> r.mem.threads[tid] == s.mem.threads[tid]
  }

  lemma AdmitLeaves(s: State, a: Entering, tid: nat)
    requires tid in s.mem.threads && s.mem.threads[tid].Answered?
    requires a.Spawn? || a.Acquire? || a.Replay? || a.Admit?
    ensures Leaves(s, DoEnter(s, a), tid)
  {
  }

  lemma InsertLeaves(s: State, a: Entering, tid: nat)
    requires tid in s.mem.threads && s.mem.threads[tid].Answered?
    requires a.Insert? || a.FinishBlocked? || a.PreparePending?
    ensures Leaves(s, DoEnter(s, a), tid)
  {
  }

  lemma ApproveLeaves(s: State, a: Entering, tid: nat)
    requires tid in s.mem.threads && s.mem.threads[tid].Answered?
    requires a.TrackPending? || a.MarkRunning? || a.FinishStale? || a.Decline?
    ensures Leaves(s, DoEnter(s, a), tid)
  {
  }

  lemma EnterLeaves(s: State, a: Entering, tid: nat)
    requires tid in s.mem.threads && s.mem.threads[tid].Answered?
    ensures Leaves(s, DoEnter(s, a), tid)
  {
    if a.Spawn? || a.Acquire? || a.Replay? || a.Admit? {
      AdmitLeaves(s, a, tid);
    } else if a.Insert? || a.FinishBlocked? || a.PreparePending? {
      InsertLeaves(s, a, tid);
    } else {
      ApproveLeaves(s, a, tid);
    }
  }

  lemma DispatchLeaves(s: State, a: Dispatching, tid: nat)
    requires tid in s.mem.threads && s.mem.threads[tid].Answered?
    ensures Leaves(s, DoDispatch(s, a), tid)
  {
  }

  lemma MaintainLeaves(s: State, a: Maintaining, tid: nat)
    requires tid in s.mem.threads && s.mem.threads[tid].Answered?
    ensures Leaves(s, DoMaintain(s, a), tid)
  {
  }

  // ---------------------------------------------------------------- audit and boundaries

  /** Over all retries, including commits that are reported as failures, a request has at most one report of
      its end in the log, and a report means that the row is finished. */
  lemma ReportedOnce(s: State, actions: seq<Action>, i: nat, j: nat)
    requires Init(s) && i < |Run(s, actions).db.audit| && j < |Run(s, actions).db.audit| && i != j
    requires Reports(Run(s, actions).db.audit[i]) && Reports(Run(s, actions).db.audit[j])
    ensures var r := Run(s, actions);
            r.db.audit[i].id != r.db.audit[j].id
            && (r.db.audit[i].id in r.db.rows ==> Terminal(r.db.rows[r.db.audit[i].id].status))
  {
    RunKeeps(s, actions);
    var r := Run(s, actions);
    assert Nth(r.db.audit, i) && Nth(r.db.audit, j);
  }

  /** In every interleaving the boundary map is empty once all calls and finalizers have ended. */
  lemma BoundariesDrain(s: State, actions: seq<Action>)
    requires Init(s) && Run(s, actions).mem.threads == map[]
    ensures Run(s, actions).mem.boundaries == {}
  {
    RunKeeps(s, actions);
    var r := Run(s, actions);
    forall id: Id | id in r.mem.boundaries ensures false {
      assert Kept(r.mem.boundaries, id);
    }
  }
}
