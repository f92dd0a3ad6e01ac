/** Every action of the protocol keeps the invariant, hence so does every run. */
module LifecycleSteps {
  import opened Wrappers
  import opened ActionStore
  import opened Lifecycle
  import opened LifecycleInvariant

  // ---------------------------------------------------------------- thread moves

  ghost predicate Fits(s: State, t: Thread) {
    Knows(t, s.clock, s.db.auth, s.past.born, s.past.claims, s.past.executions)
  }

  /** The thread goes on, keeping its place in the gate and its boundary. */
  lemma MoveKeeps(s: State, tid: nat, t: Thread)
    requires Inv(s) && tid in s.mem.threads && Fits(s, t) && GateOk(tid, t, s.mem.readers, s.mem.writer)
    requires Lineage(t).Some? ==> Lineage(s.mem.threads[tid]) == Lineage(t)
    requires Responsible(s, s.mem.threads[tid]).Some? ==> Responsible(s, t) == Responsible(s, s.mem.threads[tid])
    ensures Inv(Move(s, tid, t))
  {
    var s' := Move(s, tid, t);
    assert s'.mem.threads - {tid} == s.mem.threads - {tid};
    AdvanceKeeps(s, s', tid);
  }

  lemma EndKeeps(s: State, tid: nat)
    requires Inv(s) && tid in s.mem.threads
    requires Responsible(s, s.mem.threads[tid]).Some? ==> Responsible(s, s.mem.threads[tid]).value !in s.mem.boundaries
    ensures Inv(End(s, tid))
  {
    AdvanceKeeps(s, End(s, tid), tid);
  }

  lemma LeaveKeeps(s: State, tid: nat, id: Id, tracked: bool)
    requires Inv(s) && tid in s.mem.threads
    requires Responsible(s, s.mem.threads[tid]) == if tracked then Some(id) else None
    ensures Inv(Leave(s, tid, id, tracked))
  {
    if tracked {
      var s' := Leave(s, tid, id, true);
      assert s'.mem.threads - {tid} == s.mem.threads - {tid};
      AdvanceKeeps(s, s', tid);
    } else {
      EndKeeps(s, tid);
    }
  }

  lemma ThreadFits(s: State, tid: nat)
    requires Inv(s) && tid in s.mem.threads
    ensures Fits(s, s.mem.threads[tid]) && GateOk(tid, s.mem.threads[tid], s.mem.readers, s.mem.writer)
  {
    assert Live(s.mem.threads, tid);
  }

  /** A thread becomes the one executor of a request that has none. */
  lemma AppointKeeps(s: State, tid: nat, id: Id)
    requires Inv(s) && tid in s.mem.threads && Unclaimed(id, s.past.born, s.past.claims)
             && Free(id, s.mem.threads, s.db.rows)
    requires Responsible(s, s.mem.threads[tid]).Some? ==>
             Responsible(s, s.mem.threads[tid]) == Some(id) && Approved(s, id)
    ensures Inv(Move(Release(s, tid), tid, Executing(id)))
  {
    var s' := Move(Release(s, tid), tid, Executing(id));
    assert s'.mem.threads - {tid} == s.mem.threads - {tid};
    AdvanceKeeps(s, s', tid);
  }

  // ---------------------------------------------------------------- calls

  lemma BeginKeeps(s: State, tid: nat, t: Thread)
    requires Inv(s) && tid !in s.mem.threads && Fits(s, t) && GateOk(tid, t, s.mem.readers, s.mem.writer)
             && Lineage(t).None?
    ensures Inv(Move(s, tid, t))
  {
    var s' := Move(s, tid, t);
    assert s'.mem.threads - {tid} == s.mem.threads - {tid};
    AdvanceKeeps(s, s', tid);
  }

  lemma SpawnKeeps(s: State, tid: nat, t: Thread)
    requires Inv(s)
    ensures Inv(DoSpawn(s, tid, t))
  {
    if tid !in s.mem.threads && tid !in s.mem.readers && s.mem.writer != Some(tid) && Entry(s, t) {
      assert Fits(s, t) && GateOk(tid, t, s.mem.readers, s.mem.writer) && Lineage(t).None?;
      BeginKeeps(s, tid, t);
    }
  }

  /** Entering the gate on the shared side. */
  lemma EnterKeeps(s: State, tid: nat, t: Thread)
    requires Inv(s) && tid in s.mem.threads && s.mem.writer.None? && Fits(s, t) && !t.MutationHeld?
    requires Lineage(t).Some? ==> Lineage(s.mem.threads[tid]) == Lineage(t)
    requires Responsible(s, s.mem.threads[tid]).Some? ==> Responsible(s, t) == Responsible(s, s.mem.threads[tid])
    ensures Inv(Move(s.(mem := s.mem.(readers := s.mem.readers + {tid})), tid, t))
  {
    var s' := Move(s.(mem := s.mem.(readers := s.mem.readers + {tid})), tid, t);
    assert s'.mem.threads - {tid} == s.mem.threads - {tid};
    assert s'.mem.readers - {tid} == s.mem.readers - {tid};
    AdvanceKeeps(s, s', tid);
  }

  lemma AcquireKeeps(s: State, tid: nat)
    requires Inv(s)
    ensures Inv(DoAcquire(s, tid))
  {
    if tid in s.mem.threads {
      ThreadFits(s, tid);
      match s.mem.threads[tid]
      case Calling(c) =>
        if !Gated(c) { MoveKeeps(s, tid, Replaying(c)); }
        else if s.mem.writer.None? && s.mcpStarted { EnterKeeps(s, tid, Replaying(c)); }
        else if s.mem.writer.None? { EndKeeps(s, tid); }
      case Approving(id) => if s.mem.writer.None? { EnterKeeps(s, tid, Preparing(id)); }
      case Executing(id) => if s.mem.writer.None? { EnterKeeps(s, tid, Revalidating(id)); }
      case Declining(id) => if s.mem.writer.None? { EnterKeeps(s, tid, DeclineHeld(id)); }
      case _ =>
    }
  }

  /** The record a call finds is that of a request with its key. */
  lemma AnswerIsTrue(s: State, c: Call)
    requires Indexed(s.db.rows, s.db.index) && Table(s.db.rows, s.past.born, s.past.claims, s.db.nextId)
    requires Tombs(s.db.tombstones, s.past.born, s.past.purged)
    ensures Truthful(c, AnswerTo(s, c), s.past.born)
  {
    if KeyOf(c).Some? {
      var k := KeyOf(c).value;
      if k in s.db.index {
        assert Carried(s.db.index, k);
        assert Stored(s.db.rows, s.db.index[k]);
      } else if k in s.db.tombstones {
        assert Buried(s.db.tombstones, k);
      }
    }
  }

  lemma AnswerKeeps(s: State, tid: nat, c: Call)
    requires Inv(s) && tid in s.mem.threads && Responsible(s, s.mem.threads[tid]).None?
    ensures Inv(Move(Release(s, tid), tid, Answered(c, AnswerTo(s, c))))
  {
    AnswerIsTrue(s, c);
    var s' := Move(Release(s, tid), tid, Answered(c, AnswerTo(s, c)));
    assert s'.mem.threads - {tid} == s.mem.threads - {tid};
    AdvanceKeeps(s, s', tid);
  }

  lemma ReplayKeeps(s: State, tid: nat)
    requires Inv(s)
    ensures Inv(DoReplay(s, tid))
  {
    if tid in s.mem.threads && s.mem.threads[tid].Replaying? {
      ThreadFits(s, tid);
      var c := s.mem.threads[tid].call;
      if AnswerTo(s, c) == Unrecorded { MoveKeeps(s, tid, Admitting(c)); } else { AnswerKeeps(s, tid, c); }
    }
  }

  lemma AdmitToken(s: State, tid: nat, c: Call, a: Auth, payload: string)
    requires Inv(s) && tid in s.mem.threads && s.mem.threads[tid] == Admitting(c)
             && GateOk(tid, s.mem.threads[tid], s.mem.readers, s.mem.writer)
    requires c.token.Some? && c.token.value in s.db.auth && s.db.auth[c.token.value] == a && c.ref in s.world
    ensures var perm := Permission(a, c.ref, s.clock);
            Inv(Move(s, tid,
                Inserting(c, AdmissionStatus(perm),
                    Some(BuildContext(c.token.value, a, perm, c, payload, s.world[c.ref])), a.epoch)))
  {
    var perm := Permission(a, c.ref, s.clock);
    MoveKeeps(s, tid,
        Inserting(c, AdmissionStatus(perm), Some(BuildContext(c.token.value, a, perm, c, payload, s.world[c.ref])),
            a.epoch));
  }

  lemma AdmitKeeps(s: State, tid: nat, payload: string)
    requires Inv(s)
    ensures Inv(DoAdmit(s, tid, payload))
  {
    if tid in s.mem.threads && s.mem.threads[tid].Admitting? {
      ThreadFits(s, tid);
      var c := s.mem.threads[tid].call;
      if c.ref !in s.world || (c.token.Some? && c.token.value !in s.db.auth) { EndKeeps(s, tid); }
      else if c.token.None? { MoveKeeps(s, tid, Inserting(c, Running, None, 0)); }
      else { AdmitToken(s, tid, c, s.db.auth[c.token.value], payload); }
    }
  }

  lemma InsertKeeps(s: State, tid: nat, fault: Fault)
    requires Inv(s)
    ensures Inv(DoInsert(s, tid, fault))
  {
    if tid in s.mem.threads && s.mem.threads[tid].Inserting? {
      ThreadFits(s, tid);
      var t := s.mem.threads[tid];
      if fault == RolledBack {
        EndKeeps(s, tid);
      } else if AnswerTo(s, t.call) != Unrecorded {
        EndKeeps(s, tid);
        AnswerKeeps(s, tid, t.call);
      } else {
        CreatedKeeps(s, t);
        CreatedOn(s, tid, t, fault);
      }
    }
  }

  lemma CreatedOn(s: State, tid: nat, t: Thread, fault: Fault)
    requires tid in s.mem.threads && s.mem.threads[tid] == t && t.Inserting? && Inv(Created(s, t))
             && fault != RolledBack
    requires t.status == Running ==> Unclaimed(s.db.nextId, Created(s, t).past.born, s.past.claims)
    requires forall x: nat {:trigger Live(s.mem.threads, x)} ::
             Live(s.mem.threads, x) ==> Lineage(s.mem.threads[x]) != Some(s.db.nextId)
    ensures var c := Created(s, t);
            Inv(if fault == Ambiguous || t.status == ApprovalPending then End(c, tid)
                else if t.status == Running then Move(Release(c, tid), tid, Executing(s.db.nextId))
                else Move(c, tid, Blocking(s.db.nextId, FINISH_ATTEMPTS)))
  {
    var c := Created(s, t);
    if fault == Ambiguous || t.status == ApprovalPending {
      EndKeeps(c, tid);
    } else if t.status == Running {
      AppointKeeps(c, tid, s.db.nextId);
    } else {
      MoveKeeps(c, tid, Blocking(s.db.nextId, FINISH_ATTEMPTS));
    }
  }

  lemma BlockedOn(f: State, tid: nat, fault: Fault)
    requires Inv(f) && tid in f.mem.threads && f.mem.threads[tid].Blocking?
    ensures Inv(AfterBlocked(f, tid, f.mem.threads[tid], fault))
  {
    var t := f.mem.threads[tid];
    if fault == Acknowledged || t.left <= 1 {
      EndKeeps(f, tid);
    } else {
      MoveKeeps(f, tid, Blocking(t.id, t.left - 1));
    }
  }

  lemma FinishBlockedKeeps(s: State, tid: nat, fault: Fault)
    requires Inv(s)
    ensures Inv(DoFinishBlocked(s, tid, fault))
  {
    if tid in s.mem.threads && s.mem.threads[tid].Blocking? {
      var t := s.mem.threads[tid];
      FinishRowKeeps(s, t.id, {Blocked}, Blocked, OtherCause);
      BlockedOn(if fault == RolledBack then s else FinishRow(s, t.id, {Blocked}, Blocked, OtherCause), tid, fault);
    }
  }

  // ---------------------------------------------------------------- approvals

  lemma PreparePendingKeeps(s: State, tid: nat, payload: string)
    requires Inv(s)
    ensures Inv(DoPreparePending(s, tid, payload))
  {
    if tid in s.mem.threads && s.mem.threads[tid].Preparing? {
      var id := s.mem.threads[tid].id;
      if id !in s.db.rows || s.db.rows[id].status != ApprovalPending { EndKeeps(s, tid); }
      else if StillAuthorized(s, id, payload) { MoveKeeps(s, tid, Prepared(id)); }
      else { MoveKeeps(s, tid, Staling(id, false)); }
    }
  }

  /** Putting a boundary into the map while becoming responsible for it. */
  lemma TrackKeeps(s: State, tid: nat, id: Id, t: Thread)
    requires Inv(s) && tid in s.mem.threads && Fits(s, t) && GateOk(tid, t, s.mem.readers, s.mem.writer)
    requires Lineage(t).Some? ==> Lineage(s.mem.threads[tid]) == Lineage(t)
    requires Responsible(s, t) == Some(id)
    requires Responsible(s, s.mem.threads[tid]).Some? ==> Responsible(s, s.mem.threads[tid]) == Some(id)
    ensures Inv(Move(s.(mem := s.mem.(boundaries := s.mem.boundaries + {id})), tid, t))
  {
    var s' := Move(s.(mem := s.mem.(boundaries := s.mem.boundaries + {id})), tid, t);
    assert s'.mem.threads - {tid} == s.mem.threads - {tid};
    AdvanceKeeps(s, s', tid);
  }

  lemma TrackPendingKeeps(s: State, tid: nat)
    requires Inv(s)
    ensures Inv(DoTrackPending(s, tid))
  {
    if tid in s.mem.threads && s.mem.threads[tid].Prepared? {
      TrackKeeps(s, tid, s.mem.threads[tid].id, Marking(s.mem.threads[tid].id));
    }
  }

  lemma MarkRunningKeeps(s: State, tid: nat, fault: Fault)
    requires Inv(s)
    ensures Inv(DoMarkRunning(s, tid, fault))
  {
    if tid in s.mem.threads && s.mem.threads[tid].Marking? {
      var id := s.mem.threads[tid].id;
      if fault == RolledBack || id !in s.db.rows || !Markable(s.db.rows[id]) {
        LeaveKeeps(s, tid, id, true);
      } else {
        MarkKeeps(s, id);
        var m := SetRow(s, id, MarkedRunning(s.db.rows[id], s.mem.runtime, s.clock));
        if fault == Ambiguous { LeaveKeeps(m, tid, id, true); } else { AppointKeeps(m, tid, id); }
      }
    }
  }

  lemma StaleRowKeeps(s: State, id: Id)
    requires Inv(s) && id in s.db.rows
    ensures Inv(StaleRow(s, id))
  {
    var r := s.db.rows[id];
    if Terminal(r.status) {
      LogKeeps(s.db.audit, AuditEvent(id, Stale), s.db.rows, s.db.rows, s.past.born, s.past.claims);
      SettleKeeps(s, s.db.rows, s.db.audit + [AuditEvent(id, Stale)]);
      assert StaleRow(s, id) == s.(db := s.db.(rows := s.db.rows, audit := s.db.audit + [AuditEvent(id, Stale)]));
    } else {
      SettleOneKeeps(s, id, Settle(r, Stale, OtherCause, s.clock));
    }
  }

  lemma FinishStaleKeeps(s: State, tid: nat, fault: Fault)
    requires Inv(s)
    ensures Inv(DoFinishStale(s, tid, fault))
  {
    if tid in s.mem.threads && s.mem.threads[tid].Staling? {
      var t := s.mem.threads[tid];
      var f := if fault == RolledBack || t.id !in s.db.rows then s else StaleRow(s, t.id);
      if t.id in s.db.rows { StaleRowKeeps(s, t.id); }
      assert Responsible(f, f.mem.threads[tid]) == if t.tracked then Some(t.id) else None;
      LeaveKeeps(f, tid, t.id, t.tracked);
    }
  }

  // ---------------------------------------------------------------- execution

  lemma RevalidateKeeps(s: State, tid: nat, payload: string, readable: bool)
    requires Inv(s)
    ensures Inv(DoRevalidate(s, tid, payload, readable))
  {
    if tid in s.mem.threads && s.mem.threads[tid].Revalidating? && s.mem.threads[tid].id in s.past.born {
      ThreadFits(s, tid);
      var id := s.mem.threads[tid].id;
      var b := s.past.born[id];
      var stopped := Gated(b.call) && !s.mcpStarted;
      if readable && !stopped && b.call.ref in s.world && b.call.token.None? {
        MoveKeeps(s, tid, Snapshotting(id, Validation(payload, s.world[b.call.ref], s.clock, None, None)));
      } else if readable && !stopped && StillAuthorized(s, id, payload) {
        MoveKeeps(s, tid,
            Snapshotting(id,
                Validation(payload, s.world[b.call.ref], s.clock, Some(s.db.auth[b.call.token.value]), b.context)));
      } else if Approved(s, id) && readable {
        MoveKeeps(s, tid, Staling(id, true));
      } else {
        MoveKeeps(s, tid, Finishing(id, Failed, OtherCause, FINISH_ATTEMPTS, Approved(s, id)));
      }
    }
  }

  lemma SnapshotKeeps(s: State, tid: nat, readable: bool)
    requires Inv(s)
    ensures Inv(DoSnapshot(s, tid, readable))
  {
    if tid in s.mem.threads && s.mem.threads[tid].Snapshotting? {
      ThreadFits(s, tid);
      var t := s.mem.threads[tid];
      if readable { TrackKeeps(s, tid, t.id, ReadingClock(t.id, t.valid)); }
      else if Approved(s, t.id) { MoveKeeps(s, tid, Staling(t.id, true)); }
      else { MoveKeeps(s, tid, Finishing(t.id, Failed, OtherCause, FINISH_ATTEMPTS, false)); }
    }
  }

  lemma ReadClockKeeps(s: State, tid: nat)
    requires Inv(s)
    ensures Inv(DoReadClock(s, tid))
  {
    if tid in s.mem.threads {
      ThreadFits(s, tid);
      match s.mem.threads[tid]
      case ReadingClock(id, valid) => MoveKeeps(s, tid, Claiming(id, valid, s.clock));
      case Waking => MoveKeeps(s, tid, Listing(s.clock));
      case _ =>
    }
  }

  /** While the claimant steps aside no other thread is in the way of its claim. */
  lemma AsideIsFree(s: State, tid: nat)
    requires Inv(s) && tid in s.mem.threads && s.mem.threads[tid].Claiming?
    ensures var id := s.mem.threads[tid].id;
            forall x: nat {:trigger Live(Leave(s, tid, id, true).mem.threads, x)} ::
              Live(Leave(s, tid, id, true).mem.threads, x) ==>
                Lineage(Leave(s, tid, id, true).mem.threads[x]) != Some(id)
  {
    var id := s.mem.threads[tid].id;
    var aside := Leave(s, tid, id, true);
    assert Live(s.mem.threads, tid);
    forall x: nat | Live(aside.mem.threads, x) ensures Lineage(aside.mem.threads[x]) != Some(id) {
      assert x != tid ==> Live(s.mem.threads, x);
    }
  }

  /** Winning and stepping aside commute. */
  lemma WonAside(s: State, tid: nat)
    requires tid in s.mem.threads && s.mem.threads[tid].Claiming?
    requires s.mem.threads[tid].id in s.db.rows && s.mem.threads[tid].id in s.past.born
    ensures var t := s.mem.threads[tid];
            var won := Won(Leave(s, tid, t.id, true), t.id, t.valid, t.now);
            var w := Won(s, t.id, t.valid, t.now);
            Leave(w, tid, t.id, true) == won
            && Move(Release(w, tid), tid, Dispatched(t.id, t.valid)) == Move(won, tid, Dispatched(t.id, t.valid))
  {
  }

  /** The winner takes up the request from the side. */
  lemma TakeUpKeeps(s: State, tid: nat, id: Id, valid: Validation)
    requires Inv(s) && tid in s.mem.threads && s.mem.threads[tid] == Clearing(id) && Free(id, s.mem.threads, s.db.rows)
    requires id in s.past.claims && s.past.claims[id].valid == valid && !Executed(id, s.past.executions)
    ensures Inv(Move(s, tid, Dispatched(id, valid)))
  {
    var d := Move(s, tid, Dispatched(id, valid));
    assert d.mem.threads - {tid} == s.mem.threads - {tid};
    AdvanceKeeps(s, d, tid);
  }

  lemma ClaimKeeps(s: State, tid: nat)
    requires Inv(s) && tid in s.mem.threads && s.mem.threads[tid].Claiming?
    requires s.mem.threads[tid].id in s.db.rows && s.mem.threads[tid].id in s.past.born
    requires Claimable(s.db.rows[s.mem.threads[tid].id], s.mem.runtime, s.mem.threads[tid].now)
    ensures var t := s.mem.threads[tid];
            var w := Won(s, t.id, t.valid, t.now);
            Inv(Leave(w, tid, t.id, true)) && Inv(Move(Release(w, tid), tid, Dispatched(t.id, t.valid)))
  {
    var t := s.mem.threads[tid];
    ThreadFits(s, tid);
    AsideIsFree(s, tid);
    var aside := Leave(s, tid, t.id, true);
    LeaveKeeps(s, tid, t.id, true);
    WonKeeps(aside, t.id, t.valid, t.now);
    WonAside(s, tid);
    TakeUpKeeps(Won(aside, t.id, t.valid, t.now), tid, t.id, t.valid);
  }

  lemma BeginDispatchKeeps(s: State, tid: nat, fault: Fault)
    requires Inv(s)
    ensures Inv(DoBeginDispatch(s, tid, fault))
  {
    if tid in s.mem.threads && s.mem.threads[tid].Claiming? {
      ThreadFits(s, tid);
      var t := s.mem.threads[tid];
      if fault == RolledBack || t.id !in s.db.rows || t.id !in s.past.born { LeaveKeeps(s, tid, t.id, true); }
      else if !Claimable(s.db.rows[t.id], s.mem.runtime, t.now) { MoveKeeps(s, tid, Refused(t.id, t.now)); }
      else { ClaimKeeps(s, tid); }
    }
  }

  lemma ExplainRefusalKeeps(s: State, tid: nat)
    requires Inv(s)
    ensures Inv(DoExplainRefusal(s, tid))
  {
    if tid in s.mem.threads && s.mem.threads[tid].Refused? {
      ThreadFits(s, tid);
      var t := s.mem.threads[tid];
      LeaveKeeps(s, tid, t.id, true);
      MoveKeeps(s, tid, Finishing(t.id, Failed, LeaseExpiredBeforeDispatch, FINISH_ATTEMPTS, true));
    }
  }

  /** Past the call, no thread is dispatched for the request any more. */
  lemma PastCall(s: State, tid: nat, outcome: Outcome)
    requires Inv(s) && tid in s.mem.threads && s.mem.threads[tid].Dispatched?
    ensures var id := s.mem.threads[tid].id;
            var m := Move(s, tid, AfterExecution(id, outcome));
            Inv(m) && forall x: nat {:trigger Live(m.mem.threads, x)} ::
              Live(m.mem.threads, x) ==> !(m.mem.threads[x].Dispatched? && m.mem.threads[x].id == id)
  {
    var id := s.mem.threads[tid].id;
    var t' := AfterExecution(id, outcome);
    ThreadFits(s, tid);
    MoveKeeps(s, tid, t');
    var m := Move(s, tid, t');
    forall x: nat | Live(m.mem.threads, x) ensures !(m.mem.threads[x].Dispatched? && m.mem.threads[x].id == id) {
      assert Live(s.mem.threads, tid);
      assert x != tid ==> Live(s.mem.threads, x);
    }
  }

  lemma ExecuteKeeps(s: State, tid: nat, outcome: Outcome)
    requires Inv(s)
    ensures Inv(DoExecute(s, tid, outcome))
  {
    if tid in s.mem.threads && s.mem.threads[tid].Dispatched? {
      ThreadFits(s, tid);
      PastCall(s, tid, outcome);
      var t := s.mem.threads[tid];
      CallKeeps(Move(s, tid, AfterExecution(t.id, outcome)), t.id, t.valid);
    }
  }

  lemma LaunchKeeps(s: State, tid: nat)
    requires Inv(s)
    ensures Inv(DoLaunch(s, tid))
  {
    if tid in s.mem.threads && s.mem.threads[tid].Launching? {
      var id := s.mem.threads[tid].id;
      MoveKeeps(s, tid, Finishing(id, OutcomeUnknown, OtherCause, FINISH_ATTEMPTS, true));
      MoveKeeps(s, tid, Finalizing(id));
    }
  }

  lemma FinalizeKeeps(s: State, tid: nat, status: Option<Status>)
    requires Inv(s)
    ensures Inv(DoFinalize(s, tid, status))
  {
    if tid in s.mem.threads && s.mem.threads[tid].Finalizing? {
      var id := s.mem.threads[tid].id;
      if status.Some? && status.value in {Completed, Failed, OutcomeUnknown} {
        MoveKeeps(s, tid, Finishing(id, status.value, OtherCause, FINISH_ATTEMPTS, true));
      } else {
        MoveKeeps(s, tid, Clearing(id));
      }
    }
  }

  lemma FinishOn(f: State, tid: nat, fault: Fault)
    requires Inv(f) && tid in f.mem.threads && f.mem.threads[tid].Finishing?
    ensures Inv(AfterFinish(f, tid, f.mem.threads[tid], fault))
  {
    var t := f.mem.threads[tid];
    ThreadFits(f, tid);
    if fault == Acknowledged || t.left <= 1 {
      LeaveKeeps(f, tid, t.id, t.tracked);
    } else {
      MoveKeeps(f, tid, Finishing(t.id, t.status, t.cause, t.left - 1, t.tracked));
    }
  }

  lemma FinishKeeps(s: State, tid: nat, fault: Fault)
    requires Inv(s)
    ensures Inv(DoFinish(s, tid, fault))
  {
    if tid in s.mem.threads && s.mem.threads[tid].Finishing? {
      ThreadFits(s, tid);
      var t := s.mem.threads[tid];
      FinishRowKeeps(s, t.id, {Running}, t.status, t.cause);
      FinishOn(if fault == RolledBack then s else FinishRow(s, t.id, {Running}, t.status, t.cause), tid, fault);
    }
  }

  lemma ClearKeeps(s: State, tid: nat)
    requires Inv(s)
    ensures Inv(DoClear(s, tid))
  {
    if tid in s.mem.threads && s.mem.threads[tid].Clearing? {
      AdvanceKeeps(s, DoClear(s, tid), tid);
    }
  }

  lemma DeclineKeeps(s: State, tid: nat, fault: Fault)
    requires Inv(s)
    ensures Inv(DoDecline(s, tid, fault))
  {
    if tid in s.mem.threads && s.mem.threads[tid].DeclineHeld? {
      var id := s.mem.threads[tid].id;
      FinishRowKeeps(s, id, {ApprovalPending}, Declined, OtherCause);
      EndKeeps(if fault == RolledBack then s else FinishRow(s, id, {ApprovalPending}, Declined, OtherCause), tid);
    }
  }

  // ---------------------------------------------------------------- recovery, authorization, maintenance

  lemma ListExpiredKeeps(s: State, tid: nat, ids: seq<Id>)
    requires Inv(s)
    ensures Inv(DoListExpired(s, tid, ids))
  {
    if tid in s.mem.threads && s.mem.threads[tid].Listing? {
      MoveKeeps(s, tid, Recovering(s.mem.threads[tid].now, ids));
    }
  }

  lemma CheckBoundaryKeeps(s: State, tid: nat)
    requires Inv(s)
    ensures Inv(DoCheckBoundary(s, tid))
  {
    if tid in s.mem.threads && s.mem.threads[tid].Recovering? {
      var t := s.mem.threads[tid];
      if t.ids == [] { EndKeeps(s, tid); }
      else if t.ids[0] in s.mem.boundaries { MoveKeeps(s, tid, Recovering(t.now, t.ids[1..])); }
      else { MoveKeeps(s, tid, Checked(t.now, t.ids[0], t.ids[1..])); }
    }
  }

  lemma PersistRecoveryKeeps(s: State, tid: nat, fault: Fault)
    requires Inv(s)
    ensures Inv(DoPersistRecovery(s, tid, fault))
  {
    if tid in s.mem.threads && s.mem.threads[tid].Checked? {
      var t := s.mem.threads[tid];
      RecoverRowKeeps(s, t.id, t.now);
      MoveKeeps(if fault == RolledBack then s else RecoverRow(s, t.id, t.now), tid, Recovering(t.now, t.ids));
    }
  }

  lemma AcquireExclusiveKeeps(s: State, tid: nat)
    requires Inv(s)
    ensures Inv(DoAcquireExclusive(s, tid))
  {
    if tid in s.mem.threads && s.mem.threads[tid].Mutating? && s.mem.readers == {} && s.mem.writer.None? {
      var s' := DoAcquireExclusive(s, tid);
      assert s'.mem.threads - {tid} == s.mem.threads - {tid};
      AdvanceKeeps(s, s', tid);
    }
  }

  lemma AuthorizationKeeps(s: State, tid: nat, auth: Auth, fault: Fault)
    requires Inv(s)
    ensures Inv(DoMutate(s, tid, auth, fault))
  {
    if tid in s.mem.threads && s.mem.threads[tid].MutationHeld? {
      ThreadFits(s, tid);
      var t := s.mem.threads[tid].token;
      if t in s.db.auth { MutateKeeps(s, t, auth); }
      EndKeeps(if t !in s.db.auth || fault == RolledBack then s else Mutated(s, t, auth), tid);
    }
  }

  lemma InvalidateKeeps(s: State, target: nat, profile: Option<nat>, includeRunning: bool)
    requires Inv(s)
    ensures Inv(s.(db := s.db.(rows := InvalidatedForTarget(s.db.rows, target, profile, includeRunning, s.clock))))
  {
    SettleQuietlyKeeps(s, InvalidatedForTarget(s.db.rows, target, profile, includeRunning, s.clock));
  }

  lemma AbortKeeps(s: State, tid: nat)
    requires Inv(s)
    ensures Inv(DoAbort(s, tid))
  {
    if tid in s.mem.threads && !s.mem.threads[tid].Clearing? {
      var tracked := Responsible(s, s.mem.threads[tid]);
      if tracked.Some? { LeaveKeeps(s, tid, tracked.value, true); } else { EndKeeps(s, tid); }
    }
  }

  lemma RestartKeeps(s: State)
    requires Inv(s)
    ensures Inv(DoRestart(s))
  {
  }

  /** Parts of the state that the invariant does not mention may change freely. */
  lemma ElsewhereKeeps(s: State, s': State)
    requires Inv(s)
    requires s'
             == s.(mcpStarted := s'.mcpStarted, world := s'.world, db := s.db.(leases := s'.db.leases),
                 mem := s.mem.(finalizersClosed := s'.mem.finalizersClosed))
    ensures Inv(s')
  {
    SameOwners(s, s');
  }

  // ---------------------------------------------------------------- every action, every run

  lemma EnterStepKeeps(s: State, a: Entering)
    requires Inv(s)
    ensures Inv(DoEnter(s, a))
  {
    match a
    case Spawn(tid, t) => SpawnKeeps(s, tid, t);
    case Acquire(tid) => AcquireKeeps(s, tid);
    case Replay(tid) => ReplayKeeps(s, tid);
    case Admit(tid, payload) => AdmitKeeps(s, tid, payload);
    case Insert(tid, fault) => InsertKeeps(s, tid, fault);
    case FinishBlocked(tid, fault) => FinishBlockedKeeps(s, tid, fault);
    case PreparePending(tid, payload) => PreparePendingKeeps(s, tid, payload);
    case TrackPending(tid) => TrackPendingKeeps(s, tid);
    case MarkRunning(tid, fault) => MarkRunningKeeps(s, tid, fault);
    case FinishStale(tid, fault) => FinishStaleKeeps(s, tid, fault);
    case Decline(tid, fault) => DeclineKeeps(s, tid, fault);
  }

  lemma DispatchStepKeeps(s: State, a: Dispatching)
    requires Inv(s)
    ensures Inv(DoDispatch(s, a))
  {
    match a
    case Revalidate(tid, payload, readable) => RevalidateKeeps(s, tid, payload, readable);
    case Snapshot(tid, readable) => SnapshotKeeps(s, tid, readable);
    case ReadClock(tid) => ReadClockKeeps(s, tid);
    case BeginDispatch(tid, fault) => BeginDispatchKeeps(s, tid, fault);
    case ExplainRefusal(tid) => ExplainRefusalKeeps(s, tid);
    case Execute(tid, outcome) => ExecuteKeeps(s, tid, outcome);
    case Launch(tid) => LaunchKeeps(s, tid);
    case Finalize(tid, status) => FinalizeKeeps(s, tid, status);
    case Finish(tid, fault) => FinishKeeps(s, tid, fault);
    case ClearBoundary(tid) => ClearKeeps(s, tid);
    case Abort(tid) => AbortKeeps(s, tid);
  }

  lemma MaintainStepKeeps(s: State, a: Maintaining)
    requires Inv(s)
    ensures Inv(DoMaintain(s, a))
  {
    match a
    case ListExpired(tid, ids) => ListExpiredKeeps(s, tid, ids);
    case CheckBoundary(tid) => CheckBoundaryKeeps(s, tid);
    case PersistRecovery(tid, fault) => PersistRecoveryKeeps(s, tid, fault);
    case AcquireExclusive(tid) => AcquireExclusiveKeeps(s, tid);
    case Mutate(tid, auth, fault) => AuthorizationKeeps(s, tid, auth, fault);
    case InvalidateTarget(target, profile, includeRunning) => InvalidateKeeps(s, target, profile, includeRunning);
    case CloseFinalizers => ElsewhereKeeps(s, s.(mem := s.mem.(finalizersClosed := true)));
    case MarkRunningUnknown(ids) => MarkRunningUnknownKeeps(s, ids);
    case Purge(id) => PurgeKeeps(s, id);
    case PurgeTombstone(k) =>
      if k in s.db.tombstones && s.db.tombstones[k].expires <= s.clock { PurgeTombstoneKeeps(s, k); }
    case Restart => RestartKeeps(s);
  }

  lemma OutsideStepKeeps(s: State, a: Event)
    requires Inv(s)
    ensures Inv(DoOutside(s, a))
  {
    if a.Tick? { TickKeeps(s, a.seconds); }
    else if a.CreateToken? { if a.token !in s.db.auth { CreateTokenKeeps(s, a.token, a.auth); } }
    else { ElsewhereKeeps(s, DoOutside(s, a)); }
  }

  lemma StepKeeps(s: State, a: Action)
    requires Inv(s)
    ensures Inv(Do(s, a))
  {
    match a
    case Outside(event) => OutsideStepKeeps(s, event);
    case Enter(entering) => EnterStepKeeps(s, entering);
    case Dispatch(dispatching) => DispatchStepKeeps(s, dispatching);
    case Maintain(maintaining) => MaintainStepKeeps(s, maintaining);
  }

  lemma {:induction false} RunKeeps(s: State, actions: seq<Action>)
    requires Init(s)
    ensures Inv(Run(s, actions))
    decreases |actions|
  {
    if actions == [] {
      InitHolds(s);
    } else {
      var n := |actions| - 1;
      RunKeeps(s, actions[..n]);
      StepKeeps(Run(s, actions[..n]), actions[n]);
    }
  }

  lemma InitHolds(s: State)
    requires Init(s)
    ensures Inv(s)
  {
  }
}
