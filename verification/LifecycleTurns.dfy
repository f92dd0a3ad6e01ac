/** What one turn of a thread can do to the boundary map, to the leases of claimed rows and to the other
    threads. */
module LifecycleTurns {
  import opened Wrappers
  import opened ActionStore
  import opened Lifecycle

  /** Where a thread may go in one action, as far as recovery and the boundary map are concerned. */
  ghost predicate Hop(s: State, r: State, was: Option<Thread>, t: Thread) {
    was != Some(t) ==>
      if t.Listing? then t.now == s.clock
      else if t.Recovering? then was.Some? && (was.value.Listing? || was.value.Recovering? || was.value.Checked?)
        && was.value.now == t.now
      else if t.Checked? then was.Some? && was.value.Recovering? && was.value.now == t.now && t.id !in s.mem.boundaries
      else if t.Claiming? then was.Some? && was.value.ReadingClock? && was.value.id == t.id && t.now == s.clock
      else if t.Prepared? then was == Some(Preparing(t.id)) && t.id in s.db.rows
        && s.db.rows[t.id].status == ApprovalPending
      else if t.Marking? then was == Some(Prepared(t.id)) && t.id in r.mem.boundaries
      else
        Responsible(r, t).Some? ==>
          was.Some?
          && (Responsible(s, was.value) == Responsible(r, t)
              || (Responsible(r, t).value in r.mem.boundaries && was.value.Snapshotting?
                   && Responsible(r, t) == Some(was.value.id)))
  }

  function ThreadOf(s: State, tid: nat): Option<Thread> {
    if tid in s.mem.threads then Some(s.mem.threads[tid]) else None
  }

  predicate IsClaimed(s: State, id: Id) {
    id in s.db.rows && s.db.rows[id].status == Running && s.db.rows[id].dispatchedAt.Some?
  }

  ghost predicate Claims(s: State, tid: nat, id: Id) {
    tid in s.mem.threads && s.mem.threads[tid].Claiming? && s.mem.threads[tid].id == id
  }

  /** A claim, and the lease of a claimed row, come only from the claiming thread; births do not change. */
  ghost predicate RequestStep(s: State, r: State, tid: nat, id: Id) {
    (IsClaimed(r, id) ==>
       (IsClaimed(s, id) && r.db.rows[id].lease == s.db.rows[id].lease)
       || (Claims(s, tid, id) && r.db.rows[id].lease == Some(s.mem.threads[tid].now + LEASE)))
    && (id in r.past.claims ==> id in s.past.claims || Claims(s, tid, id))
    && (id < s.db.nextId && id in s.past.born ==> id in r.past.born && r.past.born[id] == s.past.born[id])
  }

  /** An action of one thread: the others stay, and a boundary is removed only by the thread that clears it
      and ends. */
  ghost predicate Turn(s: State, r: State, tid: nat) {
    (forall x: nat {:trigger Seen(x)} :: Seen(x) && x != tid ==> ThreadOf(r, x) == ThreadOf(s, x))
    && (tid in r.mem.threads ==> Hop(s, r, ThreadOf(s, tid), r.mem.threads[tid]))
    && (forall id: Id {:trigger Seen(id)} :: Seen(id) && id in s.mem.boundaries ==>
          id in r.mem.boundaries || (ThreadOf(s, tid) == Some(Clearing(id)) && tid !in r.mem.threads))
    && (forall id: Id {:trigger Seen(id)} :: Seen(id) ==> RequestStep(s, r, tid, id))
    && r.clock == s.clock
  }

  /** The part of a turn that happens before the thread moves: rows and boundaries, not threads. */
  ghost predicate Prelude(s: State, m: State, tid: nat) {
    m.mem.threads == s.mem.threads && m.clock == s.clock && s.mem.boundaries <= m.mem.boundaries
    && forall id: Id {:trigger Seen(id)} :: Seen(id) ==> RequestStep(s, m, tid, id)
  }

  lemma MoveTurn(s: State, m: State, tid: nat, t: Thread)
    requires Prelude(s, m, tid) && Hop(s, m, ThreadOf(s, tid), t)
    ensures Turn(s, Move(m, tid, t), tid) && Turn(s, Move(Release(m, tid), tid, t), tid)
  {
    HopSame(s, m, Move(m, tid, t), tid, t);
    HopSame(s, m, Move(Release(m, tid), tid, t), tid, t);
  }

  lemma HopSame(s: State, m: State, r: State, tid: nat, t: Thread)
    requires Hop(s, m, ThreadOf(s, tid), t) && r.past == m.past && r.mem.boundaries == m.mem.boundaries
    ensures Hop(s, r, ThreadOf(s, tid), t)
  {
    assert Responsible(r, t) == Responsible(m, t);
  }

  lemma EndTurn(s: State, m: State, tid: nat)
    requires Prelude(s, m, tid)
    ensures Turn(s, End(m, tid), tid)
  {
  }

  lemma LeaveTurn(s: State, m: State, tid: nat, id: Id, tracked: bool)
    requires Prelude(s, m, tid)
    requires tracked ==> tid in s.mem.threads && Responsible(s, s.mem.threads[tid]) == Some(id)
    ensures Turn(s, Leave(m, tid, id, tracked), tid)
  {
    if tracked { MoveTurn(s, m, tid, Clearing(id)); } else { EndTurn(s, m, tid); }
  }

  lemma SpawnTurn(s: State, tid: nat, t: Thread)
    ensures Turn(s, DoSpawn(s, tid, t), tid)
  {
  }

  lemma AcquireTurn(s: State, tid: nat)
    ensures Turn(s, DoAcquire(s, tid), tid)
  {
    if tid in s.mem.threads && DoAcquire(s, tid) != s {
      var t := s.mem.threads[tid];
      var h := s.(mem := s.mem.(readers := s.mem.readers + {tid}));
      if t.Calling? {
        EndTurn(s, s, tid);
        MoveTurn(s, s, tid, Replaying(t.call));
        MoveTurn(s, h, tid, Replaying(t.call));
      } else {
        MoveTurn(s, h, tid, if t.Approving? then Preparing(t.id) else if t.Executing? then Revalidating(t.id)
            else DeclineHeld(t.id));
      }
    }
  }

  lemma ReplayTurn(s: State, tid: nat)
    ensures Turn(s, DoReplay(s, tid), tid)
  {
  }

  lemma AdmitTurn(s: State, tid: nat, payload: string)
    ensures Turn(s, DoAdmit(s, tid, payload), tid)
  {
  }

  lemma InsertTurn(s: State, tid: nat, fault: Fault)
    ensures Turn(s, DoInsert(s, tid, fault), tid)
  {
    if tid in s.mem.threads && s.mem.threads[tid].Inserting? {
      var t := s.mem.threads[tid];
      EndTurn(s, s, tid);
      MoveTurn(s, s, tid, Answered(t.call, AnswerTo(s, t.call)));
      if fault != RolledBack && AnswerTo(s, t.call) == Unrecorded {
        var c := Created(s, t);
        EndTurn(s, c, tid);
        if t.status == Running { MoveTurn(s, c, tid, Executing(s.db.nextId)); }
        MoveTurn(s, c, tid, Blocking(s.db.nextId, FINISH_ATTEMPTS));
      }
    }
  }

  lemma FinishBlockedTurn(s: State, tid: nat, fault: Fault)
    ensures Turn(s, DoFinishBlocked(s, tid, fault), tid)
  {
    if tid in s.mem.threads && s.mem.threads[tid].Blocking? {
      var t := s.mem.threads[tid];
      var f := if fault == RolledBack then s else FinishRow(s, t.id, {Blocked}, Blocked, OtherCause);
      EndTurn(s, f, tid);
      if t.left > 1 { MoveTurn(s, f, tid, Blocking(t.id, t.left - 1)); }
    }
  }

  lemma PreparePendingTurn(s: State, tid: nat, payload: string)
    ensures Turn(s, DoPreparePending(s, tid, payload), tid)
  {
    if tid in s.mem.threads && s.mem.threads[tid].Preparing? {
      var id := s.mem.threads[tid].id;
      EndTurn(s, s, tid);
      if id in s.db.rows && s.db.rows[id].status == ApprovalPending {
        MoveTurn(s, s, tid, Prepared(id));
        MoveTurn(s, s, tid, Staling(id, false));
      }
    }
  }

  lemma TrackPendingTurn(s: State, tid: nat)
    ensures Turn(s, DoTrackPending(s, tid), tid)
  {
  }

  lemma MarkRunningTurn(s: State, tid: nat, fault: Fault)
    ensures Turn(s, DoMarkRunning(s, tid, fault), tid)
  {
    if tid in s.mem.threads && s.mem.threads[tid].Marking? {
      var id := s.mem.threads[tid].id;
      LeaveTurn(s, s, tid, id, true);
      if id in s.db.rows && Markable(s.db.rows[id]) {
        var m := SetRow(s, id, MarkedRunning(s.db.rows[id], s.mem.runtime, s.clock));
        LeaveTurn(s, m, tid, id, true);
        MoveTurn(s, m, tid, Executing(id));
      }
    }
  }

  lemma FinishStaleTurn(s: State, tid: nat, fault: Fault)
    ensures Turn(s, DoFinishStale(s, tid, fault), tid)
  {
    if tid in s.mem.threads && s.mem.threads[tid].Staling? {
      var t := s.mem.threads[tid];
      LeaveTurn(s, if fault == RolledBack || t.id !in s.db.rows then s else StaleRow(s, t.id), tid, t.id, t.tracked);
    }
  }

  lemma RevalidateTurn(s: State, tid: nat, payload: string, readable: bool)
    ensures Turn(s, DoRevalidate(s, tid, payload, readable), tid)
  {
    if tid in s.mem.threads && s.mem.threads[tid].Revalidating? && s.mem.threads[tid].id in s.past.born {
      MoveTurn(s, s, tid, DoRevalidate(s, tid, payload, readable).mem.threads[tid]);
    }
  }

  lemma SnapshotTurn(s: State, tid: nat, readable: bool)
    ensures Turn(s, DoSnapshot(s, tid, readable), tid)
  {
  }

  lemma ReadClockTurn(s: State, tid: nat)
    ensures Turn(s, DoReadClock(s, tid), tid)
  {
  }

  lemma WonTurn(s: State, tid: nat)
    requires tid in s.mem.threads && s.mem.threads[tid].Claiming?
    requires s.mem.threads[tid].id in s.db.rows && s.mem.threads[tid].id in s.past.born
    ensures var t := s.mem.threads[tid];
            var w := Won(s, t.id, t.valid, t.now);
            Turn(s, Leave(w, tid, t.id, true), tid)
              && Turn(s, Move(Release(w, tid), tid, Dispatched(t.id, t.valid)), tid)
  {
    var t := s.mem.threads[tid];
    var w := Won(s, t.id, t.valid, t.now);
    LeaveTurn(s, w, tid, t.id, true);
    MoveTurn(s, w, tid, Dispatched(t.id, t.valid));
  }

  lemma BeginDispatchTurn(s: State, tid: nat, fault: Fault)
    ensures Turn(s, DoBeginDispatch(s, tid, fault), tid)
  {
    if tid in s.mem.threads && s.mem.threads[tid].Claiming? {
      var t := s.mem.threads[tid];
      LeaveTurn(s, s, tid, t.id, true);
      MoveTurn(s, s, tid, Refused(t.id, t.now));
      if t.id in s.db.rows && t.id in s.past.born && Claimable(s.db.rows[t.id], s.mem.runtime, t.now) {
        WonTurn(s, tid);
      }
    }
  }

  lemma ExplainRefusalTurn(s: State, tid: nat)
    ensures Turn(s, DoExplainRefusal(s, tid), tid)
  {
  }

  lemma ExecuteTurn(s: State, tid: nat, outcome: Outcome)
    ensures Turn(s, DoExecute(s, tid, outcome), tid)
  {
  }

  lemma LaunchTurn(s: State, tid: nat)
    ensures Turn(s, DoLaunch(s, tid), tid)
  {
  }

  lemma FinalizeTurn(s: State, tid: nat, status: Option<Status>)
    ensures Turn(s, DoFinalize(s, tid, status), tid)
  {
  }

  lemma FinishTurn(s: State, tid: nat, fault: Fault)
    ensures Turn(s, DoFinish(s, tid, fault), tid)
  {
    if tid in s.mem.threads && s.mem.threads[tid].Finishing? {
      var t := s.mem.threads[tid];
      var f := if fault == RolledBack then s else FinishRow(s, t.id, {Running}, t.status, t.cause);
      LeaveTurn(s, f, tid, t.id, t.tracked);
      if t.left > 1 { MoveTurn(s, f, tid, Finishing(t.id, t.status, t.cause, t.left - 1, t.tracked)); }
    }
  }

  lemma ClearTurn(s: State, tid: nat)
    ensures Turn(s, DoClear(s, tid), tid)
  {
  }

  lemma DeclineTurn(s: State, tid: nat, fault: Fault)
    ensures Turn(s, DoDecline(s, tid, fault), tid)
  {
    if tid in s.mem.threads && s.mem.threads[tid].DeclineHeld? {
      EndTurn(s, if fault == RolledBack then s
          else FinishRow(s, s.mem.threads[tid].id, {ApprovalPending}, Declined, OtherCause), tid);
    }
  }

  lemma ListExpiredTurn(s: State, tid: nat, ids: seq<Id>)
    ensures Turn(s, DoListExpired(s, tid, ids), tid)
  {
  }

  lemma CheckBoundaryTurn(s: State, tid: nat)
    ensures Turn(s, DoCheckBoundary(s, tid), tid)
  {
  }

  lemma PersistRecoveryTurn(s: State, tid: nat, fault: Fault)
    ensures Turn(s, DoPersistRecovery(s, tid, fault), tid)
  {
  }

  lemma AcquireExclusiveTurn(s: State, tid: nat)
    ensures Turn(s, DoAcquireExclusive(s, tid), tid)
  {
  }

  lemma MutateTurn(s: State, tid: nat, auth: Auth, fault: Fault)
    ensures Turn(s, DoMutate(s, tid, auth, fault), tid)
  {
  }

  lemma AbortTurn(s: State, tid: nat)
    ensures Turn(s, DoAbort(s, tid), tid)
  {
  }
}
