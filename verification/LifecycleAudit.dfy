/** How often the end of a request is reported: at most once, unless an approval is found stale or a blocked
    request is finished after its end has been reported. */
module LifecycleAudit {
  import opened Wrappers
  import opened ActionStore
  import opened Lifecycle
  import opened LifecycleInvariant
  import opened LifecycleReach
  import opened LifecycleSteps

  /** The event reports the end of a request. */
  predicate Ends(e: AuditEvent) {
    Terminal(e.status)
  }

  /** No end of this request has been reported. */
  ghost predicate Unreported(audit: seq<AuditEvent>, id: Id) {
    forall i {:trigger Nth(audit, i)} :: Nth(audit, i) && Ends(audit[i]) ==> audit[i].id != id
  }

  /** Every request's end is reported at most once. */
  ghost predicate EndsUnique(audit: seq<AuditEvent>) {
    forall i, j {:trigger Nth(audit, i), Nth(audit, j)} ::
      Nth(audit, i) && Nth(audit, j) && i < j && Ends(audit[i]) && Ends(audit[j]) ==> audit[i].id != audit[j].id
  }

  /** And what is reported has ended. */
  ghost predicate Reported(audit: seq<AuditEvent>, rows: map<Id, Row>, nextId: Id) {
    EndsUnique(audit)
    && forall i {:trigger Nth(audit, i)} :: Nth(audit, i) && Ends(audit[i]) ==>
         audit[i].id < nextId && (audit[i].id in rows ==> Terminal(rows[audit[i].id].status))
  }

  /** A committed stale finish, or a committed finish of a blocked request. Their events do not depend on a row
      that is still open. */
  ghost predicate Unguarded(s: State, a: Action) {
    a.Enter? && (a.entering.FinishStale? || a.entering.FinishBlocked?) && a.entering.fault != RolledBack
    && a.entering.tid in s.mem.threads
    && var t := s.mem.threads[a.entering.tid];
       if a.entering.FinishStale? then t.Staling? && t.id in s.db.rows
       else t.Blocking? && t.id in s.db.rows && s.db.rows[t.id].status == Blocked
  }

  ghost function Subject(s: State, a: Action): Id
    requires Unguarded(s, a)
  {
    s.mem.threads[a.entering.tid].id
  }

  /** It finds its request unreported. */
  ghost predicate Prompt(s: State, a: Action) {
    Unguarded(s, a) ==> Unreported(s.db.audit, Subject(s, a))
  }

  // ---------------------------------------------------------------- one event

  lemma ReportOne(audit: seq<AuditEvent>, rows: map<Id, Row>, rows': map<Id, Row>, nextId: Id, e: AuditEvent)
    requires Reported(audit, rows, nextId) && rows'.Keys == rows.Keys
    requires forall id: Id | id in rows :: Terminal(rows[id].status) ==> Terminal(rows'[id].status)
    requires Ends(e) ==> Unreported(audit, e.id) && e.id < nextId && (e.id in rows' ==> Terminal(rows'[e.id].status))
    ensures Reported(audit + [e], rows', nextId)
  {
    var more := audit + [e];
    forall i | Nth(more, i) && Ends(more[i])
      ensures more[i].id < nextId && (more[i].id in rows' ==> Terminal(rows'[more[i].id].status))
    {
      if i < |audit| { assert Nth(audit, i); }
    }
    forall i, j | Nth(more, i) && Nth(more, j) && i < j && Ends(more[i]) && Ends(more[j])
      ensures more[i].id != more[j].id
    {
      assert Nth(audit, i);
      if j < |audit| { assert Nth(audit, j); }
    }
  }

  /** A row that has not ended has not been reported. */
  lemma OpenIsUnreported(audit: seq<AuditEvent>, rows: map<Id, Row>, nextId: Id, id: Id)
    requires Reported(audit, rows, nextId) && id in rows && !Terminal(rows[id].status)
    ensures Unreported(audit, id)
  {
  }

  /** Rows are numbered below the next id. */
  predicate Numbered(s: State, id: Id) {
    id in s.db.rows ==> id < s.db.nextId
  }

  lemma InvNumbers(s: State, id: Id)
    requires Inv(s)
    ensures Numbered(s, id)
  {
    if id in s.db.rows {
      assert Stored(s.db.rows, id);
      assert Made(s.past.born, id);
    }
  }

  lemma FinishReports(s: State, id: Id, allowed: set<Status>, status: Status, cause: Cause)
    requires Numbered(s, id) && Reported(s.db.audit, s.db.rows, s.db.nextId)
    requires Terminal(status) && (allowed <= {Running, ApprovalPending} || Unreported(s.db.audit, id))
    ensures var r := FinishRow(s, id, allowed, status, cause); Reported(r.db.audit, r.db.rows, r.db.nextId)
  {
    if id in s.db.rows && s.db.rows[id].status in allowed {
      if !Terminal(s.db.rows[id].status) { OpenIsUnreported(s.db.audit, s.db.rows, s.db.nextId, id); }
      var row := Settle(s.db.rows[id], status, cause, s.clock);
      ReportOne(s.db.audit, s.db.rows, s.db.rows[id := row], s.db.nextId, AuditEvent(id, status));
    }
  }

  lemma RecoverReports(s: State, id: Id, now: Time)
    requires Numbered(s, id) && Reported(s.db.audit, s.db.rows, s.db.nextId)
    ensures var r := RecoverRow(s, id, now); Reported(r.db.audit, r.db.rows, r.db.nextId)
  {
    if id in s.db.rows && Recoverable(s.db.rows[id], now) {
      OpenIsUnreported(s.db.audit, s.db.rows, s.db.nextId, id);
      var row := Recovered(s.db.rows[id], now);
      ReportOne(s.db.audit, s.db.rows, s.db.rows[id := row], s.db.nextId, AuditEvent(id, row.status));
    }
  }

  lemma StaleReports(s: State, id: Id)
    requires Numbered(s, id) && Reported(s.db.audit, s.db.rows, s.db.nextId)
    requires id in s.db.rows && Unreported(s.db.audit, id)
    ensures var r := StaleRow(s, id); Reported(r.db.audit, r.db.rows, r.db.nextId)
  {
    ReportOne(s.db.audit, s.db.rows, StaleRow(s, id).db.rows, s.db.nextId, AuditEvent(id, Stale));
  }

  /** Nothing is written to the log and what has ended stays ended. */
  lemma SilenceReports(s: State, r: State)
    requires Reported(s.db.audit, s.db.rows, s.db.nextId) && r.db.audit == s.db.audit && Progressing(s, r)
    requires s.db.nextId <= r.db.nextId
    ensures Reported(r.db.audit, r.db.rows, r.db.nextId)
  {
    forall i | Nth(r.db.audit, i) && Ends(r.db.audit[i])
      ensures r.db.audit[i].id < r.db.nextId
              && (r.db.audit[i].id in r.db.rows ==> Terminal(r.db.rows[r.db.audit[i].id].status))
    {
      assert Nth(s.db.audit, i) && Seen(r.db.audit[i].id);
    }
  }

  // ---------------------------------------------------------------- every action

  lemma AdmitSilent(s: State, a: Entering)
    requires a.Spawn? || a.Acquire? || a.Replay?
    ensures DoEnter(s, a).db == s.db
  {
  }

  lemma StoreSilent(s: State, tid: nat, fault: Fault)
    ensures var r := DoInsert(s, tid, fault); r.db.audit == s.db.audit && s.db.nextId <= r.db.nextId
  {
  }

  lemma InsertSilent(s: State, a: Entering)
    requires a.Admit? || a.Insert?
    ensures DoEnter(s, a).db.audit == s.db.audit && s.db.nextId <= DoEnter(s, a).db.nextId
  {
    if a.Insert? { StoreSilent(s, a.tid, a.fault); }
  }

  lemma MarkSilent(s: State, tid: nat, fault: Fault)
    ensures var r := DoMarkRunning(s, tid, fault); r.db.audit == s.db.audit && r.db.nextId == s.db.nextId
  {
  }

  lemma ApproveSilent(s: State, a: Entering)
    requires a.PreparePending? || a.TrackPending? || a.MarkRunning?
    ensures DoEnter(s, a).db.audit == s.db.audit && s.db.nextId == DoEnter(s, a).db.nextId
  {
    if a.MarkRunning? { MarkSilent(s, a.tid, a.fault); }
  }

  lemma EnterSilent(s: State, a: Entering)
    requires !a.FinishBlocked? && !a.FinishStale? && !a.Decline?
    ensures DoEnter(s, a).db.audit == s.db.audit && s.db.nextId <= DoEnter(s, a).db.nextId
  {
    if a.PreparePending? || a.TrackPending? || a.MarkRunning? {
      ApproveSilent(s, a);
    } else if a.Admit? || a.Insert? {
      InsertSilent(s, a);
    } else {
      AdmitSilent(s, a);
    }
  }

  lemma ValidateSilent(s: State, a: Dispatching)
    requires a.Revalidate? || a.Snapshot? || a.ReadClock?
    ensures DoDispatch(s, a).db == s.db
  {
  }

  lemma BeginSilent(s: State, tid: nat, fault: Fault)
    ensures var r := DoBeginDispatch(s, tid, fault); r.db.audit == s.db.audit && r.db.nextId == s.db.nextId
  {
  }

  lemma ExplainSilent(s: State, tid: nat)
    ensures DoExplainRefusal(s, tid).db == s.db
  {
  }

  lemma ClaimSilent(s: State, a: Dispatching)
    requires a.BeginDispatch? || a.ExplainRefusal?
    ensures DoDispatch(s, a).db.audit == s.db.audit && DoDispatch(s, a).db.nextId == s.db.nextId
  {
    if a.BeginDispatch? { BeginSilent(s, a.tid, a.fault); } else { ExplainSilent(s, a.tid); }
  }

  lemma CallSilent(s: State, a: Dispatching)
    requires a.Execute? || a.Launch? || a.Finalize? || a.ClearBoundary? || a.Abort?
    ensures DoDispatch(s, a).db.audit == s.db.audit && DoDispatch(s, a).db.nextId == s.db.nextId
  {
  }

  lemma DispatchSilent(s: State, a: Dispatching)
    requires !a.Finish?
    ensures DoDispatch(s, a).db.audit == s.db.audit && DoDispatch(s, a).db.nextId == s.db.nextId
  {
    if a.Execute? || a.Launch? || a.Finalize? || a.ClearBoundary? || a.Abort? {
      CallSilent(s, a);
    } else if a.BeginDispatch? || a.ExplainRefusal? {
      ClaimSilent(s, a);
    } else {
      ValidateSilent(s, a);
    }
  }

  lemma MaintainSilent(s: State, a: Maintaining)
    requires !a.PersistRecovery? && !a.MarkRunningUnknown?
    ensures DoMaintain(s, a).db.audit == s.db.audit && DoMaintain(s, a).db.nextId == s.db.nextId
  {
  }

  lemma FinishBlockedReports(s: State, tid: nat, fault: Fault)
    requires Inv(s) && Reported(s.db.audit, s.db.rows, s.db.nextId) && Prompt(s, Enter(FinishBlocked(tid, fault)))
    ensures var r := DoFinishBlocked(s, tid, fault); Reported(r.db.audit, r.db.rows, r.db.nextId)
  {
    if Unguarded(s, Enter(FinishBlocked(tid, fault))) {
      InvNumbers(s, s.mem.threads[tid].id);
      FinishReports(s, s.mem.threads[tid].id, {Blocked}, Blocked, OtherCause);
    }
  }

  lemma DeclineReports(s: State, tid: nat, fault: Fault)
    requires Inv(s) && Reported(s.db.audit, s.db.rows, s.db.nextId)
    ensures var r := DoDecline(s, tid, fault); Reported(r.db.audit, r.db.rows, r.db.nextId)
  {
    if tid in s.mem.threads && s.mem.threads[tid].DeclineHeld? {
      InvNumbers(s, s.mem.threads[tid].id);
      FinishReports(s, s.mem.threads[tid].id, {ApprovalPending}, Declined, OtherCause);
    }
  }

  lemma FinishStaleReports(s: State, tid: nat, fault: Fault)
    requires Inv(s) && Reported(s.db.audit, s.db.rows, s.db.nextId) && Prompt(s, Enter(FinishStale(tid, fault)))
    ensures var r := DoFinishStale(s, tid, fault); Reported(r.db.audit, r.db.rows, r.db.nextId)
  {
    if Unguarded(s, Enter(FinishStale(tid, fault))) {
      InvNumbers(s, s.mem.threads[tid].id);
      StaleReports(s, s.mem.threads[tid].id);
    }
  }

  lemma FinishThreadReports(s: State, tid: nat, fault: Fault)
    requires Inv(s) && Reported(s.db.audit, s.db.rows, s.db.nextId)
    ensures var r := DoFinish(s, tid, fault); Reported(r.db.audit, r.db.rows, r.db.nextId)
  {
    if tid in s.mem.threads && s.mem.threads[tid].Finishing? {
      ThreadFits(s, tid);
      assert Live(s.mem.threads, tid);
      var t := s.mem.threads[tid];
      InvNumbers(s, t.id);
      FinishReports(s, t.id, {Running}, t.status, t.cause);
    }
  }

  lemma PersistRecoveryReports(s: State, tid: nat, fault: Fault)
    requires Inv(s) && Reported(s.db.audit, s.db.rows, s.db.nextId)
    ensures var r := DoPersistRecovery(s, tid, fault); Reported(r.db.audit, r.db.rows, r.db.nextId)
  {
    if tid in s.mem.threads && s.mem.threads[tid].Checked? {
      InvNumbers(s, s.mem.threads[tid].id);
      RecoverReports(s, s.mem.threads[tid].id, s.mem.threads[tid].now);
    }
  }

  lemma BatchReports(audit: seq<AuditEvent>, rows: map<Id, Row>, rows': map<Id, Row>, nextId: Id, more: seq<AuditEvent>)
    requires Reported(audit, rows, nextId) && rows'.Keys == rows.Keys
    requires forall id: Id | id in rows :: Terminal(rows[id].status) ==> Terminal(rows'[id].status)
    requires forall i {:trigger Nth(more, i)} :: Nth(more, i) ==>
               more[i].id in rows && more[i].id < nextId && !Terminal(rows[more[i].id].status)
                 && Terminal(rows'[more[i].id].status)
    requires forall i, j {:trigger Nth(more, i), Nth(more, j)} ::
             Nth(more, i) && Nth(more, j) && i < j ==> more[i].id != more[j].id
    ensures Reported(audit + more, rows', nextId)
  {
    var all, n := audit + more, |audit|;
    forall i | Nth(all, i) && Ends(all[i])
      ensures all[i].id < nextId && (all[i].id in rows' ==> Terminal(rows'[all[i].id].status))
    {
      if i < n { assert Nth(audit, i); } else { assert Nth(more, i - n); }
    }
    forall i, j | Nth(all, i) && Nth(all, j) && i < j && Ends(all[i]) && Ends(all[j]) ensures all[i].id != all[j].id {
      if i < n { assert Nth(audit, i); } else { assert Nth(more, i - n); }
      if j < n { assert Nth(audit, j); } else { assert Nth(more, j - n); }
    }
  }

  lemma MarkRunningReports(s: State, ids: seq<Id>)
    requires Inv(s) && Reported(s.db.audit, s.db.rows, s.db.nextId)
    ensures var r := DoMarkRunningUnknown(s, ids); Reported(r.db.audit, r.db.rows, r.db.nextId)
  {
    if RunningExactly(s, ids) {
      var more := seq(|ids|, i requires 0 <= i < |ids| => AuditEvent(ids[i], OutcomeUnknown));
      var rows' := UnknownIfRunning(s.db.rows, s.clock);
      forall i | Nth(more, i)
        ensures more[i].id in s.db.rows && more[i].id < s.db.nextId
                && !Terminal(s.db.rows[more[i].id].status) && Terminal(rows'[more[i].id].status)
      {
        assert ids[i] in ids;
        assert Stored(s.db.rows, ids[i]);
        assert Made(s.past.born, ids[i]);
      }
      BatchReports(s.db.audit, s.db.rows, rows', s.db.nextId, more);
      assert DoMarkRunningUnknown(s, ids).db.audit == s.db.audit + more;
    }
  }

  lemma EnterReports(s: State, a: Entering)
    requires Inv(s) && Reported(s.db.audit, s.db.rows, s.db.nextId) && Prompt(s, Enter(a))
    ensures var r := DoEnter(s, a); Reported(r.db.audit, r.db.rows, r.db.nextId)
  {
    if a.FinishBlocked? { FinishBlockedReports(s, a.tid, a.fault); }
    else if a.FinishStale? { FinishStaleReports(s, a.tid, a.fault); }
    else if a.Decline? { DeclineReports(s, a.tid, a.fault); }
    else { EnterSilent(s, a); SilenceReports(s, DoEnter(s, a)); }
  }

  lemma DispatchReports(s: State, a: Dispatching)
    requires Inv(s) && Reported(s.db.audit, s.db.rows, s.db.nextId)
    ensures var r := DoDispatch(s, a); Reported(r.db.audit, r.db.rows, r.db.nextId)
  {
    if a.Finish? { FinishThreadReports(s, a.tid, a.fault); }
    else { DispatchSilent(s, a); SilenceReports(s, DoDispatch(s, a)); }
  }

  lemma MaintainReports(s: State, a: Maintaining)
    requires Inv(s) && Reported(s.db.audit, s.db.rows, s.db.nextId)
    ensures var r := DoMaintain(s, a); Reported(r.db.audit, r.db.rows, r.db.nextId)
  {
    if a.PersistRecovery? { PersistRecoveryReports(s, a.tid, a.fault); }
    else if a.MarkRunningUnknown? { MarkRunningReports(s, a.ids); }
    else { MaintainSilent(s, a); SilenceReports(s, DoMaintain(s, a)); }
  }

  lemma StepReports(s: State, a: Action)
    requires Inv(s) && Reported(s.db.audit, s.db.rows, s.db.nextId) && Prompt(s, a)
    ensures var r := Do(s, a); Reported(r.db.audit, r.db.rows, r.db.nextId)
  {
    match a
    case Outside(event) => SilenceReports(s, DoOutside(s, event));
    case Enter(entering) => EnterReports(s, entering);
    case Dispatch(dispatching) => DispatchReports(s, dispatching);
    case Maintain(maintaining) => MaintainReports(s, maintaining);
  }

  // ---------------------------------------------------------------- every run

  /** The log only grows. */
  lemma StepGrows(s: State, a: Action)
    ensures s.db.audit <= Do(s, a).db.audit
  {
    match a
    case Outside(event) =>
    case Enter(entering) => EnterGrows(s, entering);
    case Dispatch(dispatching) => if !dispatching.Finish? { DispatchSilent(s, dispatching); }
    case Maintain(maintaining) => MaintainGrows(s, maintaining);
  }

  lemma EnterGrows(s: State, a: Entering)
    ensures s.db.audit <= DoEnter(s, a).db.audit
  {
    if !a.FinishBlocked? && !a.FinishStale? && !a.Decline? { EnterSilent(s, a); }
  }

  lemma MaintainGrows(s: State, a: Maintaining)
    ensures s.db.audit <= DoMaintain(s, a).db.audit
  {
    if !a.PersistRecovery? && !a.MarkRunningUnknown? { MaintainSilent(s, a); }
  }

  lemma StillRepeated(audit: seq<AuditEvent>, more: seq<AuditEvent>)
    requires audit <= more && EndsUnique(more)
    ensures EndsUnique(audit)
  {
    forall i, j | Nth(audit, i) && Nth(audit, j) && i < j && Ends(audit[i]) && Ends(audit[j])
      ensures audit[i].id != audit[j].id
    {
      assert Nth(more, i) && Nth(more, j);
    }
  }

  lemma UnguardedWrites(s: State, a: Action)
    requires Unguarded(s, a)
    ensures exists status {:trigger AuditEvent(Subject(s, a), status)} ::
              Terminal(status) && Do(s, a).db.audit == s.db.audit + [AuditEvent(Subject(s, a), status)]
  {
    var status := if a.entering.FinishStale? then Stale else Blocked;
    assert DoEnter(s, a.entering).db.audit == s.db.audit + [AuditEvent(Subject(s, a), status)];
  }

  /** Where it finds its request reported, it reports it again. */
  lemma LateRepeats(s: State, a: Action)
    requires Unguarded(s, a) && !Prompt(s, a)
    ensures !EndsUnique(Do(s, a).db.audit)
  {
    UnguardedWrites(s, a);
    var more := Do(s, a).db.audit;
    var i :| Nth(s.db.audit, i) && Ends(s.db.audit[i]) && s.db.audit[i].id == Subject(s, a);
    assert Nth(more, i) && Nth(more, |s.db.audit|);
  }

  /** A run in which every unguarded finish finds its request unreported. */
  ghost predicate AllPrompt(s: State, actions: seq<Action>)
    decreases |actions|
  {
    actions != [] ==>
      var n := |actions| - 1;
      AllPrompt(s, actions[..n]) && Prompt(Run(s, actions[..n]), actions[n])
  }

  lemma {:induction false} PromptReports(s: State, actions: seq<Action>)
    requires Init(s) && AllPrompt(s, actions)
    ensures var r := Run(s, actions); Reported(r.db.audit, r.db.rows, r.db.nextId)
    decreases |actions|
  {
    if actions != [] {
      var n := |actions| - 1;
      PromptReports(s, actions[..n]);
      RunKeeps(s, actions[..n]);
      StepReports(Run(s, actions[..n]), actions[n]);
    }
  }

  lemma {:induction false} UniqueWasPrompt(s: State, actions: seq<Action>)
    requires EndsUnique(Run(s, actions).db.audit)
    ensures AllPrompt(s, actions)
    decreases |actions|
  {
    if actions != [] {
      var n := |actions| - 1;
      var before := Run(s, actions[..n]);
      StepGrows(before, actions[n]);
      StillRepeated(before.db.audit, Do(before, actions[n]).db.audit);
      UniqueWasPrompt(s, actions[..n]);
      if Unguarded(before, actions[n]) && !Prompt(before, actions[n]) { LateRepeats(before, actions[n]); }
    }
  }

  /** Over every run, with all retries and faults: the end of each request is reported at most once if and only if
      no stale and no blocked finish comes after its request has been reported. */
  lemma EndsReportedOnceExactly(s: State, actions: seq<Action>)
    requires Init(s)
    ensures EndsUnique(Run(s, actions).db.audit) <==> AllPrompt(s, actions)
  {
    if AllPrompt(s, actions) { PromptReports(s, actions); }
    if EndsUnique(Run(s, actions).db.audit) { UniqueWasPrompt(s, actions); }
  }

  /** In particular when every stale finish finds a row that has not ended. */
  ghost predicate InTime(s: State, a: Action) {
    Unguarded(s, a) ==>
      if a.entering.FinishStale? then !Terminal(s.db.rows[Subject(s, a)].status)
        else Unreported(s.db.audit, Subject(s, a))
  }

  ghost predicate AllInTime(s: State, actions: seq<Action>)
    decreases |actions|
  {
    actions != [] ==>
      var n := |actions| - 1;
      AllInTime(s, actions[..n]) && InTime(Run(s, actions[..n]), actions[n])
  }

  lemma {:induction false} InTimeIsPrompt(s: State, actions: seq<Action>)
    requires Init(s) && AllInTime(s, actions)
    ensures AllPrompt(s, actions) && EndsUnique(Run(s, actions).db.audit)
    decreases |actions|
  {
    if actions != [] {
      var n := |actions| - 1;
      InTimeIsPrompt(s, actions[..n]);
      PromptReports(s, actions[..n]);
      var r := Run(s, actions[..n]);
      if Unguarded(r, actions[n]) && actions[n].entering.FinishStale? {
        OpenIsUnreported(r.db.audit, r.db.rows, r.db.nextId, Subject(r, actions[n]));
      }
    }
    PromptReports(s, actions);
  }

  // ---------------------------------------------------------------- a request reported twice

  /** An approval that finds its request changed, before it has written that down. */
  function FoundStale(s: State, tid: nat, id: Id): State {
    DoPreparePending(DoAcquire(DoSpawn(s, tid, Approving(id)), tid), tid, "payload")
  }

  function Declination(s: State, tid: nat, id: Id): State {
    DoDecline(DoAcquire(DoSpawn(s, tid, Declining(id)), tid), tid, Acknowledged)
  }

  lemma FoundStaleIs(s: State, tid: nat, id: Id)
    requires s.mem == START.mem && s.mcpStarted && id in s.db.rows && s.db.rows[id].status == ApprovalPending
    requires !StillAuthorized(s, id, "payload")
    ensures FoundStale(s, tid, id) == s.(mem := Memory(0, {}, false, {tid}, None, map[tid := Staling(id, false)]))
  {
    var staled := map[tid := Preparing(id)][tid := Staling(id, false)];
    assert staled == map[tid := Staling(id, false)];
    assert DoSpawn(s, tid, Approving(id)).mem.threads == map[tid := Approving(id)];
    assert DoAcquire(DoSpawn(s, tid, Approving(id)), tid).mem.threads == map[tid := Preparing(id)];
  }

  lemma DeclinationIs(s: State, tid: nat, id: Id)
    requires tid !in s.mem.threads && tid !in s.mem.readers && s.mem.writer.None?
    requires id in s.db.rows && s.db.rows[id].status == ApprovalPending
    ensures var r := Declination(s, tid, id);
            r.mem.threads == s.mem.threads && r.db.audit == s.db.audit + [AuditEvent(id, Declined)]
            && id in r.db.rows && r.db.rows[id].status == Declined
  {
    var held := DoAcquire(DoSpawn(s, tid, Declining(id)), tid);
    assert held.mem.threads - {tid} == s.mem.threads;
  }

  lemma ChangedIsStale(s: State)
    requires Pending(s)
    ensures var c := DoOutside(s, SetWorld(REF, Some("changed")));
            c.db == s.db && c.mem == START.mem && c.mcpStarted && !StillAuthorized(c, 1, "payload")
  {
  }

  lemma StaleIsWritten(s: State, tid: nat, id: Id)
    requires tid in s.mem.threads && s.mem.threads[tid] == Staling(id, false) && id in s.db.rows
    ensures DoFinishStale(s, tid, Acknowledged).db.audit == s.db.audit + [AuditEvent(id, Stale)]
  {
  }

  lemma TwoEnds(audit: seq<AuditEvent>, id: Id)
    requires audit == [AuditEvent(id, Declined), AuditEvent(id, Stale)]
    ensures !EndsUnique(audit)
  {
    assert Nth(audit, 0) && Nth(audit, 1);
  }

  lemma RunFoundStale(s: State, actions: seq<Action>, tid: nat, id: Id) returns (more: seq<Action>)
    ensures Run(s, more) == FoundStale(Run(s, actions), tid, id)
  {
    more := RunEnter(s, actions, Spawn(tid, Approving(id)));
    more := RunEnter(s, more, Acquire(tid));
    more := RunEnter(s, more, PreparePending(tid, "payload"));
  }

  lemma RunDeclination(s: State, actions: seq<Action>, tid: nat, id: Id) returns (more: seq<Action>)
    ensures Run(s, more) == Declination(Run(s, actions), tid, id)
  {
    more := RunEnter(s, actions, Spawn(tid, Declining(id)));
    more := RunEnter(s, more, Acquire(tid));
    more := RunEnter(s, more, Decline(tid, Acknowledged));
  }

  /** The target changes, an approval finds the request stale, the request is declined, the approval finishes. */
  function Late(s: State, approver: nat, decliner: nat, id: Id): State {
    var changed := DoOutside(s, SetWorld(REF, Some("changed")));
    DoFinishStale(Declination(FoundStale(changed, approver, id), decliner, id), approver, Acknowledged)
  }

  lemma DeclinedFirst(s: State, approver: nat, decliner: nat, id: Id)
    requires s.mem == Memory(0, {}, false, {approver}, None, map[approver := Staling(id, false)])
    requires approver != decliner && id in s.db.rows && s.db.rows[id].status == ApprovalPending && s.db.audit == []
    ensures DoFinishStale(Declination(s, decliner, id), approver, Acknowledged).db.audit
            == [AuditEvent(id, Declined), AuditEvent(id, Stale)]
  {
    DeclinationIs(s, decliner, id);
    StaleIsWritten(Declination(s, decliner, id), approver, id);
  }

  lemma LateReportsTwice(s: State, approver: nat, decliner: nat)
    requires Pending(s) && approver != decliner
    ensures Late(s, approver, decliner, 1).db.audit == [AuditEvent(1, Declined), AuditEvent(1, Stale)]
  {
    var changed := DoOutside(s, SetWorld(REF, Some("changed")));
    ChangedIsStale(s);
    FoundStaleIs(changed, approver, 1);
    DeclinedFirst(FoundStale(changed, approver, 1), approver, decliner, 1);
  }

  lemma RunLate(s: State, actions: seq<Action>, approver: nat, decliner: nat, id: Id) returns (more: seq<Action>)
    ensures Run(s, more) == Late(Run(s, actions), approver, decliner, id)
  {
    more := RunOutside(s, actions, SetWorld(REF, Some("changed")));
    more := RunFoundStale(s, more, approver, id);
    more := RunDeclination(s, more, decliner, id);
    more := RunEnter(s, more, FinishStale(approver, Acknowledged));
  }

  /** From an empty database: an approval finds its request stale, the request is declined, and then the approval
      writes its event as well. The request has two ends on record. */
  lemma DeclinedThenStale() returns (actions: seq<Action>)
    ensures Init(START) && !EndsUnique(Run(START, actions).db.audit)
    ensures Run(START, actions).db.audit == [AuditEvent(1, Declined), AuditEvent(1, Stale)]
  {
    StartIsInit();
    var pending := ReachesPending();
    actions := RunLate(START, pending, 2, 3, 1);
    LateReportsTwice(Run(START, pending), 2, 3);
    TwoEnds(Run(START, actions).db.audit, 1);
  }
}
