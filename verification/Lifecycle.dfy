/** The connector-action protocol as a state machine. Callers, approvers, decliners, authorization
    changes, the recovery worker, finalizers, retention, shutdown and process restarts interleave freely;
    one action is one lock region, one transaction, or one read of the clock.

    `Do(s, a)` is total: an action that is not enabled leaves the state alone, so a run is any sequence
    of actions from any of the empty initial states. */
module Lifecycle {
  import opened Wrappers
  import opened ActionStore

  /** How long the idempotency record of a purged request is kept. */
  const WINDOW: Time := 30 * 86400

  const FINISH_ATTEMPTS: nat := 3

  const MCP := "mcp"

  // ---------------------------------------------------------------- entities

  datatype Perm = Perm(rule: Rule, expiresAt: Option<Time>)

  /** Everything that decides what a token may do. `epoch` counts its committed changes. */
  datatype Auth = Auth(revoked: bool, expiresAt: Option<Time>, perms: map<Ref, Perm>, epoch: nat)

  datatype Call = Call(token: Option<Token>, source: string, ref: Ref, input: string, reason: string,
      key: Option<string>)

  /** What a fresh preparation and authorization check established before a claim. */
  datatype Validation = Validation(
    payload: string, material: string, at: Time, auth: Option<Auth>, context: Option<Context>)

  /** A request as it was created. It stands for the columns of its row that never change, and is kept for ever
      as history. */
  datatype Birth = Birth(call: Call, status: Status, context: Option<Context>, epoch: nat, at: Time)

  /** A won dispatch claim: what it was validated against and the authorization at that moment. */
  datatype Claim = Claim(valid: Validation, auth: Option<Auth>, at: Time)

  /** One call into a connector. */
  datatype Execution = Execution(id: Id, valid: Validation)

  /** What is left of a purged request that carried a key. */
  datatype Tombstone = Tombstone(id: Id, identity: Call, expires: Time)

  /** The idempotency record of a key. */
  datatype Record = Record(id: Id, identity: Call)

  /** What a call with a key is told: nothing is recorded, the recorded request is its own, or another call's. */
  datatype Answer = Unrecorded | Replayed(id: Id) | Conflicting(id: Id)

  /** The program counter of one goroutine, with its local variables. */
  datatype Thread =
    // Call and RunLocal
    | Calling(call: Call)
    | Replaying(call: Call)
    | Admitting(call: Call)
    | Inserting(call: Call, status: Status, context: Option<Context>, epoch: nat)
    | Blocking(id: Id, left: nat)
    | Answered(call: Call, answer: Answer)
    // RunPending up to the running mark
    | Approving(id: Id)
    | Preparing(id: Id)
    | Prepared(id: Id)
    | Marking(id: Id)
    | Staling(id: Id, tracked: bool)
    // ExecuteInserted and executePending
    | Executing(id: Id)
    | Revalidating(id: Id)
    | Snapshotting(id: Id, valid: Validation)
    | ReadingClock(id: Id, valid: Validation)
    | Claiming(id: Id, valid: Validation, now: Time)
    | Refused(id: Id, now: Time)
    | Dispatched(id: Id, valid: Validation)
    | Launching(id: Id)
    | Finalizing(id: Id)
    | Finishing(id: Id, status: Status, cause: Cause, left: nat, tracked: bool)
    | Clearing(id: Id)
    // DeclinePending
    | Declining(id: Id)
    | DeclineHeld(id: Id)
    // the recovery worker
    | Waking
    | Listing(now: Time)
    | Recovering(now: Time, ids: seq<Id>)
    | Checked(now: Time, id: Id, ids: seq<Id>)
    // mutateAuthorization
    | Mutating(token: Token)
    | MutationHeld(token: Token)

  datatype Database = Database(
    auth: map<Token, Auth>,
    leases: map<nat, Token>,
    rows: map<Id, Row>,
    index: map<ScopedKey, Id>,
    tombstones: map<ScopedKey, Tombstone>,
    nextId: Id,
    audit: seq<AuditEvent>)

  /** What a restart loses. */
  datatype Memory = Memory(
    runtime: nat,
    boundaries: set<Id>,
    finalizersClosed: bool,
    readers: set<nat>,
    writer: Option<nat>,
    threads: map<nat, Thread>)

  /** The requests as they were created, and what the theorems speak about. Actions read `born` alone, for the
      unchanging columns of a row. */
  datatype History = History(
    born: map<Id, Birth>,
    purged: map<Id, Time>,
    claims: map<Id, Claim>,
    executions: seq<Execution>)

  datatype State = State(clock: Time, mcpStarted: bool, world: map<Ref, string>, db: Database, mem: Memory,
      past: History)

  /** How a transaction ends: committed and acknowledged, rolled back, or committed while the caller
      is told that it failed. */
  datatype Fault = Acknowledged | RolledBack | Ambiguous

  /** What the connector call led to. */
  datatype Outcome = ConnectorError(status: Status) | HandleLost | UnsupportedRunning | Returned(status: Status)

  /** What happens outside the workflow. */
  datatype Event =
    | Tick(seconds: nat)
    | SetMcp(started: bool)
    | SetWorld(ref: Ref, material: Option<string>)
    | CreateToken(token: Token, auth: Auth)
    | GrantLease(lease: nat, token: Token)

  /** Admission, approval and decline. */
  datatype Entering =
    | Spawn(tid: nat, thread: Thread)
    | Acquire(tid: nat)
    | Replay(tid: nat)
    | Admit(tid: nat, payload: string)
    | Insert(tid: nat, fault: Fault)
    | FinishBlocked(tid: nat, fault: Fault)
    | PreparePending(tid: nat, payload: string)
    | TrackPending(tid: nat)
    | MarkRunning(tid: nat, fault: Fault)
    | FinishStale(tid: nat, fault: Fault)
    | Decline(tid: nat, fault: Fault)

  /** Validation, claim, connector call and completion. */
  datatype Dispatching =
    | Revalidate(tid: nat, payload: string, readable: bool)
    | Snapshot(tid: nat, readable: bool)
    | ReadClock(tid: nat)
    | BeginDispatch(tid: nat, fault: Fault)
    | ExplainRefusal(tid: nat)
    | Execute(tid: nat, outcome: Outcome)
    | Launch(tid: nat)
    | Finalize(tid: nat, status: Option<Status>)
    | Finish(tid: nat, fault: Fault)
    | ClearBoundary(tid: nat)
    | Abort(tid: nat)

  /** Recovery, authorization changes, retention, shutdown and restart. */
  datatype Maintaining =
    | ListExpired(tid: nat, ids: seq<Id>)
    | CheckBoundary(tid: nat)
    | PersistRecovery(tid: nat, fault: Fault)
    | AcquireExclusive(tid: nat)
    | Mutate(tid: nat, auth: Auth, fault: Fault)
    | InvalidateTarget(target: nat, profile: Option<nat>, includeRunning: bool)
    | CloseFinalizers
    | MarkRunningUnknown(ids: seq<Id>)
    | Purge(id: Id)
    | PurgeTombstone(key: ScopedKey)
    | Restart

  datatype Action =
    | Outside(event: Event) | Enter(entering: Entering)
    | Dispatch(dispatching: Dispatching) | Maintain(maintaining: Maintaining)

  // ---------------------------------------------------------------- authorization and approval context

  predicate ActiveAt(expiresAt: Option<Time>, now: Time) {
    expiresAt.None? || expiresAt.value > now
  }

  predicate TokenActive(a: Auth, now: Time) {
    !a.revoked && ActiveAt(a.expiresAt, now)
  }

  function Permission(a: Auth, ref: Ref, now: Time): Option<Perm> {
    if ref in a.perms && ActiveAt(a.perms[ref].expiresAt, now) then Some(a.perms[ref]) else None
  }

  function BuildContext(t: Token, a: Auth, perm: Option<Perm>, call: Call, payload: string, material: string): Context {
    Context(t, a.expiresAt, a.revoked,
            if perm.Some? then Some(perm.value.rule) else None,
            if perm.Some? then perm.value.expiresAt else None,
            call.ref, call.input, payload, material)
  }

  function AdmissionStatus(perm: Option<Perm>): Status {
    if perm.None? || perm.value.rule == RuleBlocked then Blocked
    else if perm.value.rule == ApprovalRequired then ApprovalPending
    else Running
  }

  /** The rule a request must still have when it is dispatched. */
  function RequiredRule(b: Birth): Rule {
    if b.status == ApprovalPending then ApprovalRequired else AlwaysRun
  }

  predicate Approved(s: State, id: Id) {
    id in s.past.born && s.past.born[id].status == ApprovalPending
  }

  /** A call that holds the delivery gate from replay to insertion. */
  predicate Gated(c: Call) {
    c.token.Some? && c.source == MCP
  }

  function Identity(c: Call): Call {
    c.(key := None)
  }

  function KeyOf(c: Call): Option<ScopedKey> {
    if c.key.None? then None
    else Some(ScopedKey(if c.token.Some? then TokenScope(c.token.value) else SourceScope(c.source), c.key.value))
  }

  /** The idempotency record of a key: a stored request, or the unexpired tombstone of a purged one. */
  function Lookup(s: State, k: ScopedKey): Option<Record> {
    if k in s.db.index && s.db.index[k] in s.past.born
    then Some(Record(s.db.index[k], Identity(s.past.born[s.db.index[k]].call)))
    else if k in s.db.tombstones && s.db.tombstones[k].expires > s.clock
    then Some(Record(s.db.tombstones[k].id, s.db.tombstones[k].identity))
    else None
  }

  /** A call is told the recorded request only when it is the same call. */
  function AnswerTo(s: State, c: Call): Answer {
    if KeyOf(c).None? || Lookup(s, KeyOf(c).value).None? then Unrecorded
    else
      var found := Lookup(s, KeyOf(c).value).value;
      if found.identity == Identity(c) then Replayed(found.id) else Conflicting(found.id)
  }

  // ---------------------------------------------------------------- building blocks

  function Move(s: State, tid: nat, t: Thread): State {
    s.(mem := s.mem.(threads := s.mem.threads[tid := t]))
  }

  function Release(s: State, tid: nat): State {
    s.(mem := s.mem.(
         readers := s.mem.readers - {tid}, writer := if s.mem.writer == Some(tid) then None else s.mem.writer))
  }

  function End(s: State, tid: nat): State {
    var r := Release(s, tid);
    r.(mem := r.mem.(threads := s.mem.threads - {tid}))
  }

  /** A return that still has to run the deferred boundary removal when the boundary is tracked. */
  function Leave(s: State, tid: nat, id: Id, tracked: bool): State {
    if tracked then Move(Release(s, tid), tid, Clearing(id)) else End(s, tid)
  }

  /** The request whose credential boundary this thread has put into the map and must take out again. */
  function Tracked(t: Thread): Option<Id> {
    match t
    case Marking(id) => Some(id)
    case Staling(id, tracked) => if tracked then Some(id) else None
    case ReadingClock(id, _) => Some(id)
    case Claiming(id, _, _) => Some(id)
    case Refused(id, _) => Some(id)
    case Dispatched(id, _) => Some(id)
    case Launching(id) => Some(id)
    case Finalizing(id) => Some(id)
    case Finishing(id, _, _, _, tracked) => if tracked then Some(id) else None
    case Clearing(id) => Some(id)
    case _ => None
  }

  /** As `Tracked`; an approval keeps its boundary while it waits for the gate and validates again. */
  function Responsible(s: State, t: Thread): Option<Id> {
    if (t.Executing? || t.Revalidating? || t.Snapshotting?) && Approved(s, t.id) then Some(t.id) else Tracked(t)
  }

  function SetRow(s: State, id: Id, r: Row): State {
    s.(db := s.db.(rows := s.db.rows[id := r]))
  }

  function Log(s: State, id: Id, status: Status): State {
    s.(db := s.db.(audit := s.db.audit + [AuditEvent(id, status)]))
  }

  // ---------------------------------------------------------------- progress

  /** Marks a request for the quantifier of `Progressing`. */
  ghost predicate Seen(id: Id) { true }

  /** Identifiers are not reused, a finished row stays finished, and only a running row is claimed. */
  ghost predicate Progresses(s: State, r: State, id: Id) {
    id < s.db.nextId ==>
      id < r.db.nextId
      && (id in r.db.rows ==> id in s.db.rows && (Terminal(s.db.rows[id].status) ==> Terminal(r.db.rows[id].status)))
      && (id in r.past.claims ==> id in s.past.claims || (id in s.db.rows && s.db.rows[id].status == Running))
  }

  ghost predicate Progressing(s: State, r: State) {
    forall id: Id {:trigger Seen(id)} :: Seen(id) ==> Progresses(s, r, id)
  }

  // ---------------------------------------------------------------- calls

  predicate Entry(s: State, t: Thread) {
    t.Calling? || (t.Approving? && s.mcpStarted) || t.Declining? || t.Waking? || t.Mutating?
  }

  function DoSpawn(s: State, tid: nat, t: Thread): (r: State)
    ensures Progressing(s, r)
  {
    if tid !in s.mem.threads && tid !in s.mem.readers && s.mem.writer != Some(tid) && Entry(s, t)
    then Move(s, tid, t)
    else s
  }

  function DoAcquire(s: State, tid: nat): (r: State)
    ensures Progressing(s, r)
  {
    if tid !in s.mem.threads then s else
    var t := s.mem.threads[tid];
    if t.Calling? && !Gated(t.call) then Move(s, tid, Replaying(t.call))
    else if s.mem.writer.Some? then s
    else
      var h := s.(mem := s.mem.(readers := s.mem.readers + {tid}));
      match t
      case Calling(c) => if s.mcpStarted then Move(h, tid, Replaying(c)) else End(s, tid)
      case Approving(id) => Move(h, tid, Preparing(id))
      case Executing(id) => Move(h, tid, Revalidating(id))
      case Declining(id) => Move(h, tid, DeclineHeld(id))
      case _ => s
  }

  function DoReplay(s: State, tid: nat): (r: State)
    ensures Progressing(s, r)
  {
    if tid !in s.mem.threads || !s.mem.threads[tid].Replaying? then s else
    var c := s.mem.threads[tid].call;
    if AnswerTo(s, c) == Unrecorded then Move(s, tid, Admitting(c))
    else Move(Release(s, tid), tid, Answered(c, AnswerTo(s, c)))
  }

  function DoAdmit(s: State, tid: nat, payload: string): (r: State)
    ensures Progressing(s, r)
  {
    if tid !in s.mem.threads || !s.mem.threads[tid].Admitting? then s else
    var c := s.mem.threads[tid].call;
    if c.ref !in s.world || (c.token.Some? && c.token.value !in s.db.auth) then End(s, tid)
    else if c.token.None? then Move(s, tid, Inserting(c, Running, None, 0))
    else
      var a := s.db.auth[c.token.value];
      var perm := Permission(a, c.ref, s.clock);
      var context := BuildContext(c.token.value, a, perm, c, payload, s.world[c.ref]);
      Move(s, tid, Inserting(c, AdmissionStatus(perm), Some(context), a.epoch))
  }

  function NewRow(s: State, t: Thread): Row
    requires t.Inserting?
  {
    Row(t.status, t.call.token, Gated(t.call), t.call.ref, t.context, KeyOf(t.call),
        if t.status == Running then s.mem.runtime else 0,
        if t.status == Running then Some(s.clock + LEASE) else None,
        None, NoCause, None)
  }

  function Created(s: State, t: Thread): State
    requires t.Inserting?
  {
    var k := KeyOf(t.call);
    s.(db := s.db.(
         rows := s.db.rows[s.db.nextId := NewRow(s, t)],
         index := if k.Some? then s.db.index[k.value := s.db.nextId] else s.db.index,
         nextId := s.db.nextId + 1),
       past := s.past.(born := s.past.born[s.db.nextId := Birth(t.call, t.status, t.context, t.epoch, s.clock)]))
  }

  function DoInsert(s: State, tid: nat, fault: Fault): (r: State)
    ensures Progressing(s, r)
  {
    if tid !in s.mem.threads || !s.mem.threads[tid].Inserting? then s else
    var t := s.mem.threads[tid];
    if fault == RolledBack then End(s, tid)
    else if AnswerTo(s, t.call) != Unrecorded then
      if fault == Ambiguous then End(s, tid) else Move(Release(s, tid), tid, Answered(t.call, AnswerTo(s, t.call)))
    else
      var c := Created(s, t);
      if fault == Ambiguous || t.status == ApprovalPending then End(c, tid)
      else if t.status == Running then Move(Release(c, tid), tid, Executing(s.db.nextId))
      else Move(c, tid, Blocking(s.db.nextId, FINISH_ATTEMPTS))
  }

  /** One attempt to finish a request: the row changes only from an allowed status, and the event is
      written in the same transaction exactly when the row changed. */
  function FinishRow(s: State, id: Id, allowed: set<Status>, status: Status, cause: Cause): (r: State)
    ensures r == s.(db := s.db.(rows := r.db.rows, audit := r.db.audit))
  {
    if id in s.db.rows && s.db.rows[id].status in allowed
    then Log(SetRow(s, id, Settle(s.db.rows[id], status, cause, s.clock)), id, status)
    else s
  }

  /** Success ends the retry loop, and so does the last failed attempt. */
  function AfterBlocked(s: State, tid: nat, t: Thread, fault: Fault): State
    requires t.Blocking?
  {
    if fault == Acknowledged || t.left <= 1 then End(s, tid) else Move(s, tid, Blocking(t.id, t.left - 1))
  }

  function DoFinishBlocked(s: State, tid: nat, fault: Fault): (r: State)
    ensures Progressing(s, r)
  {
    if tid !in s.mem.threads || !s.mem.threads[tid].Blocking? then s else
    var t := s.mem.threads[tid];
    AfterBlocked(if fault == RolledBack then s else FinishRow(s, t.id, {Blocked}, Blocked, OtherCause), tid, t, fault)
  }

  // ---------------------------------------------------------------- approvals

  /** The authorization is live, grants the required rule, and gives exactly the context of the birth. */
  predicate Authorizes(a: Auth, b: Birth, now: Time, payload: string, material: string) {
    var perm := Permission(a, b.call.ref, now);
    TokenActive(a, now) && b.call.token.Some? && perm.Some? && perm.value.rule == RequiredRule(b)
    && b.context == Some(BuildContext(b.call.token.value, a, perm, b.call, payload, material))
  }

  /** Token, permission, target, profile, dependencies and payload still hash to the stored context. */
  predicate StillAuthorized(s: State, id: Id, payload: string) {
    id in s.past.born
    && s.past.born[id].call.token.Some? && s.past.born[id].call.token.value in s.db.auth
    && s.past.born[id].call.ref in s.world
    && Authorizes(s.db.auth[s.past.born[id].call.token.value], s.past.born[id], s.clock, payload,
         s.world[s.past.born[id].call.ref])
  }

  function DoPreparePending(s: State, tid: nat, payload: string): (r: State)
    ensures Progressing(s, r)
  {
    if tid !in s.mem.threads || !s.mem.threads[tid].Preparing? then s else
    var id := s.mem.threads[tid].id;
    if id !in s.db.rows || s.db.rows[id].status != ApprovalPending then End(s, tid)
    else if StillAuthorized(s, id, payload) then Move(s, tid, Prepared(id))
    else Move(s, tid, Staling(id, false))
  }

  function DoTrackPending(s: State, tid: nat): (r: State)
    ensures Progressing(s, r)
  {
    if tid !in s.mem.threads || !s.mem.threads[tid].Prepared? then s else
    var id := s.mem.threads[tid].id;
    Move(s.(mem := s.mem.(boundaries := s.mem.boundaries + {id})), tid, Marking(id))
  }

  function DoMarkRunning(s: State, tid: nat, fault: Fault): (r: State)
    ensures Progressing(s, r)
  {
    if tid !in s.mem.threads || !s.mem.threads[tid].Marking? then s else
    var id := s.mem.threads[tid].id;
    if fault == RolledBack || id !in s.db.rows || !Markable(s.db.rows[id]) then Leave(s, tid, id, true)
    else
      var m := SetRow(s, id, MarkedRunning(s.db.rows[id], s.mem.runtime, s.clock));
      if fault == Ambiguous then Leave(m, tid, id, true)
      else Move(Release(m, tid), tid, Executing(id))
  }

  /** Unlike the other finishing transactions this one writes its event whether or not the row changed. */
  function StaleRow(s: State, id: Id): (r: State)
    requires id in s.db.rows
    ensures r == s.(db := s.db.(rows := r.db.rows, audit := r.db.audit))
  {
    var staled := SetRow(s, id, Settle(s.db.rows[id], Stale, OtherCause, s.clock));
    Log(if Terminal(s.db.rows[id].status) then s else staled, id, Stale)
  }

  function DoFinishStale(s: State, tid: nat, fault: Fault): (r: State)
    ensures Progressing(s, r)
  {
    if tid !in s.mem.threads || !s.mem.threads[tid].Staling? then s else
    var t := s.mem.threads[tid];
    Leave(if fault == RolledBack || t.id !in s.db.rows then s else StaleRow(s, t.id), tid, t.id, t.tracked)
  }

  // ---------------------------------------------------------------- execution

  function DoRevalidate(s: State, tid: nat, payload: string, readable: bool): (r: State)
    ensures Progressing(s, r)
  {
    if tid !in s.mem.threads || !s.mem.threads[tid].Revalidating? || s.mem.threads[tid].id !in s.past.born then s else
    var id := s.mem.threads[tid].id;
    var b := s.past.born[id];
    var stopped := Gated(b.call) && !s.mcpStarted;
    if readable && !stopped && b.call.ref in s.world && b.call.token.None? then
      Move(s, tid, Snapshotting(id, Validation(payload, s.world[b.call.ref], s.clock, None, None)))
    else if readable && !stopped && StillAuthorized(s, id, payload) then
      var auth := s.db.auth[b.call.token.value];
      Move(s, tid, Snapshotting(id, Validation(payload, s.world[b.call.ref], s.clock, Some(auth), b.context)))
    else if Approved(s, id) && readable then Move(s, tid, Staling(id, true))
    else Move(s, tid, Finishing(id, Failed, OtherCause, FINISH_ATTEMPTS, Approved(s, id)))
  }

  function DoSnapshot(s: State, tid: nat, readable: bool): (r: State)
    ensures Progressing(s, r)
  {
    if tid !in s.mem.threads || !s.mem.threads[tid].Snapshotting? then s else
    var t := s.mem.threads[tid];
    if readable then Move(s.(mem := s.mem.(boundaries := s.mem.boundaries + {t.id})), tid, ReadingClock(t.id, t.valid))
    else if Approved(s, t.id) then Move(s, tid, Staling(t.id, true))
    else Move(s, tid, Finishing(t.id, Failed, OtherCause, FINISH_ATTEMPTS, false))
  }

  function DoReadClock(s: State, tid: nat): (r: State)
    ensures Progressing(s, r)
  {
    if tid !in s.mem.threads then s else
    match s.mem.threads[tid]
    case ReadingClock(id, valid) => Move(s, tid, Claiming(id, valid, s.clock))
    case Waking => Move(s, tid, Listing(s.clock))
    case _ => s
  }

  function Won(s: State, id: Id, valid: Validation, now: Time): State
    requires id in s.db.rows && id in s.past.born
  {
    var token := s.past.born[id].call.token;
    var auth := if token.Some? && token.value in s.db.auth then Some(s.db.auth[token.value]) else None;
    s.(db := s.db.(rows := s.db.rows[id := Claimed(s.db.rows[id], now)]),
       past := s.past.(claims := s.past.claims[id := Claim(valid, auth, s.clock)]))
  }

  function DoBeginDispatch(s: State, tid: nat, fault: Fault): (r: State)
    ensures Progressing(s, r)
  {
    if tid !in s.mem.threads || !s.mem.threads[tid].Claiming? then s else
    var t := s.mem.threads[tid];
    if fault == RolledBack || t.id !in s.db.rows || t.id !in s.past.born then Leave(s, tid, t.id, true)
    else if !Claimable(s.db.rows[t.id], s.mem.runtime, t.now) then Move(s, tid, Refused(t.id, t.now))
    else
      var w := Won(s, t.id, t.valid, t.now);
      if fault == Ambiguous then Leave(w, tid, t.id, true)
      else Move(Release(w, tid), tid, Dispatched(t.id, t.valid))
  }

  function DoExplainRefusal(s: State, tid: nat): (r: State)
    ensures Progressing(s, r)
  {
    if tid !in s.mem.threads || !s.mem.threads[tid].Refused? then s else
    var t := s.mem.threads[tid];
    if t.id !in s.db.rows || s.db.rows[t.id].status != Running then Leave(s, tid, t.id, true)
    else
      var r := s.db.rows[t.id];
      if r.owner != s.mem.runtime || r.dispatchedAt.Some? || r.lease.None? || r.lease.value > t.now
      then Leave(s, tid, t.id, true)
      else Move(s, tid, Finishing(t.id, Failed, LeaseExpiredBeforeDispatch, FINISH_ATTEMPTS, true))
  }

  predicate ResultStatus(status: Status) {
    status in {Completed, Failed, Error, OutcomeUnknown, Running}
  }

  function AfterExecution(id: Id, outcome: Outcome): Thread {
    match outcome
    case ConnectorError(status) =>
      Finishing(id, if status in {Error, OutcomeUnknown} then status else Failed, OtherCause, FINISH_ATTEMPTS, true)
    case HandleLost => Finishing(id, OutcomeUnknown, OtherCause, FINISH_ATTEMPTS, true)
    case UnsupportedRunning => Finishing(id, Error, OtherCause, FINISH_ATTEMPTS, true)
    case Returned(status) =>
      if status == Running then Launching(id)
      else Finishing(id, if ResultStatus(status) then status else OutcomeUnknown, OtherCause, FINISH_ATTEMPTS, true)
  }

  function DoExecute(s: State, tid: nat, outcome: Outcome): (r: State)
    ensures Progressing(s, r)
  {
    if tid !in s.mem.threads || !s.mem.threads[tid].Dispatched? then s else
    var t := s.mem.threads[tid];
    var called := s.(past := s.past.(executions := s.past.executions + [Execution(t.id, t.valid)]));
    Move(called, tid, AfterExecution(t.id, outcome))
  }

  function DoLaunch(s: State, tid: nat): (r: State)
    ensures Progressing(s, r)
  {
    if tid !in s.mem.threads || !s.mem.threads[tid].Launching? then s else
    var id := s.mem.threads[tid].id;
    if s.mem.finalizersClosed then Move(s, tid, Finishing(id, OutcomeUnknown, OtherCause, FINISH_ATTEMPTS, true))
    else Move(s, tid, Finalizing(id))
  }

  /** A finalizer observes a result and finishes, or leaves the request to the shutdown coordinator. */
  function DoFinalize(s: State, tid: nat, status: Option<Status>): (r: State)
    ensures Progressing(s, r)
  {
    if tid !in s.mem.threads || !s.mem.threads[tid].Finalizing? then s else
    var id := s.mem.threads[tid].id;
    if status.Some? && status.value in {Completed, Failed, OutcomeUnknown}
    then Move(s, tid, Finishing(id, status.value, OtherCause, FINISH_ATTEMPTS, true))
    else Move(s, tid, Clearing(id))
  }

  function AfterFinish(s: State, tid: nat, t: Thread, fault: Fault): State
    requires t.Finishing?
  {
    if fault == Acknowledged || t.left <= 1 then Leave(s, tid, t.id, t.tracked)
    else Move(s, tid, Finishing(t.id, t.status, t.cause, t.left - 1, t.tracked))
  }

  function DoFinish(s: State, tid: nat, fault: Fault): (r: State)
    ensures Progressing(s, r)
  {
    if tid !in s.mem.threads || !s.mem.threads[tid].Finishing? then s else
    var t := s.mem.threads[tid];
    AfterFinish(if fault == RolledBack then s else FinishRow(s, t.id, {Running}, t.status, t.cause), tid, t, fault)
  }

  function DoClear(s: State, tid: nat): (r: State)
    ensures Progressing(s, r)
  {
    if tid !in s.mem.threads || !s.mem.threads[tid].Clearing? then s else
    End(s.(mem := s.mem.(boundaries := s.mem.boundaries - {s.mem.threads[tid].id})), tid)
  }

  function DoDecline(s: State, tid: nat, fault: Fault): (r: State)
    ensures Progressing(s, r)
  {
    if tid !in s.mem.threads || !s.mem.threads[tid].DeclineHeld? then s else
    var id := s.mem.threads[tid].id;
    End(if fault == RolledBack then s else FinishRow(s, id, {ApprovalPending}, Declined, OtherCause), tid)
  }

  // ---------------------------------------------------------------- recovery, authorization, maintenance

  predicate ListedExactly(s: State, now: Time, ids: seq<Id>) {
    (forall id | id in ids :: id in s.db.rows && Recoverable(s.db.rows[id], now))
    && forall id | id in s.db.rows && Recoverable(s.db.rows[id], now) :: id in ids
  }

  function DoListExpired(s: State, tid: nat, ids: seq<Id>): (r: State)
    ensures Progressing(s, r)
  {
    if tid in s.mem.threads && s.mem.threads[tid].Listing? && ListedExactly(s, s.mem.threads[tid].now, ids)
    then Move(s, tid, Recovering(s.mem.threads[tid].now, ids)) else s
  }

  function DoCheckBoundary(s: State, tid: nat): (r: State)
    ensures Progressing(s, r)
  {
    if tid !in s.mem.threads || !s.mem.threads[tid].Recovering? then s else
    var t := s.mem.threads[tid];
    if t.ids == [] then End(s, tid)
    else if t.ids[0] in s.mem.boundaries then Move(s, tid, Recovering(t.now, t.ids[1..]))
    else Move(s, tid, Checked(t.now, t.ids[0], t.ids[1..]))
  }

  function RecoverRow(s: State, id: Id, now: Time): (r: State)
    ensures r == s.(db := s.db.(rows := r.db.rows, audit := r.db.audit))
  {
    if id in s.db.rows && Recoverable(s.db.rows[id], now)
    then var r := Recovered(s.db.rows[id], now); Log(SetRow(s, id, r), id, r.status)
    else s
  }

  function DoPersistRecovery(s: State, tid: nat, fault: Fault): (r: State)
    ensures Progressing(s, r)
  {
    if tid !in s.mem.threads || !s.mem.threads[tid].Checked? then s else
    var t := s.mem.threads[tid];
    Move(if fault == RolledBack then s else RecoverRow(s, t.id, t.now), tid, Recovering(t.now, t.ids))
  }

  function DoAcquireExclusive(s: State, tid: nat): (r: State)
    ensures Progressing(s, r)
  {
    if tid in s.mem.threads && s.mem.threads[tid].Mutating? && s.mem.readers == {} && s.mem.writer.None?
    then Move(s.(mem := s.mem.(writer := Some(tid))), tid, MutationHeld(s.mem.threads[tid].token)) else s
  }

  /** One transaction: the new authorization, no active lease, no undispatched request of the token. */
  function Mutated(s: State, t: Token, auth: Auth): State
    requires t in s.db.auth
  {
    s.(db := s.db.(
         auth := s.db.auth[t := auth.(epoch := s.db.auth[t].epoch + 1)],
         leases := map l | l in s.db.leases && s.db.leases[l] != t :: s.db.leases[l],
         rows := StaleForToken(s.db.rows, t, s.clock)))
  }

  function DoMutate(s: State, tid: nat, auth: Auth, fault: Fault): (r: State)
    ensures Progressing(s, r)
  {
    if tid !in s.mem.threads || !s.mem.threads[tid].MutationHeld? then s else
    var t := s.mem.threads[tid].token;
    End(if t !in s.db.auth || fault == RolledBack then s else Mutated(s, t, auth), tid)
  }

  predicate RunningExactly(s: State, ids: seq<Id>) {
    (forall id | id in ids :: id in s.db.rows && s.db.rows[id].status == Running)
    && (forall id | id in s.db.rows && s.db.rows[id].status == Running :: id in ids)
    && forall i, j | 0 <= i < j < |ids| :: ids[i] != ids[j]
  }

  function DoMarkRunningUnknown(s: State, ids: seq<Id>): (r: State)
    ensures Progressing(s, r)
  {
    if !RunningExactly(s, ids) then s else
    s.(db := s.db.(
         rows := UnknownIfRunning(s.db.rows, s.clock),
         audit := s.db.audit + seq(|ids|, i requires 0 <= i < |ids| => AuditEvent(ids[i], OutcomeUnknown))))
  }

  function DoPurge(s: State, id: Id): (r: State)
    ensures Progressing(s, r)
  {
    if id !in s.db.rows || id !in s.past.born || s.db.rows[id].completedAt.None? then s else
    var k := s.db.rows[id].key;
    var stone := Tombstone(id, Identity(s.past.born[id].call), s.clock + WINDOW);
    s.(db := s.db.(
         rows := s.db.rows - {id},
         index := if k.Some? then s.db.index - {k.value} else s.db.index,
         tombstones := if k.Some? then s.db.tombstones[k.value := stone] else s.db.tombstones),
       past := s.past.(purged := s.past.purged[id := s.clock]))
  }

  /** Cancellation, any other error return, or the return of an answer; the deferred boundary removal still
      runs. */
  function DoAbort(s: State, tid: nat): (r: State)
    ensures Progressing(s, r)
  {
    if tid !in s.mem.threads || s.mem.threads[tid].Clearing? then s else
    var tracked := Responsible(s, s.mem.threads[tid]);
    if tracked.Some? then Leave(s, tid, tracked.value, true) else End(s, tid)
  }

  function DoRestart(s: State): (r: State)
    ensures Progressing(s, r)
  {
    s.(mem := s.mem.(
         runtime := s.mem.runtime + 1, boundaries := {}, finalizersClosed := false,
         readers := {}, writer := None, threads := map[]))
  }

  function DoOutside(s: State, a: Event): (r: State)
    ensures Progressing(s, r)
  {
    match a
    case Tick(seconds) => s.(clock := s.clock + seconds)
    case SetMcp(started) => s.(mcpStarted := started)
    case SetWorld(ref, material) =>
      s.(world := if material.Some? then s.world[ref := material.value] else s.world - {ref})
    case CreateToken(t, auth) => if t in s.db.auth then s else s.(db := s.db.(auth := s.db.auth[t := auth]))
    case GrantLease(l, t) => s.(db := s.db.(leases := s.db.leases[l := t]))
  }

  function DoEnter(s: State, a: Entering): (r: State)
    ensures Progressing(s, r)
  {
    match a
    case Spawn(tid, t) => DoSpawn(s, tid, t)
    case Acquire(tid) => DoAcquire(s, tid)
    case Replay(tid) => DoReplay(s, tid)
    case Admit(tid, payload) => DoAdmit(s, tid, payload)
    case Insert(tid, fault) => DoInsert(s, tid, fault)
    case FinishBlocked(tid, fault) => DoFinishBlocked(s, tid, fault)
    case PreparePending(tid, payload) => DoPreparePending(s, tid, payload)
    case TrackPending(tid) => DoTrackPending(s, tid)
    case MarkRunning(tid, fault) => DoMarkRunning(s, tid, fault)
    case FinishStale(tid, fault) => DoFinishStale(s, tid, fault)
    case Decline(tid, fault) => DoDecline(s, tid, fault)
  }

  function DoDispatch(s: State, a: Dispatching): (r: State)
    ensures Progressing(s, r)
  {
    match a
    case Revalidate(tid, payload, readable) => DoRevalidate(s, tid, payload, readable)
    case Snapshot(tid, readable) => DoSnapshot(s, tid, readable)
    case ReadClock(tid) => DoReadClock(s, tid)
    case BeginDispatch(tid, fault) => DoBeginDispatch(s, tid, fault)
    case ExplainRefusal(tid) => DoExplainRefusal(s, tid)
    case Execute(tid, outcome) => DoExecute(s, tid, outcome)
    case Launch(tid) => DoLaunch(s, tid)
    case Finalize(tid, status) => DoFinalize(s, tid, status)
    case Finish(tid, fault) => DoFinish(s, tid, fault)
    case ClearBoundary(tid) => DoClear(s, tid)
    case Abort(tid) => DoAbort(s, tid)
  }

  function DoMaintain(s: State, a: Maintaining): (r: State)
    ensures Progressing(s, r)
  {
    match a
    case ListExpired(tid, ids) => DoListExpired(s, tid, ids)
    case CheckBoundary(tid) => DoCheckBoundary(s, tid)
    case PersistRecovery(tid, fault) => DoPersistRecovery(s, tid, fault)
    case AcquireExclusive(tid) => DoAcquireExclusive(s, tid)
    case Mutate(tid, auth, fault) => DoMutate(s, tid, auth, fault)
    case InvalidateTarget(target, profile, includeRunning) =>
      s.(db := s.db.(rows := InvalidatedForTarget(s.db.rows, target, profile, includeRunning, s.clock)))
    case CloseFinalizers => s.(mem := s.mem.(finalizersClosed := true))
    case MarkRunningUnknown(ids) => DoMarkRunningUnknown(s, ids)
    case Purge(id) => DoPurge(s, id)
    case PurgeTombstone(k) =>
      if k in s.db.tombstones && s.db.tombstones[k].expires <= s.clock
      then s.(db := s.db.(tombstones := s.db.tombstones - {k})) else s
    case Restart => DoRestart(s)
  }

  function Do(s: State, a: Action): (r: State)
    ensures Progressing(s, r)
  {
    match a
    case Outside(event) => DoOutside(s, event)
    case Enter(entering) => DoEnter(s, entering)
    case Dispatch(dispatching) => DoDispatch(s, dispatching)
    case Maintain(maintaining) => DoMaintain(s, maintaining)
  }

  /** A fresh database and runtime, with any clock and any targets. */
  predicate Init(s: State) {
    s.db.auth == map[] && s.db.leases == map[] && s.db.rows == map[] && s.db.index == map[] && s.db.tombstones == map[]
    && s.db.nextId == 1 && s.db.audit == [] && s.mem.boundaries == {} && s.mem.readers == {} && s.mem.writer.None?
    && s.mem.threads == map[] && s.past.born == map[] && s.past.purged == map[] && s.past.claims == map[]
    && s.past.executions == []
  }

  function Run(s: State, actions: seq<Action>): State
    decreases |actions|
  {
    if actions == [] then s else Do(Run(s, actions[..|actions| - 1]), actions[|actions| - 1])
  }
}
