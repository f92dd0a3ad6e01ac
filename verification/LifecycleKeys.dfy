/** How long an idempotency key protects: a run in which one key is executed twice. */
module LifecycleKeys {
  import opened Wrappers
  import opened ActionStore
  import opened Lifecycle
  import opened LifecycleProgress
  import opened LifecycleReach

  /** A call that is admitted, executed and completed without interruption. */
  function Through(s: State, tid: nat, c: Call, payload: string): State {
    Completion(CallConnector(Admission(s, tid, c, payload), tid, payload, Returned(Completed)), tid)
  }

  /** The call may run at any time: its token and permission do not expire. */
  predicate Lasting(s: State, c: Call) {
    Gated(c) && c.token.value in s.db.auth && c.ref in s.world && s.mcpStarted
    && var a := s.db.auth[c.token.value];
       !a.revoked && a.expiresAt.None? && c.ref in a.perms && a.perms[c.ref] == Perm(AlwaysRun, None)
  }

  /** Nobody is in the way, and nothing is on record for the call. */
  predicate Unopposed(s: State, tid: nat, c: Call) {
    Free(s, tid) && s.mem.boundaries == {} && (KeyOf(c).None? || Lookup(s, KeyOf(c).value).None?)
  }

  lemma LastingMayRun(s: State, c: Call)
    requires Lasting(s, c)
    ensures TokenActive(s.db.auth[c.token.value], s.clock)
    ensures Permission(s.db.auth[c.token.value], c.ref, s.clock) == Some(Perm(AlwaysRun, None))
  {
  }

  /** What the call leaves behind: a completed request of its own, executed once. */
  ghost predicate Leaves(s: State, r: State, c: Call) {
    var id, n := s.db.nextId, |s.past.executions|;
    r.mem == s.mem && r.clock == s.clock && r.mcpStarted && r.world == s.world && r.db.auth == s.db.auth
    && r.db.nextId == id + 1 && id in r.db.rows && r.db.rows[id].key == KeyOf(c) && r.db.rows[id].completedAt.Some?
    && id in r.past.born && r.past.born[id].call == c && r.past.born == s.past.born[id := r.past.born[id]]
    && |r.past.executions| == n + 1 && r.past.executions[..n] == s.past.executions && r.past.executions[n].id == id
  }

  /** About to execute the request it has just inserted. */
  function Inserted(s: State, tid: nat, c: Call, payload: string): State
    requires Lasting(s, c)
  {
    Move(Created(s, Request(s, c, payload)), tid, Executing(s.db.nextId))
  }

  lemma InsertedIs(s: State, tid: nat, c: Call, payload: string)
    requires Lasting(s, c) && Unopposed(s, tid, c)
    ensures var a, id := Inserted(s, tid, c, payload), s.db.nextId;
            Ready(a, tid, id) && StillAuthorized(a, id, payload) && id in a.db.rows
            && Claimable(a.db.rows[id], a.mem.runtime, a.clock) && Admission(s, tid, c, payload) == a
  {
    LastingMayRun(s, c);
    AdmissionAdmits(s, tid, c, payload);
    FreshIsReady(s, tid, c, payload);
  }

  lemma CalledLeaves(s: State, tid: nat, c: Call, payload: string, v: Validation)
    requires Lasting(s, c) && Unopposed(s, tid, c)
    requires var row := NewRow(s, Request(s, c, payload)); row.status == Running
    ensures var w := Called(Inserted(s, tid, c, payload), tid, s.db.nextId, v, Returned(Completed));
            Leaves(s, Completion(w, tid), c)
  {
    var a, id := Inserted(s, tid, c, payload), s.db.nextId;
    var w := Called(a, tid, id, v, Returned(Completed));
    CompletionFinishes(w, tid, id, Completed);
    assert w.mem.threads - {tid} == s.mem.threads;
    assert w.mem.boundaries - {id} == s.mem.boundaries;
  }

  lemma ThroughLeaves(s: State, tid: nat, c: Call, payload: string)
    requires Lasting(s, c) && Unopposed(s, tid, c)
    ensures Leaves(s, Through(s, tid, c, payload), c)
  {
    var a, id := Inserted(s, tid, c, payload), s.db.nextId;
    InsertedIs(s, tid, c, payload);
    ExecutionCalls(a, tid, id, payload, Returned(Completed));
    CalledLeaves(s, tid, c, payload, Validated(a, id, payload));
  }

  /** The request is purged and its record forgotten. */
  function Forgotten(s: State, id: Id): State {
    DoOutside(DoMaintain(s, Purge(id)), Tick(WINDOW))
  }

  lemma ForgottenIsFree(s: State, id: Id, tid: nat, c: Call)
    requires Lasting(s, c) && Free(s, tid) && s.mem.boundaries == {} && KeyOf(c).Some?
    requires id in s.db.rows && s.db.rows[id].key == KeyOf(c) && s.db.rows[id].completedAt.Some? && id in s.past.born
    ensures var r := Forgotten(s, id);
            Lasting(r, c) && Unopposed(r, tid, c) && r.past.born == s.past.born
            && r.past.executions == s.past.executions && r.db.nextId == s.db.nextId
  {
  }

  lemma RunThrough(s: State, actions: seq<Action>, tid: nat, c: Call, payload: string) returns (more: seq<Action>)
    ensures Run(s, more) == Through(Run(s, actions), tid, c, payload)
  {
    more := RunAdmission(s, actions, tid, c, payload);
    more := RunCall(s, more, tid, payload, Returned(Completed));
    more := RunDispatch(s, more, Finish(tid, Acknowledged));
    more := RunDispatch(s, more, ClearBoundary(tid));
  }

  lemma RunForgotten(s: State, actions: seq<Action>, id: Id) returns (more: seq<Action>)
    ensures Run(s, more) == Forgotten(Run(s, actions), id)
  {
    more := RunMaintain(s, actions, Purge(id));
    more := RunOutside(s, more, Tick(WINDOW));
  }

  /** The last two executions are of different requests of this call. */
  ghost predicate Twice(r: State, c: Call) {
    var n := |r.past.executions|;
    n >= 2
    && var x, y := r.past.executions[n - 2].id, r.past.executions[n - 1].id;
       x != y && x in r.past.born && y in r.past.born && r.past.born[x].call == c && r.past.born[y].call == c
  }

  lemma ThroughTwice(p: State, once: State, free: State, r: State, c: Call)
    requires Leaves(p, once, c) && Leaves(free, r, c)
    requires free.past.born == once.past.born && free.past.executions == once.past.executions
             && free.db.nextId == once.db.nextId
    ensures Twice(r, c)
  {
    var n := |p.past.executions|;
    assert r.past.executions[n] == r.past.executions[..n + 1][n];
  }

  /** Every run that leaves a call with a key unopposed can be continued so that its key is executed twice. */
  lemma KeyExecutedTwice(s: State, actions: seq<Action>, tid: nat, c: Call, payload: string)
      returns (more: seq<Action>)
    requires KeyOf(c).Some? && Lasting(Run(s, actions), c) && Unopposed(Run(s, actions), tid, c)
    ensures Twice(Run(s, more), c)
  {
    var p := Run(s, actions);
    var id := p.db.nextId;
    more := RunThrough(s, actions, tid, c, payload);
    ThroughLeaves(p, tid, c, payload);
    var once := Run(s, more);
    more := RunForgotten(s, more, id);
    ForgottenIsFree(once, id, tid, c);
    var free := Run(s, more);
    more := RunThrough(s, more, tid, c, payload);
    ThroughLeaves(free, tid, c, payload);
    ThroughTwice(p, once, free, Run(s, more), c);
  }

  // ---------------------------------------------------------------- from an empty database

  const KEYED := CALL.(key := Some("key"))
  const ALWAYS := Auth(false, None, map[REF := Perm(AlwaysRun, None)], 0)
  const WILLING := OPEN.(db := OPEN.db.(auth := map[1 := ALWAYS]))

  lemma Wills() returns (actions: seq<Action>)
    ensures Run(START, actions) == WILLING
  {
    actions := RunOutside(START, [], SetMcp(true));
    actions := RunOutside(START, actions, SetWorld(REF, Some("material")));
    actions := RunOutside(START, actions, CreateToken(1, ALWAYS));
  }

  /** One key, two requests, two executions: the second call comes when the first request's record is forgotten. */
  lemma ForgottenKeyRunsAgain() returns (actions: seq<Action>)
    ensures Init(START) && KeyOf(KEYED).Some? && Twice(Run(START, actions), KEYED)
  {
    StartIsInit();
    var first := Wills();
    actions := KeyExecutedTwice(START, first, 1, KEYED, "payload");
  }
}
