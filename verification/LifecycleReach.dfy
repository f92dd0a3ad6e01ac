/** Runs from an empty database to the states that the counterexamples start from: what one thread does
    uninterrupted, as part of a run. */
module LifecycleReach {
  import opened Wrappers
  import opened ActionStore
  import opened Lifecycle
  import opened LifecycleProgress

  lemma RunNext(s: State, actions: seq<Action>, a: Action)
    ensures Run(s, actions + [a]) == Do(Run(s, actions), a)
  {
    assert (actions + [a])[..|actions|] == actions;
  }

  lemma RunEnter(s: State, actions: seq<Action>, a: Entering) returns (more: seq<Action>)
    ensures more == actions + [Enter(a)] && Run(s, more) == DoEnter(Run(s, actions), a)
  {
    more := actions + [Enter(a)];
    RunNext(s, actions, Enter(a));
  }

  lemma RunAdmission(s: State, actions: seq<Action>, tid: nat, c: Call, payload: string) returns (more: seq<Action>)
    ensures actions <= more && Run(s, more) == Admission(Run(s, actions), tid, c, payload)
  {
    more := RunEnter(s, actions, Spawn(tid, Calling(c)));
    more := RunEnter(s, more, Acquire(tid));
    more := RunEnter(s, more, Replay(tid));
    more := RunEnter(s, more, Admit(tid, payload));
    more := RunEnter(s, more, Insert(tid, Acknowledged));
  }

  lemma RunDispatch(s: State, actions: seq<Action>, a: Dispatching) returns (more: seq<Action>)
    ensures more == actions + [Dispatch(a)] && Run(s, more) == DoDispatch(Run(s, actions), a)
  {
    more := actions + [Dispatch(a)];
    RunNext(s, actions, Dispatch(a));
  }

  lemma RunMaintain(s: State, actions: seq<Action>, a: Maintaining) returns (more: seq<Action>)
    ensures more == actions + [Maintain(a)] && Run(s, more) == DoMaintain(Run(s, actions), a)
  {
    more := actions + [Maintain(a)];
    RunNext(s, actions, Maintain(a));
  }

  lemma RunOutside(s: State, actions: seq<Action>, a: Event) returns (more: seq<Action>)
    ensures more == actions + [Outside(a)] && Run(s, more) == DoOutside(Run(s, actions), a)
  {
    more := actions + [Outside(a)];
    RunNext(s, actions, Outside(a));
  }

  lemma RunApproval(s: State, actions: seq<Action>, tid: nat, id: Id, payload: string) returns (more: seq<Action>)
    ensures actions <= more && Run(s, more) == Approval(Run(s, actions), tid, id, payload)
  {
    more := RunEnter(s, actions, Spawn(tid, Approving(id)));
    more := RunEnter(s, more, Acquire(tid));
    more := RunEnter(s, more, PreparePending(tid, payload));
    more := RunEnter(s, more, TrackPending(tid));
    more := RunEnter(s, more, MarkRunning(tid, Acknowledged));
  }

  lemma RunCall(s: State, actions: seq<Action>, tid: nat, payload: string, outcome: Outcome) returns (more: seq<Action>)
    ensures actions <= more && Run(s, more) == CallConnector(Run(s, actions), tid, payload, outcome)
  {
    more := RunEnter(s, actions, Acquire(tid));
    more := RunDispatch(s, more, Revalidate(tid, payload, true));
    more := RunDispatch(s, more, Snapshot(tid, true));
    more := RunDispatch(s, more, ReadClock(tid));
    more := RunDispatch(s, more, BeginDispatch(tid, Acknowledged));
    more := RunDispatch(s, more, Execute(tid, outcome));
  }

  // ---------------------------------------------------------------- a pending request

  const REF := Ref(1, 1, "act")
  const AUTH := Auth(false, None, map[REF := Perm(ApprovalRequired, None)], 0)
  const CALL := Call(Some(1), MCP, REF, "input", "reason", None)

  const START := State(
    0, false, map[], Database(map[], map[], map[], map[], map[], 1, []), Memory(0, {}, false, {}, None, map[]),
    History(map[], map[], map[], []))

  /** A token that needs approval for one action of one target. */
  const OPEN := START.(mcpStarted := true, world := map[REF := "material"], db := START.db.(auth := map[1 := AUTH]))

  lemma StartIsInit()
    ensures Init(START)
  {
  }

  lemma Opens() returns (actions: seq<Action>)
    ensures Run(START, actions) == OPEN
  {
    actions := RunOutside(START, [], SetMcp(true));
    actions := RunOutside(START, actions, SetWorld(REF, Some("material")));
    actions := RunOutside(START, actions, CreateToken(1, AUTH));
  }

  /** Request 1 is pending, still authorized, and nothing else is going on. */
  ghost predicate Pending(s: State) {
    s.db.rows.Keys == {1} && Markable(s.db.rows[1]) && s.db.audit == [] && s.mem == START.mem && s.mcpStarted
      && s.clock == 0
    && s.db.auth == map[1 := AUTH] && s.world == map[REF := "material"] && 1 in s.past.born
    && StillAuthorized(s, 1, "payload")
    && s.past.born[1].call == CALL && s.past.born[1].status == ApprovalPending && s.past.executions == []
  }

  lemma CreatedIsPending()
    ensures var t := Request(OPEN, CALL, "payload"); t.status == ApprovalPending && Pending(Created(OPEN, t))
  {
  }

  lemma ReachesPending() returns (actions: seq<Action>)
    ensures Pending(Run(START, actions))
  {
    var first := Opens();
    actions := RunAdmission(START, first, 1, CALL, "payload");
    CreatedIsPending();
    AdmissionAdmits(OPEN, 1, CALL, "payload");
  }
}
