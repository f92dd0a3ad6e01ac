/** Shutdown of the background finalizers: admission is closed under a lock, one waiter drains the wait
    group and then signals everybody who waits. Finalizers and callers interleave freely. */
module Finalizers {

  /** A call of `StopFinalizers` or `WaitFinalizers`. */
  datatype Call = Stopping | Waiting | Selecting | Returned(nothing: bool)

  /** The goroutine that waits for the wait group, started once. */
  datatype Waiter = NotStarted | Draining | Done

  datatype State = State(closed: bool, running: set<nat>, waiter: Waiter, calls: map<nat, Call>)

  datatype Action =
    | Launch(finalizer: nat)
    | Finish(finalizer: nat)
    | CallStop(call: nat)
    | CallWait(call: nat)
    | Close(call: nat)
    | Once(call: nat)
    | Drain
    | ReturnNil(call: nat)
    | ReturnError(call: nat)

  predicate In(s: State, call: nat, pc: Call) {
    call in s.calls && s.calls[call] == pc
  }

  function Do(s: State, a: Action): State {
    match a
    case Launch(f) => if s.closed || f in s.running then s else s.(running := s.running + {f})
    case Finish(f) => s.(running := s.running - {f})
    case CallStop(c) => if c in s.calls then s else s.(calls := s.calls[c := Stopping])
    case CallWait(c) => if c in s.calls then s else s.(calls := s.calls[c := Waiting])
    case Close(c) => if In(s, c, Stopping) then s.(closed := true, calls := s.calls[c := Waiting]) else s
    case Once(c) =>
      if In(s, c, Waiting)
        then s.(waiter := if s.waiter.NotStarted? then Draining else s.waiter, calls := s.calls[c := Selecting]) else s
    case Drain => if s.waiter.Draining? && s.running == {} then s.(waiter := Done) else s
    case ReturnNil(c) => if In(s, c, Selecting) && s.waiter.Done? then s.(calls := s.calls[c := Returned(true)]) else s
    case ReturnError(c) => if In(s, c, Selecting) then s.(calls := s.calls[c := Returned(false)]) else s
  }

  const INIT := State(false, {}, NotStarted, map[])

  function Run(s: State, actions: seq<Action>): State
    decreases |actions|
  {
    if actions == [] then s else Do(Run(s, actions[..|actions| - 1]), actions[|actions| - 1])
  }

  /** The first wait follows the start of shutdown. */
  ghost predicate Disciplined(actions: seq<Action>)
    decreases |actions|
  {
    actions != [] ==>
      var before := actions[..|actions| - 1];
      Disciplined(before) && (actions[|actions| - 1].CallWait? ==> Run(INIT, before).closed)
  }

  // ---------------------------------------------------------------- what a return of nil means

  ghost predicate Drained(s: State) {
    s.closed && s.running == {}
  }

  ghost predicate Sound(s: State) {
    (forall c | c in s.calls :: s.calls[c] == Stopping || s.closed)
    && (s.waiter.NotStarted? || s.closed)
    && (s.waiter.Done? ==> Drained(s))
    && (forall c | c in s.calls :: s.calls[c] == Returned(true) ==> s.waiter.Done?)
  }

  lemma {:induction false} DisciplinedIsSound(actions: seq<Action>)
    requires Disciplined(actions)
    ensures Sound(Run(INIT, actions))
    decreases |actions|
  {
    if actions != [] { DisciplinedIsSound(actions[..|actions| - 1]); }
  }

  lemma {:induction false} StaysDrained(s: State, actions: seq<Action>)
    requires Drained(s)
    ensures Drained(Run(s, actions))
    decreases |actions|
  {
    if actions != [] { StaysDrained(s, actions[..|actions| - 1]); }
  }

  lemma {:induction false} RunFrom(s: State, first: seq<Action>, more: seq<Action>)
    ensures Run(s, first + more) == Run(Run(s, first), more)
    decreases |more|
  {
    if more == [] {
      assert first + more == first;
    } else {
      var n := |more| - 1;
      assert (first + more)[..|first| + n] == first + more[..n];
      RunFrom(s, first, more[..n]);
    }
  }

  /** Once a call has returned nil, no finalizer is running and none will ever start. */
  lemma NilMeansDrained(actions: seq<Action>, more: seq<Action>, call: nat)
    requires Disciplined(actions) && In(Run(INIT, actions), call, Returned(true))
    ensures Run(INIT, actions + more).running == {} && Run(INIT, actions + more).closed
  {
    DisciplinedIsSound(actions);
    StaysDrained(Run(INIT, actions), more);
    RunFrom(INIT, actions, more);
  }

  // ---------------------------------------------------------------- without the discipline

  /** Marks a call for the quantifiers below. */
  ghost predicate Seen(c: nat) { true }

  /** In every continuation, a call that is made and returns nil from now on finds everything drained. */
  ghost predicate Trustworthy(s: State) {
    forall more, c {:trigger Run(s, more), Seen(c)} ::
      Seen(c) && c !in s.calls && In(Run(s, more), c, Returned(true)) ==> Drained(Run(s, more))
  }

  /** Shutdown has begun, and if the drain signal has been given nothing was running any more. */
  predicate Safe(s: State) {
    s.closed && (s.waiter.Done? ==> s.running == {})
  }

  lemma {:induction false} StaysSafe(s: State, actions: seq<Action>, c: nat)
    requires Safe(s) && c !in s.calls
    ensures Safe(Run(s, actions)) && (In(Run(s, actions), c, Returned(true)) ==> Run(s, actions).waiter.Done?)
    decreases |actions|
  {
    if actions != [] { StaysSafe(s, actions[..|actions| - 1], c); }
  }

  lemma RunOne(s: State, a: Action)
    ensures Run(s, [a]) == Do(s, a)
  {
    assert [a][..0] == [];
  }

  lemma RunNext(s: State, actions: seq<Action>, a: Action)
    ensures Run(s, actions + [a]) == Do(Run(s, actions), a)
  {
    RunFrom(s, actions, [a]);
    RunOne(Run(s, actions), a);
  }

  /** Let every running finalizer finish. */
  lemma FinishAll(s: State) returns (actions: seq<Action>)
    ensures Run(s, actions) == s.(running := {})
    decreases s.running
  {
    actions := [];
    if s.running != {} {
      var f :| f in s.running;
      var s' := Do(s, Finish(f));
      assert s'.running < s.running;
      var rest := FinishAll(s');
      RunOne(s, Finish(f));
      RunFrom(s, [Finish(f)], rest);
      actions := [Finish(f)] + rest;
    }
  }

  /** A wait that is begun now. */
  lemma BeginsWait(s: State, c: nat) returns (actions: seq<Action>)
    requires c !in s.calls
    ensures var waiter := if s.waiter.NotStarted? then Draining else s.waiter;
            Run(s, actions) == s.(waiter := waiter, calls := s.calls[c := Selecting])
  {
    RunOne(s, CallWait(c));
    RunNext(s, [CallWait(c)], Once(c));
    actions := [CallWait(c)] + [Once(c)];
    assert s.calls[c := Waiting][c := Selecting] == s.calls[c := Selecting];
  }

  /** While shutdown has not begun, a wait can be drained, a finalizer started, and nil returned. */
  lemma OpenIsUnsafe(s: State, c: nat) returns (actions: seq<Action>)
    requires !s.closed && c !in s.calls
    ensures In(Run(s, actions), c, Returned(true)) && Run(s, actions).running != {}
  {
    var wait := BeginsWait(s, c);
    var s1 := Run(s, wait);
    var finish := FinishAll(s1);
    RunFrom(s, wait, finish);
    RunNext(s, wait + finish, Drain);
    RunNext(s, wait + finish + [Drain], Launch(0));
    RunNext(s, wait + finish + [Drain] + [Launch(0)], ReturnNil(c));
    actions := wait + finish + [Drain] + [Launch(0)] + [ReturnNil(c)];
    assert 0 in Run(s, actions).running;
  }

  /** For calls made from now on, nil can be trusted exactly when shutdown has begun and a drain signal that has
      already been given was given with nothing running. */
  lemma TrustExactly(s: State, c: nat)
    requires c !in s.calls
    ensures Trustworthy(s) <==> Safe(s)
  {
    if Safe(s) {
      forall more, d | Seen(d) && d !in s.calls && In(Run(s, more), d, Returned(true)) ensures Drained(Run(s, more)) {
        StaysSafe(s, more, d);
      }
    } else {
      assert Seen(c);
      if !s.closed {
        var actions := OpenIsUnsafe(s, c);
        assert !Drained(Run(s, actions));
      } else {
        var wait := BeginsWait(s, c);
        RunNext(s, wait, ReturnNil(c));
        assert !Drained(Run(s, wait + [ReturnNil(c)]));
      }
    }
  }

  /** From the start: a wait before shutdown is drained, a finalizer starts, and a later stop returns nil while
      that finalizer runs. */
  lemma EarlyWaitMisleads() returns (actions: seq<Action>)
    ensures actions == [CallWait(0), Once(0), Drain, Launch(7), CallStop(1), Close(1), Once(1), ReturnNil(1)]
    ensures In(Run(INIT, actions), 1, Returned(true)) && Run(INIT, actions).running == {7} && !Disciplined(actions)
  {
    RunOne(INIT, CallWait(0));
    RunNext(INIT, [CallWait(0)], Once(0));
    assert [CallWait(0)] + [Once(0)] == [CallWait(0), Once(0)];
    RunNext(INIT, [CallWait(0), Once(0)], Drain);
    RunNext(INIT, [CallWait(0), Once(0), Drain], Launch(7));
    var front := [CallWait(0), Once(0), Drain, Launch(7)];
    assert [CallWait(0), Once(0)] + [Drain] == [CallWait(0), Once(0), Drain];
    assert [CallWait(0), Once(0), Drain] + [Launch(7)] == front;
    var stop := [CallStop(1), Close(1), Once(1), ReturnNil(1)];
    StopsAtOnce(Run(INIT, front), 1);
    RunFrom(INIT, front, stop);
    actions := front + stop;
    EarlyIsUndisciplined(actions, 0);
  }

  lemma {:induction false} EarlyIsUndisciplined(actions: seq<Action>, c: nat)
    requires actions != [] && actions[0] == CallWait(c)
    ensures !Disciplined(actions)
    decreases |actions|
  {
    var before := actions[..|actions| - 1];
    if before != [] {
      EarlyIsUndisciplined(before, c);
    } else {
      assert Run(INIT, before) == INIT;
    }
  }

  /** A stop call that runs through without interruption once the waiter is done. */
  lemma StopsAtOnce(s: State, c: nat)
    requires s.waiter.Done? && c !in s.calls
    ensures var r := Run(s, [CallStop(c), Close(c), Once(c), ReturnNil(c)]);
            In(r, c, Returned(true)) && r.running == s.running
  {
    RunOne(s, CallStop(c));
    RunNext(s, [CallStop(c)], Close(c));
    RunNext(s, [CallStop(c)] + [Close(c)], Once(c));
    RunNext(s, [CallStop(c)] + [Close(c)] + [Once(c)], ReturnNil(c));
    var all := [CallStop(c), Close(c), Once(c), ReturnNil(c)];
    assert [CallStop(c)] + [Close(c)] + [Once(c)] + [ReturnNil(c)] == all;
  }
}
