/** The start/stop handshake of the inbound catch-up driver: any number of
    subscribers, drops and driver tasks, interleaved one atomic access at a
    time. */
module CatchUpDriver {

  /** Where a driver task stands. */
  datatype TaskPc =
    | Ticking     // before the load of `active` that follows a tick
    | Clearing    // saw zero; before the store of `started := false`
    | Rechecking  // cleared `started`; before the second load of `active`
    | Reclaiming  // saw a subscriber; before the compare-exchange
    | Requesting  // running a catch-up request
    | Finished

  /** `arriving` subscribers have counted themselves but not yet swapped
      `started`; `holding` subscribers have their subscription. */
  datatype State = State(
    active: nat,
    started: bool,
    arriving: set<nat>,
    holding: set<nat>,
    tasks: map<nat, TaskPc>)

  datatype Action =
    | CountIn(sub: nat)              // subscribe: active.fetch_add(1)
    | SwapStarted(sub: nat, task: nat) // spawn: started.swap(true), spawning `task` if it was false
    | DropSubscription(sub: nat)     // drop: active.fetch_sub(1)
    | Advance(task: nat)             // the task's next atomic access

  const INITIAL := State(0, false, {}, {}, map[])

  predicate Enabled(s: State, a: Action) {
    match a
    case CountIn(sub) => sub !in s.arriving && sub !in s.holding
    case SwapStarted(sub, task) => sub in s.arriving && task !in s.tasks
    case DropSubscription(sub) => sub in s.holding && s.active > 0
    case Advance(task) => task in s.tasks && s.tasks[task] != Finished
  }

  function AdvanceTask(s: State, task: nat): State
    requires task in s.tasks && s.tasks[task] != Finished
  {
    match s.tasks[task]
    case Ticking =>
      if s.active == 0 then s.(tasks := s.tasks[task := Clearing]) else s.(tasks := s.tasks[task := Requesting])
    case Clearing => s.(started := false, tasks := s.tasks[task := Rechecking])
    case Rechecking =>
      if s.active == 0 then s.(tasks := s.tasks[task := Finished]) else s.(tasks := s.tasks[task := Reclaiming])
    case Reclaiming =>
      if !s.started then s.(started := true, tasks := s.tasks[task := Requesting])
      else s.(tasks := s.tasks[task := Finished])
    case Requesting => s.(tasks := s.tasks[task := Ticking])
  }

  function Do(s: State, a: Action): State
    requires Enabled(s, a)
  {
    match a
    case CountIn(sub) => s.(active := s.active + 1, arriving := s.arriving + {sub})
    case SwapStarted(sub, task) =>
      var swapped := s.(started := true, arriving := s.arriving - {sub}, holding := s.holding + {sub});
      if s.started then swapped else swapped.(tasks := s.tasks[task := Ticking])
    case DropSubscription(sub) => s.(active := s.active - 1, holding := s.holding - {sub})
    case Advance(task) => AdvanceTask(s, task)
  }

  predicate Legal(s: State, run: seq<Action>)
    decreases |run|, 0
  {
    run == [] || (Legal(s, run[..|run| - 1]) && Enabled(Run(s, run[..|run| - 1]), run[|run| - 1]))
  }

  function Run(s: State, run: seq<Action>): State
    requires Legal(s, run)
    decreases |run|, 1
  {
    if run == [] then s else Do(Run(s, run[..|run| - 1]), run[|run| - 1])
  }

  /** A task that still owns `started`. */
  predicate Owns(s: State, task: nat) {
    task in s.tasks && (s.tasks[task].Ticking? || s.tasks[task].Clearing? || s.tasks[task].Requesting?)
  }

  /** A task that gave `started` up and has not yet decided. */
  predicate Deciding(s: State, task: nat) {
    task in s.tasks && (s.tasks[task].Rechecking? || s.tasks[task].Reclaiming?)
  }

  ghost predicate Consistent(s: State) {
    && s.arriving !! s.holding
    && s.active == |s.arriving| + |s.holding|
    && (forall t, u :: Owns(s, t) && Owns(s, u) ==> t == u)
    && (s.started <==> exists t :: Owns(s, t))
    && (s.active > 0 && !s.started ==> s.arriving != {} || exists t :: Deciding(s, t))
  }

  lemma StepKeepsConsistent(s: State, a: Action)
    requires Consistent(s) && Enabled(s, a)
    ensures Consistent(Do(s, a))
  {
    var s' := Do(s, a);
    match a
    case CountIn(sub) =>
      assert sub in s'.arriving;
      assert forall t :: Owns(s', t) <==> Owns(s, t);
    case SwapStarted(sub, task) =>
      assert |s'.arriving| == |s.arriving| - 1;
      if !s.started {
        assert Owns(s', task);
        forall t | t != task ensures !Owns(s', t) { assert Owns(s', t) ==> Owns(s, t); }
      } else {
        assert forall t :: Owns(s', t) <==> Owns(s, t);
      }
    case DropSubscription(sub) =>
      assert |s'.holding| == |s.holding| - 1;
      assert forall t :: Owns(s', t) <==> Owns(s, t);
      assert forall t :: Deciding(s', t) <==> Deciding(s, t);
    case Advance(task) =>
      AdvanceKeepsConsistent(s, task);
  }

  lemma AdvanceKeepsConsistent(s: State, task: nat)
    requires Consistent(s) && task in s.tasks && s.tasks[task] != Finished
    ensures Consistent(AdvanceTask(s, task))
  {
    var s' := AdvanceTask(s, task);
    assert forall t :: t != task ==> (Owns(s', t) <==> Owns(s, t)) && (Deciding(s', t) <==> Deciding(s, t));
    match s.tasks[task]
    case Ticking => assert Owns(s, task) && Owns(s', task);
    case Clearing =>
      assert Owns(s, task) && !Owns(s', task);
      assert Deciding(s', task);
    case Rechecking =>
      assert !Owns(s, task) && !Owns(s', task);
      if s.active != 0 { assert Deciding(s', task); }
    case Reclaiming =>
      assert !Owns(s, task);
      if !s.started { assert Owns(s', task); }
    case Requesting => assert Owns(s, task) && Owns(s', task);
  }

  lemma {:induction false} RunsStayConsistent(run: seq<Action>)
    requires Legal(INITIAL, run)
    ensures Consistent(Run(INITIAL, run))
  {
    if run != [] {
      RunsStayConsistent(run[..|run| - 1]);
      StepKeepsConsistent(Run(INITIAL, run[..|run| - 1]), run[|run| - 1]);
    } else {
      assert forall t :: !Owns(INITIAL, t);
    }
  }

  /** Over every interleaving: at most one task owns `started`, it is set
      exactly when one does, and a counted subscription without an owner still
      has a subscriber before its swap or a task before its decision. */
  lemma Handshake(run: seq<Action>)
    requires Legal(INITIAL, run)
    ensures var s := Run(INITIAL, run);
            && (forall t, u :: Owns(s, t) && Owns(s, u) ==> t == u)
            && (s.started <==> exists t :: Owns(s, t))
            && s.active == |s.arriving| + |s.holding|
            && (s.active > 0 && !s.started ==> s.arriving != {} || exists t :: Deciding(s, t))
  {
    RunsStayConsistent(run);
  }

  /** So once every subscriber has swapped and every task has decided, a held
      subscription has a driver that will request again. */
  lemma NoSubscriptionUndriven(run: seq<Action>)
    requires Legal(INITIAL, run)
    requires var s := Run(INITIAL, run); s.arriving == {} && forall t :: !Deciding(s, t)
    ensures var s := Run(INITIAL, run); s.holding != {} ==> exists t :: Owns(s, t)
  {
    RunsStayConsistent(run);
    var s := Run(INITIAL, run);
    if s.holding != {} {
      var h :| h in s.holding;
      assert |s.holding| == |s.holding - {h}| + 1;
    }
  }

  /** A continuation of at most two steps, without new subscribers or ticks,
      that puts a driver in charge. */
  ghost predicate Recovers(s: State, more: seq<Action>) {
    && |more| <= 2
    && Legal(s, more)
    && (forall i :: 0 <= i < |more| ==> more[i].SwapStarted? || (more[i].Advance? && Deciding(s, more[i].task)))
    && exists t :: Owns(Run(s, more), t)
  }

  lemma SwapRecovers(s: State, sub: nat, spare: nat)
    requires sub in s.arriving && spare !in s.tasks && !s.started
    ensures Recovers(s, [SwapStarted(sub, spare)])
  {
    OneStep(s, SwapStarted(sub, spare));
    assert Owns(Run(s, [SwapStarted(sub, spare)]), spare);
  }

  lemma DecisionRecovers(s: State, t: nat)
    requires Deciding(s, t) && !s.started && s.active > 0
    ensures exists more :: Recovers(s, more)
  {
    OneStep(s, Advance(t));
    if s.tasks[t].Reclaiming? {
      assert Owns(Run(s, [Advance(t)]), t);
      assert Recovers(s, [Advance(t)]);
    } else {
      TwoSteps(s, Advance(t), Advance(t));
      assert Owns(Run(s, [Advance(t), Advance(t)]), t);
      assert Recovers(s, [Advance(t), Advance(t)]);
    }
  }

  /** And it is never stuck on the way there: from every reachable state with
      a counted subscriber, the swap of an arrived subscriber or at most two
      steps of a deciding task put a driver in charge. */
  lemma DriverInReach(run: seq<Action>, spare: nat)
    requires Legal(INITIAL, run) && Run(INITIAL, run).active > 0 && spare !in Run(INITIAL, run).tasks
    ensures exists more :: Recovers(Run(INITIAL, run), more)
  {
    RunsStayConsistent(run);
    var s := Run(INITIAL, run);
    if s.started {
      var t :| Owns(s, t);
      assert Run(s, []) == s && Owns(Run(s, []), t);
      assert Recovers(s, []);
    } else if sub :| sub in s.arriving {
      SwapRecovers(s, sub, spare);
    } else {
      var t :| Deciding(s, t);
      DecisionRecovers(s, t);
    }
  }

  lemma OneStep(s: State, a: Action)
    requires Enabled(s, a)
    ensures Legal(s, [a]) && Run(s, [a]) == Do(s, a)
  {
    assert [a][..0] == [];
    assert Legal(s, [a][..0]) && Run(s, [a][..0]) == s;
  }

  lemma TwoSteps(s: State, a: Action, b: Action)
    requires Enabled(s, a) && Enabled(Do(s, a), b)
    ensures Legal(s, [a, b]) && Run(s, [a, b]) == Do(Do(s, a), b)
  {
    OneStep(s, a);
    assert [a, b][..1] == [a];
  }

  /** A task ends its loop only when nobody is subscribed or another task owns
      `started`. */
  lemma FinishesOnlyWhenUnneeded(run: seq<Action>, task: nat)
    requires Legal(INITIAL, run) && Enabled(Run(INITIAL, run), Advance(task))
    requires Do(Run(INITIAL, run), Advance(task)).tasks[task] == Finished
    ensures var s := Run(INITIAL, run);
            (s.arriving == {} && s.holding == {}) || exists t :: t != task && Owns(s, t)
  {
    RunsStayConsistent(run);
    var s := Run(INITIAL, run);
    if s.active != 0 {
      assert s.tasks[task].Reclaiming? && s.started;
    }
  }
}
