/** Runs of the pool that attain its bounds. */
module PoolRuns {
  import opened Contracts
  import opened Text
  import opened Pipelines
  import opened Pools
  import RateLimits

  ghost predicate Reached(c: Config, s: State) {
    exists run :: IsRun(c, run) && run[|run| - 1] == s
  }

  const START := State(false, true, false, 0, {}, map[], 0, RateLimits.State(0, [], [], {}, map[], [], {}, {}, 0), [])

  lemma StartIsReached(c: Config)
    ensures Reached(c, START)
  {
    assert IsRun(c, [START]);
  }

  lemma Extend(c: Config, s: State, s': State)
    requires Reached(c, s) && Next(c, s, s')
    ensures Reached(c, s')
  {
    hide Next;
    var run :| IsRun(c, run) && run[|run| - 1] == s;
    assert IsRun(c, run + [s']) && (run + [s'])[|run|] == s';
  }

  // The in-flight registry.

  lemma {:induction false} ExtendAll(c: Config, run: seq<State>)
    requires run != [] && Reached(c, run[0]) && forall i :: 0 < i < |run| ==> Next(c, run[i - 1], run[i])
    ensures Reached(c, run[|run| - 1])
  {
    hide Next, Reached;
    if |run| > 1 {
      ExtendAll(c, run[..|run| - 1]);
      Extend(c, run[|run| - 2], run[|run| - 1]);
    }
  }

  const NO_DIAGNOSIS := Answers(false, Block, false, None, false, false, false, false, false, false, Failed, false)

  /** The slots do not bound the held IDs: however few there are, some reachable state holds any number of
      IDs while no slot is used. */
  lemma {:induction false} HeldIdsAreUnbounded(c: Config, n: nat) returns (s: State)
    requires c.Valid()
    ensures Reached(c, s) && s.used == 0 && |s.ids| >= n
  {
    hide Reached, Next;
    if n == 0 {
      s := START;
      StartIsReached(c);
    } else {
      var before := HeldIdsAreUnbounded(c, n - 1);
      var incidentId := FreshId(before.ids);
      var run := OneMoreHeld(c, before, incidentId, "trace", NO_DIAGNOSIS);
      ExtendAll(c, run);
      s := run[5];
    }
  }

  // The kill switch.

  /** Approved, rehearsed, enabled and not killed. */
  const GO :=
    Answers(true, RequireApproval, false, Some(Approved), false, true, true, true, false, true, Recovered, false)

  predicate OnTheWay(p: Pipe) {
    || p.pc in {Begin, Diagnosing, Judging, Asking, Approving, KillCheck, Building, Rehearsing, ApplyCheck, KillRecheck}
    || (p.pc == Deciding && p.verdict == RequireApproval)
  }

  lemma GoesOn(p: Pipe)
    requires OnTheWay(p)
    ensures OnTheWay(Step(p, GO).next) || Step(p, GO).next.pc == Applying
  {
    hide SameIds;
  }

  predicate Runs(s: State, t: nat, pc: Pc) {
    t in s.tasks && s.tasks[t].phase == Executing && s.tasks[t].pipe.pc == pc
  }

  /** These tasks are about to apply. */
  ghost predicate AboutToApply(s: State, from: nat, to: nat) {
    forall t: nat :: from <= t < to ==> Runs(s, t, Applying)
  }

  lemma StillAboutToApply(s: State, s': State, from: nat, to: nat, u: nat)
    requires AboutToApply(s, from, to) && u in s'.tasks && s'.tasks == s.tasks[u := s'.tasks[u]] && !(from <= u < to)
    ensures AboutToApply(s', from, to)
  {
    forall t: nat | from <= t < to
      ensures Runs(s', t, Applying)
    {
      assert Runs(s, t, Applying);
    }
  }

  lemma GoIsNext(c: Config, s: State, t: nat)
    requires t in s.tasks && s.tasks[t].phase == Executing && OnTheWay(s.tasks[t].pipe) && !s.kill && s.applyEnabled
    ensures Next(c, s, Advanced(s, t, GO))
  {
    hide Step, Next;
    assert Advance(c, s, Advanced(s, t, GO), t, GO);
    TaskStepIsNext(c, s, Advanced(s, t, GO), t);
  }

  /** A pipeline gets to the point of applying. */
  lemma {:induction false} Drive(c: Config, s: State, t: nat) returns (s': State)
    requires Reached(c, s) && t in s.tasks && s.tasks[t].phase == Executing && OnTheWay(s.tasks[t].pipe)
    requires !s.kill && s.applyEnabled
    ensures Reached(c, s') && Runs(s', t, Applying) && s' == s.(tasks := s.tasks[t := s'.tasks[t]])
    decreases Rank(s.tasks[t].pipe.pc)
  {
    hide Reached, Next, Step, OnTheWay, Rank;
    var p := s.tasks[t].pipe;
    assert p.pc != Finished by { NotFinished(p); }
    var s1 := Advanced(s, t, GO);
    GoIsNext(c, s, t);
    Extend(c, s, s1);
    GoesOn(p);
    StepDescends(p, GO);
    if s1.tasks[t].pipe.pc == Applying {
      s' := s1;
    } else {
      s' := Drive(c, s1, t);
    }
  }

  lemma NotFinished(p: Pipe)
    requires OnTheWay(p)
    ensures p.pc != Finished
  {}

  /** The pool with n pipelines about to apply. */
  lemma {:induction false} Loaded(c: Config, n: nat) returns (s: State)
    requires c.Valid() && n <= c.slots
    ensures Reached(c, s) && !s.kill && s.applyEnabled && s.used == s.next == n
    ensures AboutToApply(s, 0, n)
  {
    hide Reached, Next;
    if n == 0 {
      s := START;
      StartIsReached(c);
    } else {
      var before := Loaded(c, n - 1);
      var incidentId := FreshId(before.ids);
      var s1, s2 := Launch(c, before, incidentId, "trace");
      Extend(c, before, s1);
      Extend(c, s1, s2);
      s := Drive(c, s2, n - 1);
      StillAboutToApply(before, s2, 0, n - 1, n - 1);
      StillAboutToApply(s2, s, 0, n - 1, n - 1);
    }
  }

  /** All slots are about to apply, the switch is engaged, and then k pipelines apply. */
  lemma {:induction false} LateApplies(c: Config, k: nat) returns (run: seq<State>, i: nat)
    requires c.Valid() && k <= c.slots
    ensures IsRun(c, run) && |run| == i + 1 + k && forall j :: i <= j < |run| ==> run[j].kill
    ensures |run[|run| - 1].applies| == |run[i].applies| + k
    ensures AboutToApply(run[|run| - 1], k, c.slots)
  {
    hide Next;
    if k == 0 {
      var s := Loaded(c, c.slots);
      var before :| IsRun(c, before) && before[|before| - 1] == s;
      var s' := s.(kill := true);
      EngageIsNext(c, s);
      assert AboutToApply(s', 0, c.slots) by { EngagedStillRuns(s, c.slots); }
      run, i := before + [s'], |before|;
    } else {
      var before;
      before, i := LateApplies(c, k - 1);
      var s := before[|before| - 1];
      assert Runs(s, k - 1, Applying);
      var s' := ApplyIsNext(c, s, k - 1);
      assert AboutToApply(s, k, c.slots);
      StillAboutToApply(s, s', k, c.slots, k - 1);
      run := before + [s'];
    }
  }

  lemma EngagedStillRuns(s: State, to: nat)
    requires AboutToApply(s, 0, to)
    ensures AboutToApply(s.(kill := true), 0, to)
  {
    forall t: nat | t < to
      ensures Runs(s.(kill := true), t, Applying)
    {
      assert Runs(s, t, Applying);
    }
  }

  lemma EngageIsNext(c: Config, s: State)
    ensures Next(c, s, s.(kill := true))
  {
    hide TaskStep;
    assert Environment(c, s, s.(kill := true));
  }

  lemma ApplyIsNext(c: Config, s: State, t: nat) returns (s': State)
    requires Runs(s, t, Applying)
    ensures Next(c, s, s') && s'.kill == s.kill && |s'.applies| == |s.applies| + 1
    ensures t in s'.tasks && s'.tasks == s.tasks[t := s'.tasks[t]]
  {
    hide Step, Next;
    s' := Advanced(s, t, GO).(applies := s.applies + [t]);
    assert Advance(c, s, s', t, GO);
    TaskStepIsNext(c, s, s', t);
  }

  /** The bound of KillSwitchBoundsApplies is exact: in some run from the start, as many pipelines apply
      while the switch is engaged as there are slots. */
  lemma KillSwitchBoundIsAttained(c: Config) returns (run: seq<State>, i: nat, j: nat)
    requires c.Valid()
    ensures IsRun(c, run) && i <= j < |run| && forall k :: i <= k <= j ==> run[k].kill
    ensures |run[j].applies| == |run[i].applies| + c.slots
  {
    hide IsRun;
    run, i := LateApplies(c, c.slots);
    j := |run| - 1;
  }

  /** The package comment has the switch halt all Apply calls at once. It does not: in some run an Apply
      comes right after the switch was engaged. */
  lemma KillSwitchIsNotImmediate(c: Config) returns (run: seq<State>, i: nat)
    requires c.Valid()
    ensures IsRun(c, run) && i + 1 < |run| && run[i].kill && run[i + 1].kill
    ensures |run[i + 1].applies| == |run[i].applies| + 1
  {
    hide IsRun;
    run, i := LateApplies(c, 1);
  }
}
