/** The orchestrator, the limiter and the approval registry together: what stands behind every Apply. */
module Authorisations {
  import opened Contracts
  import opened Pipelines
  import EventLog
  import RateLimits
  import Pools
  import ApprovalRuns

  /** Beside the two machines, as observations: the request ID under which a task has asked for approval, and
      the index in the limiter's history of a task's AUTO decision. */
  datatype State = State(
    pool: Pools.State, approvals: ApprovalRuns.State, asked: map<nat, string>, decided: map<nat, nat>)

  ghost predicate Init(c: Pools.Config, s: State) {
    Pools.Init(c, s.pool) && ApprovalRuns.Init(s.approvals) && s.asked == map[] && s.decided == map[]
  }

  /** The task has its approval stage before it. */
  ghost predicate MayAsk(s: State, t: nat) {
    && t in s.pool.tasks && s.pool.tasks[t].phase == Pools.Executing && s.pool.tasks[t].pipe.pc == Approving
    && t !in s.asked
  }

  /** The task calls RequestApproval, which registers a request. */
  ghost predicate Ask(s: State, s': State, t: nat, id: string) {
    && MayAsk(s, t) && ApprovalRuns.Register(s.approvals, s'.approvals, id)
    && s' == s.(approvals := s'.approvals, asked := s.asked[t := id])
  }

  /** RequestApproval returns what its request has been answered; without credentials it has made no
      request, and the answer is DENIED (or, from another notifier, an error). */
  ghost predicate Replies(s: State, t: nat, approval: Option<ApprovalDecision>) {
    if t in s.asked then
      && s.asked[t] in s.approvals.requests && s.approvals.requests[s.asked[t]].Answered?
      && approval == Some(s.approvals.requests[s.asked[t]].answer.decision)
    else approval in {None, Some(Denied)}
  }

  /** A step of a pipeline; an AUTO decision is recorded at the end of the history. */
  ghost predicate Advance(c: Pools.Config, s: State, s': State, t: nat, a: Answers) {
    && Pools.Advance(c, s.pool, s'.pool, t, a)
    && var pc := s.pool.tasks[t].pipe.pc;
       && (pc == Approving ==> Replies(s, t, a.approval))
       && s' == s.(pool := s'.pool,
                   decided := if pc == Recording then s.decided[t := |s.pool.limiter.history|] else s.decided)
  }

  /** Everything else in the pool. */
  ghost predicate Bystand(c: Pools.Config, s: State, s': State) {
    && s' == s.(pool := s'.pool)
    && (|| (exists incidentId, traceId :: Pools.Schedule(s.pool, s'.pool, incidentId, traceId))
        || (exists t :: Moves(c, s.pool, s'.pool, t))
        || Pools.Environment(c, s.pool, s'.pool))
  }

  /** A task enters or leaves the pool. */
  ghost predicate Moves(c: Pools.Config, p: Pools.State, p': Pools.State, t: nat) {
    Pools.AcquireSlot(c, p, p', t) || Pools.GiveUp(p, p', t) || Pools.FreeSlot(p, p', t) || Pools.Release(p, p', t)
  }

  /** A request goes on, or somebody resolves. */
  ghost predicate Negotiate(s: State, s': State) {
    && s' == s.(approvals := s'.approvals)
    && (|| (exists id <- s.approvals.requests :: ApprovalRuns.RequestStep(s.approvals, s'.approvals, id))
        || (exists id, result :: ApprovalRuns.Enter(s.approvals, s'.approvals, id, result))
        || (exists n :: ApprovalRuns.CallStep(s.approvals, s'.approvals, n)))
  }

  ghost predicate Crash(c: Pools.Config, s: State, s': State) {
    && Pools.Crash(c, s.pool, s'.pool) && ApprovalRuns.Crash(s.approvals, s'.approvals)
    && s' == s.(pool := s'.pool, approvals := s'.approvals)
  }

  ghost predicate Next(c: Pools.Config, s: State, s': State) {
    || (exists t, id :: Ask(s, s', t, id))
    || (exists t, a :: Advance(c, s, s', t, a))
    || Bystand(c, s, s')
    || Negotiate(s, s')
    || Crash(c, s, s')
  }

  ghost predicate IsRun(c: Pools.Config, run: seq<State>) {
    && run != [] && Init(c, run[0])
    && forall i :: 0 < i < |run| ==> Next(c, run[i - 1], run[i])
  }

  /** Both machines take steps of their own. */
  lemma NextProjects(c: Pools.Config, s: State, s': State)
    requires Next(c, s, s')
    ensures s'.pool == s.pool || Pools.Next(c, s.pool, s'.pool)
    ensures s'.approvals == s.approvals || ApprovalRuns.Next(s.approvals, s'.approvals)
  {
    hide Pools.Schedule, Pools.AcquireSlot, Pools.GiveUp, Pools.FreeSlot, Pools.Release, Pools.Advance,
         Pools.Environment,
         Pools.Crash, ApprovalRuns.Register, ApprovalRuns.Crash, ApprovalRuns.Enter, ApprovalRuns.CallStep;
    if t, id :| Ask(s, s', t, id) {
      RegisterIsNext(s.approvals, s'.approvals, id);
    } else if t, a :| Advance(c, s, s', t, a) {
      assert Pools.TaskStep(c, s.pool, s'.pool, t);
    } else if t :| Moves(c, s.pool, s'.pool, t) && Bystand(c, s, s') {
      assert Pools.TaskStep(c, s.pool, s'.pool, t);
    }
  }

  lemma RegisterIsNext(s: ApprovalRuns.State, s': ApprovalRuns.State, id: string)
    requires ApprovalRuns.Register(s, s', id)
    ensures ApprovalRuns.Next(s, s')
  {
    assert ApprovalRuns.RequestStep(s, s', id);
  }

  // What stands behind an Apply.

  /** An AUTO decision of the task in the limiter's history. */
  ghost predicate Decided(s: State, t: nat) { t in s.decided && s.decided[t] < |s.pool.limiter.history| }

  /** A successful resolution of the task's own request with APPROVED. */
  ghost predicate Approved(s: State, t: nat) {
    t in s.asked && s.asked[t] in ApprovedIds(s.approvals.log)
  }

  ghost function ApprovedIds(log: seq<ApprovalRuns.Event>): set<string> {
    set i | 0 <= i < |log| && IsApproval(log[i]) :: log[i].id
  }

  predicate IsApproval(e: ApprovalRuns.Event) {
    e.Resolution? && e.ok && e.result.decision == ApprovalDecision.Approved
  }

  ghost predicate Backed(s: State, t: nat) { Decided(s, t) || Approved(s, t) }

  predicate Cleared(pc: Pc) { pc in {KillCheck, Building, Rehearsing, ApplyCheck, KillRecheck, Applying} }

  /** At the program counters behind Apply and nowhere before it. */
  predicate PastApply(pc: Pc) {
    pc in {LoggingApplied, LoggingApplyFailure, Verifying, Escalating, LoggingEscalated, NotifyingEnd, LoggingNotified,
           Reporting, Finished}
  }

  predicate HasDecided(p: Pipe) { p.pc == Persisting || (p.pc == Deciding && p.verdict == Auto) }

  ghost predicate TaskBacked(s: State, t: nat, p: Pipe) {
    && (HasDecided(p) ==> Decided(s, t))
    && (Cleared(p.pc) ==> Backed(s, t))
    && (t in s.pool.applies ==> PastApply(p.pc))
  }

  ghost predicate TasksInv(s: State) {
    forall t <- s.pool.tasks :: TaskBacked(s, t, s.pool.tasks[t].pipe)
  }

  /** Requests and decisions belong to one task each. */
  ghost predicate OwnersInv(s: State) {
    && (forall t <- s.asked :: s.asked[t] in s.approvals.requests)
    && (forall t, u :: t in s.asked && u in s.asked && s.asked[t] == s.asked[u] ==> t == u)
    && (forall t <- s.decided :: Decided(s, t))
    && (forall t, u :: t in s.decided && u in s.decided && s.decided[t] == s.decided[u] ==> t == u)
  }

  ghost predicate AppliesInv(s: State) {
    && (forall t <- s.pool.applies :: t < s.pool.next && Backed(s, t))
    && Pools.Distinct(s.pool.applies)
  }

  ghost predicate Inv(c: Pools.Config, s: State)
    requires c.Valid()
  {
    Pools.PoolInv(c, s.pool) && ApprovalRuns.Inv(s.approvals) && TasksInv(s) && OwnersInv(s) && AppliesInv(s)
  }

  /** What is recorded and resolved stays so. */
  ghost predicate Grows(s: State, s': State) {
    && s.pool.limiter.history <= s'.pool.limiter.history
    && s.approvals.log <= s'.approvals.log
    && (forall t <- s.asked :: t in s'.asked && s'.asked[t] == s.asked[t])
  }

  lemma ApprovedIdsGrow(log: seq<ApprovalRuns.Event>, log': seq<ApprovalRuns.Event>)
    requires log <= log'
    ensures ApprovedIds(log) <= ApprovedIds(log')
  {
    forall id <- ApprovedIds(log)
      ensures id in ApprovedIds(log')
    {
      var i :| 0 <= i < |log| && IsApproval(log[i]) && log[i].id == id;
      assert log'[i] == log[i];
    }
  }

  lemma BackingStays(s: State, s': State, t: nat)
    requires Grows(s, s') && (t in s.decided ==> t in s'.decided && s'.decided[t] == s.decided[t])
    ensures Decided(s, t) ==> Decided(s', t)
    ensures Backed(s, t) ==> Backed(s', t)
  {
    hide ApprovedIds;
    ApprovedIdsGrow(s.approvals.log, s'.approvals.log);
  }

  /** Steps that leave `decided` and the history of decisions alone, and no pipeline at a new place. */
  lemma QuietKeepsInv(s: State, s': State)
    requires TasksInv(s) && OwnersInv(s) && AppliesInv(s) && Grows(s, s') && s'.decided == s.decided
    requires s'.pool.applies == s.pool.applies && s.pool.next <= s'.pool.next
    requires forall t <- s'.pool.tasks ::
               (t in s.pool.tasks && s'.pool.tasks[t].pipe == s.pool.tasks[t].pipe)
               || (s'.pool.tasks[t].pipe.pc == Begin && s.pool.next <= t)
    requires s'.asked == s.asked && s.approvals.requests.Keys <= s'.approvals.requests.Keys
    ensures TasksInv(s') && OwnersInv(s') && AppliesInv(s')
  {
    hide Backed, Decided, Grows, PastApply;
    forall t: nat
      ensures Decided(s, t) ==> Decided(s', t)
      ensures Backed(s, t) ==> Backed(s', t)
    {
      BackingStays(s, s', t);
    }
  }

  lemma AskKeepsInv(c: Pools.Config, s: State, s': State, t: nat, id: string)
    requires TasksInv(s) && OwnersInv(s) && AppliesInv(s) && Ask(s, s', t, id)
    ensures TasksInv(s') && OwnersInv(s') && AppliesInv(s')
  {
    hide Backed, Decided, PastApply, Cleared;
    assert s'.pool == s.pool && s'.decided == s.decided;
    forall u: nat
      ensures Decided(s, u) ==> Decided(s', u)
      ensures Backed(s, u) ==> Backed(s', u)
    {
      BackingStays(s, s', u);
    }
  }

  /** Where the steps of a pipeline lead, as far as its backing goes. */
  lemma StepClears(p: Pipe, a: Answers)
    requires p.pc != Finished
    ensures var q := Step(p, a).next;
            && (HasDecided(q) ==> p.pc == Recording || HasDecided(p))
            && (Cleared(q.pc) ==>
                Cleared(p.pc) || HasDecided(p) || (p.pc == Approving && a.approval == Some(ApprovalDecision.Approved)))
            && (PastApply(p.pc) || p.pc == Applying ==> PastApply(q.pc))
  {}

  /** An answer that approves has been resolved so. */
  lemma ApprovalIsResolved(s: State, t: nat)
    requires ApprovalRuns.AnswerInv(s.approvals) && Replies(s, t, Some(ApprovalDecision.Approved))
    ensures Approved(s, t)
  {
    var id := s.asked[t];
    var answer := s.approvals.requests[id].answer;
    var i :| 0 <= i < |s.approvals.log| && s.approvals.log[i] == ApprovalRuns.Resolution(id, answer, true);
    assert IsApproval(s.approvals.log[i]);
  }

  lemma AdvanceKeepsHistory(c: Pools.Config, s: State, s': State, t: nat, a: Answers)
    requires Advance(c, s, s', t, a)
    ensures s'.pool.limiter.history == s.pool.limiter.history
                                       + if s.pool.tasks[t].pipe.pc == Recording then [s.pool.limiter.now] else []
  {
    hide RateLimits.Expired, Step;
  }

  lemma AdvanceKeepsOwners(c: Pools.Config, s: State, s': State, t: nat, a: Answers)
    requires OwnersInv(s) && Advance(c, s, s', t, a)
    ensures OwnersInv(s') && Grows(s, s')
  {
    hide Pools.Advance;
    AdvanceKeepsHistory(c, s, s', t, a);
  }

  /** The task of the step itself. */
  lemma AdvanceBacks(c: Pools.Config, s: State, s': State, t: nat, a: Answers)
    requires TasksInv(s) && ApprovalRuns.AnswerInv(s.approvals) && Advance(c, s, s', t, a) && Grows(s, s')
    ensures t in s'.pool.tasks && TaskBacked(s', t, s'.pool.tasks[t].pipe)
    ensures s.pool.tasks[t].pipe.pc == Applying ==> t !in s.pool.applies && Backed(s', t)
    ensures Backed(s, t) ==> Backed(s', t)
  {
    hide Step, Pools.Honest, Cleared, PastApply, HasDecided, Approved, Grows, Replies, TasksInv, ApprovalRuns.AnswerInv;
    var p := s.pool.tasks[t].pipe;
    assert TaskBacked(s, t, p) by { TaskOf(s, t); }
    StepClears(p, a);
    AdvanceKeepsHistory(c, s, s', t, a);
    PlacesDiffer(p);
    if p.pc == Approving && a.approval == Some(ApprovalDecision.Approved) {
      ApprovalIsResolved(s, t);
    }
    if p.pc == Recording {
      RecordingDecides(c, s, s', t, a);
    } else {
      BackingStays(s, s', t);
    }
  }

  lemma TaskOf(s: State, t: nat)
    requires TasksInv(s) && t in s.pool.tasks
    ensures TaskBacked(s, t, s.pool.tasks[t].pipe)
  {}

  lemma PlacesDiffer(p: Pipe)
    ensures p.pc == Applying ==> Cleared(p.pc) && !PastApply(p.pc)
    ensures p.pc == Recording ==> !Cleared(p.pc) && !HasDecided(p) && !PastApply(p.pc)
  {}

  lemma RecordingDecides(c: Pools.Config, s: State, s': State, t: nat, a: Answers)
    requires Advance(c, s, s', t, a) && s.pool.tasks[t].pipe.pc == Recording
    ensures Decided(s', t)
  {
    hide Pools.Advance;
    AdvanceKeepsHistory(c, s, s', t, a);
  }

  /** All other tasks. */
  lemma AdvanceKeepsOthers(c: Pools.Config, s: State, s': State, t: nat, a: Answers, u: nat)
    requires TasksInv(s) && Advance(c, s, s', t, a) && Grows(s, s') && u != t
    ensures u in s'.pool.tasks ==> TaskBacked(s', u, s'.pool.tasks[u].pipe)
    ensures Backed(s, u) ==> Backed(s', u)
  {
    hide Step, Pools.Honest, Cleared, PastApply, HasDecided, Backed, Decided, Grows;
    BackingStays(s, s', u);
  }

  lemma AdvanceKeepsInv(c: Pools.Config, s: State, s': State, t: nat, a: Answers)
    requires c.Valid() && Inv(c, s) && Advance(c, s, s', t, a)
    ensures TasksInv(s') && OwnersInv(s') && AppliesInv(s')
  {
    hide Step, Pools.Honest, Cleared, PastApply, TaskBacked, Backed, Grows, OwnersInv, Pools.PoolInv, ApprovalRuns.Inv;
    hide TasksInv;
    AdvanceKeepsOwners(c, s, s', t, a);
    InvParts(c, s);
    AdvanceBacks(c, s, s', t, a);
    forall u: nat | u != t
      ensures u in s'.pool.tasks ==> TaskBacked(s', u, s'.pool.tasks[u].pipe)
      ensures Backed(s, u) ==> Backed(s', u)
    {
      AdvanceKeepsOthers(c, s, s', t, a, u);
    }
    AllTasks(s');
  }

  lemma AllTasks(s: State)
    requires forall t <- s.pool.tasks :: TaskBacked(s, t, s.pool.tasks[t].pipe)
    ensures TasksInv(s)
  {}

  lemma InvParts(c: Pools.Config, s: State)
    requires c.Valid() && Inv(c, s)
    ensures ApprovalRuns.AnswerInv(s.approvals) && forall t <- s.pool.tasks :: t < s.pool.next
  {
    hide ApprovalRuns.AnswerInv, TasksInv, OwnersInv, AppliesInv;
    forall t <- s.pool.tasks
      ensures t < s.pool.next
    {
      Pools.TaskOf(s.pool, t);
    }
  }

  lemma BystandKeepsInv(c: Pools.Config, s: State, s': State)
    requires c.Valid() && Inv(c, s) && Bystand(c, s, s')
    ensures TasksInv(s') && OwnersInv(s') && AppliesInv(s')
  {
    hide TasksInv, OwnersInv, AppliesInv, Pools.PoolInv, ApprovalRuns.Inv;
    BystandersKeepPipes(c, s.pool, s'.pool);
    QuietKeepsInv(s, s');
  }

  lemma BystandersKeepPipes(c: Pools.Config, p: Pools.State, p': Pools.State)
    requires || (exists incidentId, traceId :: Pools.Schedule(p, p', incidentId, traceId))
             || (exists t :: Moves(c, p, p', t))
             || Pools.Environment(c, p, p')
    ensures p'.applies == p.applies && p.next <= p'.next && p'.limiter.history == p.limiter.history
    ensures forall t <- p'.tasks ::
              (t in p.tasks && p'.tasks[t].pipe == p.tasks[t].pipe) || (p'.tasks[t].pipe.pc == Begin && p.next <= t)
  {}

  lemma RequestsStay(s: ApprovalRuns.State, s': ApprovalRuns.State)
    requires ApprovalRuns.Next(s, s')
    ensures s.requests.Keys <= s'.requests.Keys
  {}

  lemma NegotiateKeepsInv(c: Pools.Config, s: State, s': State)
    requires c.Valid() && Inv(c, s) && Negotiate(s, s') && ApprovalRuns.Next(s.approvals, s'.approvals)
    ensures TasksInv(s') && OwnersInv(s') && AppliesInv(s')
  {
    hide TasksInv, OwnersInv, AppliesInv, Pools.PoolInv, ApprovalRuns.Inv, ApprovalRuns.Next;
    assert s'.pool == s.pool && s'.asked == s.asked && s'.decided == s.decided;
    RequestsStay(s.approvals, s'.approvals);
    ApprovalRuns.NextGrowsLog(s.approvals, s'.approvals);
    QuietKeepsInv(s, s');
  }

  lemma CrashKeepsInv(c: Pools.Config, s: State, s': State)
    requires c.Valid() && Inv(c, s) && Crash(c, s, s') && ApprovalRuns.Next(s.approvals, s'.approvals)
    ensures TasksInv(s') && OwnersInv(s') && AppliesInv(s')
  {
    hide TasksInv, OwnersInv, AppliesInv, Pools.PoolInv, ApprovalRuns.Inv, ApprovalRuns.Next;
    RequestsStay(s.approvals, s'.approvals);
    ApprovalRuns.NextGrowsLog(s.approvals, s'.approvals);
    CrashKeepsHistory(c, s.pool, s'.pool);
    QuietKeepsInv(s, s');
  }

  lemma CrashKeepsHistory(c: Pools.Config, p: Pools.State, p': Pools.State)
    requires Pools.Crash(c, p, p')
    ensures p'.limiter.history == p.limiter.history && p'.applies == p.applies && p'.next == p.next && p'.tasks == map[]
  {}

  lemma NextKeepsInv(c: Pools.Config, s: State, s': State)
    requires c.Valid() && Inv(c, s) && Next(c, s, s')
    ensures Inv(c, s')
  {
    hide Pools.PoolInv, Pools.Next, ApprovalRuns.Inv, ApprovalRuns.Next, TasksInv, OwnersInv, AppliesInv,
         Ask, Advance, Bystand, Negotiate, Crash;
    NextProjects(c, s, s');
    if s'.pool != s.pool {
      Pools.NextKeepsInv(c, s.pool, s'.pool);
    }
    if s'.approvals != s.approvals {
      ApprovalRuns.NextKeepsInv(s.approvals, s'.approvals);
    }
    PartsKeepInv(c, s, s');
  }

  lemma PartsKeepInv(c: Pools.Config, s: State, s': State)
    requires c.Valid() && Inv(c, s) && Next(c, s, s')
    requires s'.approvals == s.approvals || ApprovalRuns.Next(s.approvals, s'.approvals)
    ensures TasksInv(s') && OwnersInv(s') && AppliesInv(s')
  {
    hide Inv, TasksInv, OwnersInv, AppliesInv, ApprovalRuns.Next, Ask, Advance, Bystand, Negotiate, Crash;
    if t, id :| Ask(s, s', t, id) {
      OwnParts(c, s);
      AskKeepsInv(c, s, s', t, id);
    } else if t, a :| Advance(c, s, s', t, a) {
      AdvanceKeepsInv(c, s, s', t, a);
    } else if Bystand(c, s, s') {
      BystandKeepsInv(c, s, s');
    } else if s' == s {
      OwnParts(c, s);
    } else if Negotiate(s, s') {
      ApprovalsMove(s, s');
      NegotiateKeepsInv(c, s, s');
    } else {
      CrashMoves(c, s, s');
      CrashKeepsInv(c, s, s');
    }
  }

  lemma OwnParts(c: Pools.Config, s: State)
    requires c.Valid() && Inv(c, s)
    ensures TasksInv(s) && OwnersInv(s) && AppliesInv(s)
  {
    hide TasksInv, OwnersInv, AppliesInv;
  }

  lemma ApprovalsMove(s: State, s': State)
    requires Negotiate(s, s') && s' != s
    ensures s'.approvals != s.approvals
  {}

  lemma CrashMoves(c: Pools.Config, s: State, s': State)
    requires Crash(c, s, s')
    ensures ApprovalRuns.Next(s.approvals, s'.approvals)
  {
    hide ApprovalRuns.Crash, ApprovalRuns.RequestStep, ApprovalRuns.CallStep, ApprovalRuns.Enter;
  }

  lemma InitInv(c: Pools.Config, s: State)
    requires c.Valid() && Init(c, s)
    ensures Inv(c, s)
  {
    hide Pools.PoolInv;
    Pools.InitInv(c, s.pool);
  }

  lemma {:induction false} RunKeepsInv(c: Pools.Config, run: seq<State>, i: nat)
    requires c.Valid() && IsRun(c, run) && i < |run|
    ensures Inv(c, run[i])
  {
    hide Inv, Init, Next;
    if i == 0 {
      InitInv(c, run[0]);
    } else {
      RunKeepsInv(c, run, i - 1);
      NextKeepsInv(c, run[i - 1], run[i]);
    }
  }

  /** Whenever any task of any run calls Apply, the limiter's history already holds an AUTO decision of that
      very task, or somebody has successfully resolved the very request of that task with APPROVED. */
  lemma ApplyIsBacked(c: Pools.Config, run: seq<State>, i: nat, t: nat)
    requires c.Valid() && IsRun(c, run) && 0 < i < |run| && run[i].pool.applies == run[i - 1].pool.applies + [t]
    ensures Decided(run[i - 1], t) || Approved(run[i - 1], t)
  {
    hide Inv, Next;
    RunKeepsInv(c, run, i - 1);
    NewApplyIsBacked(c, run[i - 1], run[i], t);
  }

  lemma NewApplyIsBacked(c: Pools.Config, s: State, s': State, t: nat)
    requires c.Valid() && Inv(c, s) && Next(c, s, s') && s'.pool.applies == s.pool.applies + [t]
    ensures Backed(s, t)
  {
    hide OwnersInv, AppliesInv, Pools.PoolInv, ApprovalRuns.Inv, Backed, Step, Pools.Honest, ApprovalRuns.Register,
         ApprovalRuns.Crash, Pools.Environment, Moves, Pools.Schedule, ApprovalRuns.RequestStep, ApprovalRuns.CallStep;
    var applies := s.pool.applies;
    assert |applies + [t]| == |applies| + 1;
    if Bystand(c, s, s') {
      BystandersKeepPipes(c, s.pool, s'.pool);
      assert false;
    } else if Crash(c, s, s') {
      assert false;
    }
    var u, a :| Advance(c, s, s', u, a);
    assert (applies + [u])[|applies|] == u;
    assert TaskBacked(s, u, s.pool.tasks[u].pipe);
  }

  /** Over a whole run, with crashes, there are no more Apply calls than AUTO decisions and successful
      APPROVED resolutions together: every one of these backs at most one Apply. */
  lemma AppliesAreCovered(c: Pools.Config, run: seq<State>, i: nat)
    requires c.Valid() && IsRun(c, run) && i < |run|
    ensures |run[i].pool.applies| <= |run[i].pool.limiter.history| + |ApprovedIds(run[i].approvals.log)|
  {
    hide Next, TasksInv, Pools.PoolInv, ApprovalRuns.Inv, ApprovedIds;
    RunKeepsInv(c, run, i);
    var s := run[i];
    var auto := set t <- s.pool.applies | Decided(s, t);
    var asked := set t <- s.pool.applies | Approved(s, t);
    DistinctCount(s.pool.applies);
    assert Members(s.pool.applies) == auto + asked;
    IndicesBound(auto, s.decided, |s.pool.limiter.history|);
    IdsBound(asked, s.asked, ApprovedIds(s.approvals.log));
  }

  ghost function Members(ts: seq<nat>): set<nat> { set t | t in ts }

  lemma {:induction false} DistinctCount(ts: seq<nat>)
    requires Pools.Distinct(ts)
    ensures |Members(ts)| == |ts|
  {
    if ts != [] {
      var front, last := ts[..|ts| - 1], ts[|ts| - 1];
      DistinctCount(front);
      assert ts == front + [last] && Members(ts) == Members(front) + {last};
    }
  }

  /** An injection into the first n numbers. */
  lemma {:induction false} IndicesBound(ts: set<nat>, m: map<nat, nat>, n: nat)
    requires forall t <- ts :: t in m && m[t] < n
    requires forall t, u :: t in ts && u in ts && m[t] == m[u] ==> t == u
    ensures |ts| <= n
  {
    if n == 0 {
      assert ts == {};
    } else if t :| t in ts && m[t] == n - 1 {
      IndicesBound(ts - {t}, m, n - 1);
    } else {
      IndicesBound(ts, m, n - 1);
    }
  }

  lemma {:induction false} IdsBound(ts: set<nat>, m: map<nat, string>, ids: set<string>)
    requires forall t <- ts :: t in m && m[t] in ids
    requires forall t, u :: t in ts && u in ts && m[t] == m[u] ==> t == u
    ensures |ts| <= |ids|
    decreases |ts|
  {
    if ts != {} {
      var t :| t in ts;
      IdsBound(ts - {t}, m, ids - {m[t]});
    }
  }
}
