/** The orchestrator: a pool of pipelines behind a semaphore and an in-flight registry, while somebody
    toggles the kill switch and ApplyEnabled. Every step is one atomic action of one goroutine. */
module Pools {
  import opened Contracts
  import opened Pipelines
  import EventLog
  import RateLimits

  class InFlightRegistry {
    var ids: set<string>

    constructor ()
      ensures ids == {}
    {
      ids := {};
    }

    method TryAcquire(id: string) returns (ok: bool)
      modifies this
      ensures ok <==> id !in old(ids)
      ensures ids == old(ids) + {id}
    {
      if id in ids {
        assert ids == ids + {id};
        return false;
      }
      ids := ids + {id};
      return true;
    }

    method Release(id: string)
      modifies this
      ensures ids == old(ids) - {id}
    {
      ids := ids - {id};
    }

    method Count() returns (n: nat)
      ensures n == |ids|
    {
      n := |ids|;
    }
  }

  datatype Config = Config(slots: nat, limit: RateLimits.Config) {
    /** The limiter's workers are the pipelines that hold a slot. */
    ghost predicate Valid() { limit.Valid() && limit.workers == slots }
  }

  datatype Phase = Waiting | Executing | SlotFreed | Gone

  /** One call of schedule() that got past tryAcquire. */
  datatype Task = Task(incidentId: string, phase: Phase, pipe: Pipe, trail: seq<Effect>)

  /** `ids` is the registry, `used` the number of filled semaphore slots, `applies` (the tasks that
      called Apply, in order) an observation. Tasks are numbered by `next`. */
  datatype State = State(
    kill: bool, applyEnabled: bool, cancelled: bool,
    used: nat, ids: set<string>, tasks: map<nat, Task>, next: nat,
    limiter: RateLimits.State, applies: seq<nat>)

  ghost function InPhase(s: State, phase: Phase): set<nat> {
    set t <- s.tasks | s.tasks[t].phase == phase
  }

  /** The executing pipelines at a program counter. */
  ghost function At(s: State, pc: Pc): set<nat> {
    set t <- s.tasks | s.tasks[t].phase == Executing && s.tasks[t].pipe.pc == pc
  }

  ghost predicate Init(c: Config, s: State) {
    && s == State(s.kill, s.applyEnabled, false, 0, {}, map[], 0, s.limiter, [])
    && RateLimits.Init(c.limit, s.limiter)
  }

  /** tryAcquire succeeds; the goroutine now waits for a slot. A failing tryAcquire changes nothing. */
  ghost predicate Schedule(s: State, s': State, incidentId: string, traceId: string) {
    && incidentId !in s.ids
    && s' == s.(ids := s.ids + {incidentId}, next := s.next + 1,
                tasks := s.tasks[s.next := Task(incidentId, Waiting, New(traceId, incidentId), [])])
  }

  ghost predicate AcquireSlot(c: Config, s: State, s': State, t: nat) {
    && t in s.tasks && s.tasks[t].phase == Waiting && s.used < c.slots
    && s' == s.(used := s.used + 1, tasks := s.tasks[t := s.tasks[t].(phase := Executing)])
  }

  /** The context is done while the goroutine waits: the ID is released, no pipeline starts. */
  ghost predicate GiveUp(s: State, s': State, t: nat) {
    && t in s.tasks && s.tasks[t].phase == Waiting && s.cancelled
    && s' == s.(ids := s.ids - {s.tasks[t].incidentId}, tasks := s.tasks[t := s.tasks[t].(phase := Gone)])
  }

  /** The flags answer for themselves, and the limiter decides for itself; everybody else may answer
      anything. */
  ghost predicate Honest(c: Config, s: State, s': State, t: nat, pc: Pc, a: Answers) {
    match pc
    case KillCheck => a.killed == s.kill && s'.limiter == s.limiter
    case ApplyCheck => a.enabled == s.applyEnabled && s'.limiter == s.limiter
    case KillRecheck => a.killedAgain == s.kill && s'.limiter == s.limiter
    case Checking => RateLimits.Check(c.limit, s.limiter, s'.limiter, t) && a.tripped == (t !in s'.limiter.passed)
    case Recording => RateLimits.Record(c.limit, s.limiter, s'.limiter, t)
    case Persisting =>
      || RateLimits.Persist(c.limit, s.limiter, s'.limiter, t)
      || RateLimits.Refuse(c.limit, s.limiter, s'.limiter, t)
    case _ => s'.limiter == s.limiter
  }

  /** One step of an executing pipeline. */
  ghost predicate Advance(c: Config, s: State, s': State, t: nat, a: Answers) {
    && t in s.tasks && s.tasks[t].phase == Executing && s.tasks[t].pipe.pc != Finished
    && var task := s.tasks[t];
       var turn := Step(task.pipe, a);
       && Honest(c, s, s', t, task.pipe.pc, a)
       && s' == s.(limiter := s'.limiter,
                   applies := if task.pipe.pc == Applying then s.applies + [t] else s.applies,
                   tasks := s.tasks[t := task.(pipe := turn.next, trail := Append(task.trail, turn.effect))])
  }

  /** The deferred function of the goroutine frees the slot first ... */
  ghost predicate FreeSlot(s: State, s': State, t: nat) {
    && t in s.tasks && s.tasks[t].phase == Executing && s.tasks[t].pipe.pc == Finished && s.used > 0
    && s' == s.(used := s.used - 1, tasks := s.tasks[t := s.tasks[t].(phase := SlotFreed)])
  }

  /** ... and the incident ID afterwards. */
  ghost predicate Release(s: State, s': State, t: nat) {
    && t in s.tasks && s.tasks[t].phase == SlotFreed
    && s' == s.(ids := s.ids - {s.tasks[t].incidentId}, tasks := s.tasks[t := s.tasks[t].(phase := Gone)])
  }

  /** The environment: the two switches, cancellation, the clock and status queries. */
  ghost predicate Environment(c: Config, s: State, s': State) {
    && s' == s.(kill := s'.kill, applyEnabled := s'.applyEnabled, cancelled := s'.cancelled, limiter := s'.limiter)
    && (s.cancelled ==> s'.cancelled)
    && (|| s'.limiter == s.limiter
        || RateLimits.Tick(c.limit, s.limiter, s'.limiter)
        || RateLimits.Count(c.limit, s.limiter, s'.limiter))
  }

  /** The process dies and a new one starts: no goroutine survives, the limiter hydrates or fails to. */
  ghost predicate Crash(c: Config, s: State, s': State) {
    && (RateLimits.Restart(c.limit, s.limiter, s'.limiter) || RateLimits.FailedRestart(c.limit, s.limiter, s'.limiter))
    && s' == State(s'.kill, s'.applyEnabled, false, 0, {}, map[], s.next, s'.limiter, s.applies)
  }

  ghost predicate TaskStep(c: Config, s: State, s': State, t: nat) {
    || AcquireSlot(c, s, s', t)
    || GiveUp(s, s', t)
    || (exists a :: Advance(c, s, s', t, a))
    || FreeSlot(s, s', t)
    || Release(s, s', t)
  }

  ghost predicate Next(c: Config, s: State, s': State) {
    || (exists incidentId, traceId :: Schedule(s, s', incidentId, traceId))
    || (exists t :: TaskStep(c, s, s', t))
    || Environment(c, s, s')
    || Crash(c, s, s')
  }

  ghost predicate IsRun(c: Config, run: seq<State>) {
    && run != [] && Init(c, run[0])
    && forall i :: 0 < i < |run| ==> Next(c, run[i - 1], run[i])
  }

  /** The live tasks (waiting, executing, or with the slot freed and the ID not yet released) and
      their incidents. */
  ghost function Held(s: State): map<nat, string> {
    map t <- s.tasks | s.tasks[t].phase != Gone :: s.tasks[t].incidentId
  }

  ghost predicate Injective(m: map<nat, string>) {
    forall t, u :: t in m && u in m && m[t] == m[u] ==> t == u
  }

  /** The registry holds exactly the incidents of live tasks, one task each. */
  ghost predicate RegistryInv(s: State) {
    s.ids == Held(s).Values && Injective(Held(s))
  }

  ghost predicate TaskInv(t: nat, task: Task, next: nat) {
    && t < next && Inv(task.pipe, task.trail)
    && task.pipe.incidentId == task.incidentId
    && (task.phase == Waiting ==> task.pipe.pc == Begin)
    && (task.phase == SlotFreed ==> task.pipe.pc == Finished)
  }

  ghost predicate TasksInv(s: State) {
    forall t <- s.tasks :: TaskInv(t, s.tasks[t], s.next)
  }

  ghost predicate SlotsInv(c: Config, s: State) {
    s.used == |InPhase(s, Executing)| <= c.slots
  }

  /** The limiter sees the pool as its workers. */
  ghost predicate LimiterInv(c: Config, s: State)
    requires c.Valid()
  {
    && RateLimits.Inv(c.limit, s.limiter)
    && s.limiter.passed == At(s, Recording)
    && s.limiter.unsaved.Keys == At(s, Persisting)
  }

  ghost predicate PoolInv(c: Config, s: State)
    requires c.Valid()
  {
    RegistryInv(s) && TasksInv(s) && SlotsInv(c, s) && LimiterInv(c, s)
  }

  // Steps that replace one task.

  /** s' is s with one task replaced (or added) and perhaps other IDs, slots, flags. */
  ghost predicate Replaces(s: State, s': State, t: nat, task: Task) {
    s'.tasks == s.tasks[t := task] && s.next <= s'.next && (t in s.tasks || t == s.next < s'.next)
  }

  lemma ReplacedTasks(s: State, s': State, t: nat, task: Task)
    requires TasksInv(s) && Replaces(s, s', t, task) && TaskInv(t, task, s'.next)
    ensures TasksInv(s')
  {
    hide Inv;
  }

  lemma TaskOf(s: State, t: nat)
    requires TasksInv(s) && t in s.tasks
    ensures TaskInv(t, s.tasks[t], s.next)
  {
    hide TaskInv;
  }

  /** A task that stays live keeps the registry consistent. */
  lemma RegistryKeepsTask(s: State, s': State, t: nat, task: Task)
    requires RegistryInv(s) && Replaces(s, s', t, task) && s'.ids == s.ids
    requires t in s.tasks && s.tasks[t].phase != Gone && task.phase != Gone && task.incidentId == s.tasks[t].incidentId
    ensures RegistryInv(s')
  {
    assert Held(s') == Held(s);
  }

  lemma RegistryDropsTask(s: State, s': State, t: nat, task: Task)
    requires RegistryInv(s) && Replaces(s, s', t, task)
    requires t in s.tasks && s.tasks[t].phase != Gone && task.phase == Gone
    requires s'.ids == s.ids - {s.tasks[t].incidentId}
    ensures RegistryInv(s')
  {
    assert Held(s') == Held(s) - {t};
    DropValue(Held(s), t);
  }

  lemma DropValue(m: map<nat, string>, t: nat)
    requires Injective(m) && t in m
    ensures (m - {t}).Values == m.Values - {m[t]} && Injective(m - {t})
  {
    forall id <- m.Values - {m[t]}
      ensures id in (m - {t}).Values
    {
      var u :| u in m && m[u] == id;
      assert u in m - {t} && (m - {t})[u] == id;
    }
  }

  lemma RegistryAddsTask(s: State, s': State, task: Task)
    requires RegistryInv(s) && Replaces(s, s', s.next, task) && s.next !in s.tasks
    requires task.phase != Gone && task.incidentId !in s.ids && s'.ids == s.ids + {task.incidentId}
    ensures RegistryInv(s')
  {
    assert Held(s') == Held(s)[s.next := task.incidentId];
    AddValue(Held(s), s.next, task.incidentId);
  }

  lemma AddValue(m: map<nat, string>, t: nat, id: string)
    requires Injective(m) && t !in m && id !in m.Values
    ensures m[t := id].Values == m.Values + {id} && Injective(m[t := id])
  {
    var n := m[t := id];
    assert t in n && n[t] == id;
    forall other <- m.Values
      ensures other in n.Values
    {
      var u :| u in m && m[u] == other;
      assert u in n && n[u] == other;
    }
  }

  lemma ExecutingAfter(s: State, s': State, t: nat, task: Task)
    requires Replaces(s, s', t, task)
    ensures InPhase(s', Executing)
         == if task.phase == Executing then InPhase(s, Executing) + {t} else InPhase(s, Executing) - {t}
  {}

  lemma AtAfter(s: State, s': State, t: nat, task: Task, pc: Pc)
    requires Replaces(s, s', t, task)
    ensures At(s', pc) == if task.phase == Executing && task.pipe.pc == pc then At(s, pc) + {t} else At(s, pc) - {t}
  {
    assert forall u: nat :: u != t ==> (u in At(s', pc) <==> u in At(s, pc));
  }

  /** A task that is replaced outside the limiter's program counters leaves the limiter's view alone. */
  lemma LimiterKeepsTask(c: Config, s: State, s': State, t: nat, task: Task)
    requires c.Valid() && LimiterInv(c, s) && Replaces(s, s', t, task) && s'.limiter == s.limiter
    requires t in s.tasks ==> s.tasks[t].pipe.pc !in {Recording, Persisting}
    requires task.pipe.pc !in {Recording, Persisting}
    ensures LimiterInv(c, s')
  {
    hide RateLimits.Inv;
    AtAfter(s, s', t, task, Recording);
    AtAfter(s, s', t, task, Persisting);
    assert t !in At(s, Recording) + At(s, Persisting);
  }

  lemma ScheduleKeepsInv(c: Config, s: State, s': State, incidentId: string, traceId: string)
    requires c.Valid() && PoolInv(c, s) && Schedule(s, s', incidentId, traceId)
    ensures PoolInv(c, s')
  {
    hide RateLimits.Inv, Inv, RegistryInv, LimiterInv;
    var task := Task(incidentId, Waiting, New(traceId, incidentId), []);
    NewInv(traceId, incidentId);
    ReplacedTasks(s, s', s.next, task);
    FreshTask(s);
    RegistryAddsTask(s, s', task);
    ExecutingAfter(s, s', s.next, task);
    LimiterKeepsTask(c, s, s', s.next, task);
    assert s.next !in InPhase(s, Executing);
  }

  lemma FreshTask(s: State)
    requires TasksInv(s)
    ensures s.next !in s.tasks
  {
    if s.next in s.tasks {
      TaskOf(s, s.next);
    }
  }

  lemma AcquireKeepsInv(c: Config, s: State, s': State, t: nat)
    requires c.Valid() && PoolInv(c, s) && AcquireSlot(c, s, s', t)
    ensures PoolInv(c, s')
  {
    hide RateLimits.Inv, Inv, RegistryInv, TasksInv, LimiterInv;
    var task := s.tasks[t].(phase := Executing);
    TaskOf(s, t);
    ReplacedTasks(s, s', t, task);
    RegistryKeepsTask(s, s', t, task);
    ExecutingAfter(s, s', t, task);
    LimiterKeepsTask(c, s, s', t, task);
    assert t !in InPhase(s, Executing);
  }

  lemma LeaveKeepsInv(c: Config, s: State, s': State, t: nat)
    requires c.Valid() && PoolInv(c, s) && (GiveUp(s, s', t) || Release(s, s', t))
    ensures PoolInv(c, s')
  {
    hide RateLimits.Inv, Inv, RegistryInv, TasksInv, LimiterInv;
    var task := s.tasks[t].(phase := Gone);
    TaskOf(s, t);
    ReplacedTasks(s, s', t, task);
    RegistryDropsTask(s, s', t, task);
    ExecutingAfter(s, s', t, task);
    LimiterKeepsTask(c, s, s', t, task);
    assert t !in InPhase(s, Executing);
  }

  lemma FreeKeepsInv(c: Config, s: State, s': State, t: nat)
    requires c.Valid() && PoolInv(c, s) && FreeSlot(s, s', t)
    ensures PoolInv(c, s')
  {
    hide RateLimits.Inv, Inv, RegistryInv, TasksInv, LimiterInv;
    var task := s.tasks[t].(phase := SlotFreed);
    TaskOf(s, t);
    ReplacedTasks(s, s', t, task);
    RegistryKeepsTask(s, s', t, task);
    ExecutingAfter(s, s', t, task);
    LimiterKeepsTask(c, s, s', t, task);
    assert t in InPhase(s, Executing);
  }

  /** Where a step goes, at the program counters that share state with other goroutines. */
  lemma StepGoes(p: Pipe, a: Answers)
    requires p.pc != Finished
    ensures Step(p, a).next.pc == Recording <==> p.pc == Checking && !a.tripped
    ensures Step(p, a).next.pc == Persisting <==> p.pc == Recording
    ensures Step(p, a).next.pc == Applying <==> p.pc == KillRecheck && !a.killedAgain
  {
    hide SameIds;
  }

  /** The pool's step is a step of the limiter, or none: a pipeline that checks the breaker finds fewer
      than `slots` others between check and persist, because they all hold slots. */
  lemma AdvanceIsLimiterStep(c: Config, s: State, s': State, t: nat, a: Answers)
    requires c.Valid() && PoolInv(c, s) && Advance(c, s, s', t, a)
    ensures s'.limiter == s.limiter || RateLimits.Next(c.limit, s.limiter, s'.limiter)
    ensures s'.limiter.passed == At(s', Recording) && s'.limiter.unsaved.Keys == At(s', Persisting)
  {
    hide RateLimits.Inv, Inv, RateLimits.Next, Step, Honest;
    AdvanceSets(c, s, s', t, a);
    var p := s.tasks[t].pipe;
    if p.pc == Checking {
      var busy := s.limiter.passed + s.limiter.unsaved.Keys;
      assert busy < InPhase(s, Executing) by {
        assert t in InPhase(s, Executing) && t !in busy;
      }
      ProperSubsetIsSmaller(busy, InPhase(s, Executing));
    }
    HonestIsNext(c, s, s', t, p.pc, a);
  }

  lemma AdvanceSets(c: Config, s: State, s': State, t: nat, a: Answers)
    requires c.Valid() && LimiterInv(c, s) && Advance(c, s, s', t, a)
    ensures s'.limiter.passed == At(s', Recording) && s'.limiter.unsaved.Keys == At(s', Persisting)
  {
    hide RateLimits.Inv, Step, Honest;
    var p := s.tasks[t].pipe;
    var task := s.tasks[t].(pipe := Step(p, a).next, trail := Append(s.tasks[t].trail, Step(p, a).effect));
    StepGoes(p, a);
    HonestSets(c, s, s', t, p.pc, a);
    AtAfter(s, s', t, task, Recording);
    AtAfter(s, s', t, task, Persisting);
  }

  /** How a step moves its task between the limiter's sets. */
  lemma HonestSets(c: Config, s: State, s': State, t: nat, pc: Pc, a: Answers)
    requires Honest(c, s, s', t, pc, a)
    ensures s'.limiter.passed == if pc == Checking && !a.tripped then s.limiter.passed + {t}
                                 else if pc == Recording then s.limiter.passed - {t}
                                 else s.limiter.passed
    ensures s'.limiter.unsaved.Keys == if pc == Recording then s.limiter.unsaved.Keys + {t}
                                       else if pc == Persisting then s.limiter.unsaved.Keys - {t}
                                       else s.limiter.unsaved.Keys
  {
  }

  lemma HonestIsNext(c: Config, s: State, s': State, t: nat, pc: Pc, a: Answers)
    requires Honest(c, s, s', t, pc, a)
    requires pc == Checking ==> |s.limiter.passed + s.limiter.unsaved.Keys| < c.limit.workers
    ensures s'.limiter == s.limiter || RateLimits.Next(c.limit, s.limiter, s'.limiter)
  {
    hide RateLimits.Next, RateLimits.Check, RateLimits.Record, RateLimits.Persist, RateLimits.Refuse;
    match pc {
      case Checking => CheckIsNext(c, s.limiter, s'.limiter, t);
      case Recording => RecordIsNext(c, s.limiter, s'.limiter, t);
      case Persisting => PersistIsNext(c, s.limiter, s'.limiter, t);
      case _ =>
    }
  }

  lemma ProperSubsetIsSmaller(small: set<nat>, large: set<nat>)
    requires small < large
    ensures |small| < |large|
  {
    assert large == small + (large - small);
  }

  lemma CheckIsNext(c: Config, l: RateLimits.State, l': RateLimits.State, t: nat)
    requires |l.passed + l.unsaved.Keys| < c.limit.workers && RateLimits.Check(c.limit, l, l', t)
    ensures RateLimits.Next(c.limit, l, l')
  {}

  lemma RecordIsNext(c: Config, l: RateLimits.State, l': RateLimits.State, t: nat)
    requires RateLimits.Record(c.limit, l, l', t)
    ensures RateLimits.Next(c.limit, l, l')
  {}

  lemma PersistIsNext(c: Config, l: RateLimits.State, l': RateLimits.State, t: nat)
    requires RateLimits.Persist(c.limit, l, l', t) || RateLimits.Refuse(c.limit, l, l', t)
    ensures RateLimits.Next(c.limit, l, l')
  {}

  lemma AdvanceKeepsInv(c: Config, s: State, s': State, t: nat, a: Answers)
    requires c.Valid() && PoolInv(c, s) && Advance(c, s, s', t, a)
    ensures PoolInv(c, s')
  {
    hide RateLimits.Inv, Inv, RateLimits.Next, Step, Honest, RegistryInv, TasksInv;
    var p, trail := s.tasks[t].pipe, s.tasks[t].trail;
    var task := s.tasks[t].(pipe := Step(p, a).next, trail := Append(trail, Step(p, a).effect));
    AdvanceIsLimiterStep(c, s, s', t, a);
    TaskOf(s, t);
    StepKeepsInv(p, trail, a);
    ReplacedTasks(s, s', t, task);
    RegistryKeepsTask(s, s', t, task);
    ExecutingAfter(s, s', t, task);
    assert InPhase(s', Executing) == InPhase(s, Executing);
    if s'.limiter != s.limiter {
      RateLimits.NextKeepsInv(c.limit, s.limiter, s'.limiter);
    }
  }

  lemma EnvironmentKeepsInv(c: Config, s: State, s': State)
    requires c.Valid() && PoolInv(c, s) && Environment(c, s, s')
    ensures PoolInv(c, s')
  {
    hide RateLimits.Inv, Inv;
    if s'.limiter != s.limiter {
      RateLimits.NextKeepsInv(c.limit, s.limiter, s'.limiter);
    }
    assert Held(s') == Held(s);
    assert InPhase(s', Executing) == InPhase(s, Executing);
  }

  lemma CrashKeepsInv(c: Config, s: State, s': State)
    requires c.Valid() && PoolInv(c, s) && Crash(c, s, s')
    ensures PoolInv(c, s')
  {
    hide RateLimits.Inv, RateLimits.Next, Inv, RegistryInv, TasksInv, SlotsInv, PoolInv, RateLimits.Restart;
    hide RateLimits.FailedRestart;
    RestartIsNext(c, s.limiter, s'.limiter);
    LimiterOf(c, s);
    RateLimits.NextKeepsInv(c.limit, s.limiter, s'.limiter);
    EmptyPool(c, s');
  }

  lemma LimiterOf(c: Config, s: State)
    requires c.Valid() && PoolInv(c, s)
    ensures RateLimits.Inv(c.limit, s.limiter)
  {
    hide RateLimits.Inv, RegistryInv, TasksInv, SlotsInv;
  }

  lemma RestartIsNext(c: Config, l: RateLimits.State, l': RateLimits.State)
    requires RateLimits.Restart(c.limit, l, l') || RateLimits.FailedRestart(c.limit, l, l')
    ensures RateLimits.Next(c.limit, l, l') && l'.passed == {} && l'.unsaved == map[]
  {
    hide RateLimits.Check, RateLimits.Record, RateLimits.Persist, RateLimits.Refuse, RateLimits.Tick, RateLimits.Count;
  }

  lemma EmptyPool(c: Config, s: State)
    requires c.Valid() && s.tasks == map[] && s.ids == {} && s.used == 0
    requires RateLimits.Inv(c.limit, s.limiter) && s.limiter.passed == {} && s.limiter.unsaved == map[]
    ensures PoolInv(c, s)
  {
    hide RateLimits.Inv, Inv;
    assert InPhase(s, Executing) == {};
    assert Held(s) == map[];
  }

  lemma NextKeepsInv(c: Config, s: State, s': State)
    requires c.Valid() && PoolInv(c, s) && Next(c, s, s')
    ensures PoolInv(c, s')
  {
    hide PoolInv, Schedule, Advance, AcquireSlot, GiveUp, FreeSlot, Release, Environment, Crash;
    if incidentId, traceId :| Schedule(s, s', incidentId, traceId) {
      ScheduleKeepsInv(c, s, s', incidentId, traceId);
    } else if t :| TaskStep(c, s, s', t) {
      if AcquireSlot(c, s, s', t) {
        AcquireKeepsInv(c, s, s', t);
      } else if a :| Advance(c, s, s', t, a) {
        AdvanceKeepsInv(c, s, s', t, a);
      } else if FreeSlot(s, s', t) {
        FreeKeepsInv(c, s, s', t);
      } else {
        LeaveKeepsInv(c, s, s', t);
      }
    } else if Environment(c, s, s') {
      EnvironmentKeepsInv(c, s, s');
    } else {
      CrashKeepsInv(c, s, s');
    }
  }

  lemma {:induction false} RunKeepsInv(c: Config, run: seq<State>, i: nat)
    requires c.Valid() && IsRun(c, run) && i < |run|
    ensures PoolInv(c, run[i])
  {
    if i == 0 {
      InitInv(c, run[0]);
    } else {
      hide PoolInv, Next;
      RunKeepsInv(c, run, i - 1);
      NextKeepsInv(c, run[i - 1], run[i]);
    }
  }

  lemma InitInv(c: Config, s: State)
    requires c.Valid() && Init(c, s)
    ensures PoolInv(c, s)
  {
    hide RateLimits.Inv;
    RateLimits.InitInv(c.limit, s.limiter);
    assert InPhase(s, Executing) == {};
    assert Held(s) == map[];
  }

  // What every run keeps.

  /** Executing pipelines never exceed the slots, and no two live tasks share an incident; the registry
      is exactly the set of live incidents; and once every task is gone, nothing is held any more. */
  lemma PoolIsSafe(c: Config, run: seq<State>, i: nat)
    requires c.Valid() && IsRun(c, run) && i < |run|
    ensures run[i].used == |InPhase(run[i], Executing)| <= c.slots
    ensures forall t, u :: t in InPhase(run[i], Executing) && u in InPhase(run[i], Executing) && t != u ==>
              run[i].tasks[t].incidentId != run[i].tasks[u].incidentId
    ensures forall id :: id in run[i].ids <==>
              exists t :: t in run[i].tasks && run[i].tasks[t].phase != Gone && run[i].tasks[t].incidentId == id
    ensures (forall t <- run[i].tasks :: run[i].tasks[t].phase == Gone) ==> run[i].ids == {} && run[i].used == 0
  {
    hide TasksInv, LimiterInv, Next;
    RunKeepsInv(c, run, i);
    var s := run[i];
    forall t, u | t in InPhase(s, Executing) && u in InPhase(s, Executing) && t != u
      ensures s.tasks[t].incidentId != s.tasks[u].incidentId
    {
      assert t in Held(s) && u in Held(s);
    }
    forall id <- s.ids
      ensures exists t :: t in s.tasks && s.tasks[t].phase != Gone && s.tasks[t].incidentId == id
    {
      var t :| t in Held(s) && Held(s)[t] == id;
    }
    forall t | t in s.tasks && s.tasks[t].phase != Gone
      ensures s.tasks[t].incidentId in s.ids
    {
      assert t in Held(s) && Held(s)[t] == s.tasks[t].incidentId;
    }
    if forall t <- s.tasks :: s.tasks[t].phase == Gone {
      assert InPhase(s, Executing) == {};
    }
  }

  /** In every interleaving, including with crashes, the AUTO decisions in one window number at most
      max + slots - 1, beside those of the same window that a crash made the limiter forget. */
  lemma AutoDecisionsAreBounded(c: Config, run: seq<State>, i: nat, from: int, to: int)
    requires c.Valid() && IsRun(c, run) && i < |run|
    requires if run[i].limiter.restarts == 0 then to - from <= c.limit.window else to - from < c.limit.window
    ensures EventLog.CountIn(run[i].limiter.history, from, to)
         <= c.limit.max + c.slots - 1 + |RateLimits.ForgottenIn(run[i].limiter, from, to)|
  {
    hide Next, RegistryInv, TasksInv, RateLimits.Inv, RateLimits.ForgottenIn;
    RunKeepsInv(c, run, i);
    RateLimits.InvBounds(c.limit, run[i].limiter, from, to);
  }

  /** In every interleaving, no pipeline has applied anything without a successful rehearsal and either
      an AUTO decision or an APPROVED answer before, nor applied twice, nor told people twice. */
  lemma EveryTrailIsLawful(c: Config, run: seq<State>, i: nat, t: nat)
    requires c.Valid() && IsRun(c, run) && i < |run| && t in run[i].tasks
    ensures var trail := run[i].tasks[t].trail;
            && WordOf(trail).at != Rejected
            && Count(trail, IsApply) <= 1 && Count(trail, IsMessage) <= 1 && Count(trail, IsReport) <= 1
            && (forall k :: 0 <= k < |trail| && trail[k].Apply? ==>
                  Authorised(trail[..k]) && Has(trail[..k], DryRun, Fine))
  {
    hide Next, RegistryInv, LimiterInv, Read, Has, Authorised, TasksInv;
    RunKeepsInv(c, run, i);
    TaskOf(run[i], t);
    var trail := run[i].tasks[t].trail;
    EffectsHappenAtMostOnce(trail);
    forall k | 0 <= k < |trail| && trail[k].Apply?
      ensures Authorised(trail[..k]) && Has(trail[..k], DryRun, Fine)
    {
      ApplyIsAuthorised(trail, k);
    }
  }

  /** InFlightCount is documented as the number of running pipelines. In every run it is the number of
      waiting, executing and slot-freed tasks, and so the number of running pipelines exactly if no task is
      waiting or has freed its slot but not its ID. */
  lemma InFlightCountIs(c: Config, run: seq<State>, i: nat)
    requires c.Valid() && IsRun(c, run) && i < |run|
    ensures var s := run[i];
            && |s.ids| == |InPhase(s, Waiting)| + |InPhase(s, Executing)| + |InPhase(s, SlotFreed)|
            && (|s.ids| == |InPhase(s, Executing)| <==> InPhase(s, Waiting) == {} && InPhase(s, SlotFreed) == {})
  {
    hide Next, TasksInv, SlotsInv, LimiterInv;
    RunKeepsInv(c, run, i);
    var s := run[i];
    InjectiveCount(Held(s));
    assert Held(s).Keys == InPhase(s, Waiting) + InPhase(s, Executing) + InPhase(s, SlotFreed);
  }

  lemma {:induction false} InjectiveCount(m: map<nat, string>)
    requires Injective(m)
    ensures |m.Values| == |m.Keys|
    decreases |m.Keys|
  {
    if m.Keys == {} {
      assert m.Values == {};
    } else {
      var t :| t in m.Keys;
      InjectiveCount(m - {t});
      DropValue(m, t);
      assert m[t] in m.Values && (m - {t}).Keys == m.Keys - {t};
    }
  }

  /** Since the slot is freed before the ID, a free slot is enough to add one more held ID and be free again. */
  lemma OneMoreHeld(c: Config, s: State, incidentId: string, traceId: string, a: Answers) returns (run: seq<State>)
    requires s.used < c.slots && incidentId !in s.ids && !a.diagnosed
    ensures |run| == 6 && run[0] == s && forall i :: 0 < i < |run| ==> Next(c, run[i - 1], run[i])
    ensures run[5].used == s.used && run[5].ids == s.ids + {incidentId} && run[5].limiter == s.limiter
    ensures run[5].tasks.Keys == s.tasks.Keys + {s.next} && run[5].next == s.next + 1
  {
    hide Next;
    var t := s.next;
    var s1, s2 := Launch(c, s, incidentId, traceId);
    var s3, s4 := Fail(c, s2, t, a);
    var s5 := s4.(used := s.used, tasks := s4.tasks[t := s4.tasks[t].(phase := SlotFreed)]);
    assert FreeSlot(s4, s5, t);
    TaskStepIsNext(c, s4, s5, t);
    run := [s, s1, s2, s3, s4, s5];
  }

  lemma Launch(c: Config, s: State, incidentId: string, traceId: string) returns (s1: State, s2: State)
    requires s.used < c.slots && incidentId !in s.ids
    ensures Next(c, s, s1) && Next(c, s1, s2)
    ensures s2 == s.(used := s.used + 1, ids := s.ids + {incidentId}, next := s.next + 1,
                     tasks := s.tasks[s.next := Task(incidentId, Executing, New(traceId, incidentId), [])])
  {
    hide TaskStep, Environment, Crash;
    var t := s.next;
    s1 := s.(ids := s.ids + {incidentId}, next := s.next + 1,
             tasks := s.tasks[t := Task(incidentId, Waiting, New(traceId, incidentId), [])]);
    s2 := s1.(used := s.used + 1, tasks := s1.tasks[t := s1.tasks[t].(phase := Executing)]);
    assert Schedule(s, s1, incidentId, traceId) && AcquireSlot(c, s1, s2, t);
    TaskStepIsNext(c, s1, s2, t);
  }

  /** The diagnosis fails. */
  lemma Fail(c: Config, s: State, t: nat, a: Answers) returns (s1: State, s2: State)
    requires t in s.tasks && s.tasks[t].phase == Executing && s.tasks[t].pipe.pc == Begin && !a.diagnosed
    ensures Next(c, s, s1) && Next(c, s1, s2)
    ensures t in s2.tasks && s2 == s.(tasks := s.tasks[t := s2.tasks[t]])
    ensures s2.tasks[t].pipe.pc == Finished && s2.tasks[t].phase == Executing
  {
    hide Advance, Next;
    s1 := Advanced(s, t, a);
    s2 := Advanced(s1, t, a);
    AdvancedIsStep(c, s, t, a);
    AdvancedIsStep(c, s1, t, a);
    TaskStepIsNext(c, s, s1, t);
    TaskStepIsNext(c, s1, s2, t);
  }

  lemma TaskStepIsNext(c: Config, s: State, s': State, t: nat)
    requires AcquireSlot(c, s, s', t) || FreeSlot(s, s', t) || exists a :: Advance(c, s, s', t, a)
    ensures Next(c, s, s')
  {
    hide AcquireSlot, FreeSlot, Advance, Schedule, Environment, Crash;
    assert TaskStep(c, s, s', t);
  }

  /** A step at a program counter that involves neither flags nor limiter nor Apply. */
  ghost function Advanced(s: State, t: nat, a: Answers): State
    requires t in s.tasks
  {
    var task := s.tasks[t];
    var turn := Step(task.pipe, a);
    s.(tasks := s.tasks[t := task.(pipe := turn.next, trail := Append(task.trail, turn.effect))])
  }

  lemma AdvancedIsStep(c: Config, s: State, t: nat, a: Answers)
    requires t in s.tasks && s.tasks[t].phase == Executing && s.tasks[t].pipe.pc in {Begin, Diagnosing}
    ensures Advance(c, s, Advanced(s, t, a), t, a)
  {}

  // The kill switch.

  /** While the switch is engaged nobody new reaches Apply, and whoever applies leaves that point. */
  ghost predicate DrainsApplies(s: State, s': State) {
    && At(s', Applying) <= At(s, Applying)
    && (|| s'.applies == s.applies
        || exists t :: t in At(s, Applying) && t !in At(s', Applying) && s'.applies == s.applies + [t])
  }

  lemma KilledStepDrains(c: Config, s: State, s': State)
    requires c.Valid() && PoolInv(c, s) && Next(c, s, s') && s.kill
    ensures DrainsApplies(s, s')
  {
    hide RateLimits.Inv, Inv, RegistryInv, SlotsInv, LimiterInv, Step, TasksInv;
    if incidentId, traceId :| Schedule(s, s', incidentId, traceId) {
      AtAfter(s, s', s.next, Task(incidentId, Waiting, New(traceId, incidentId), []), Applying);
    } else if t, a :| Advance(c, s, s', t, a) {
      KilledAdvanceDrains(c, s, s', t, a);
    } else if t :| TaskStep(c, s, s', t) {
      TaskOf(s, t);
      AtAfter(s, s', t, s'.tasks[t], Applying);
    } else {
      assert At(s', Applying) <= At(s, Applying);
    }
  }

  lemma KilledAdvanceDrains(c: Config, s: State, s': State, t: nat, a: Answers)
    requires Advance(c, s, s', t, a) && s.kill
    ensures DrainsApplies(s, s')
  {
    hide Step;
    StepGoes(s.tasks[t].pipe, a);
    AtAfter(s, s', t, s'.tasks[t], Applying);
  }

  ghost predicate Distinct(ts: seq<nat>) {
    forall i, j :: 0 <= i < j < |ts| ==> ts[i] != ts[j]
  }

  /** Once the kill switch is engaged and stays engaged, at most `slots` further Apply calls happen, each
      by a different task, and each by one that had already passed its last kill check. */
  lemma {:induction false} KillSwitchBoundsApplies(c: Config, run: seq<State>, i: nat, j: nat) returns (late: seq<nat>)
    requires c.Valid() && IsRun(c, run) && i <= j < |run|
    requires forall k :: i <= k <= j ==> run[k].kill
    ensures run[j].applies == run[i].applies + late
    ensures Distinct(late) && |late| <= c.slots
    ensures forall t <- late :: t in At(run[i], Applying)
    ensures At(run[j], Applying) <= At(run[i], Applying) && forall t <- late :: t !in At(run[j], Applying)
    decreases j
  {
    hide Next, At, PoolInv;
    if i == j {
      late := [];
      NotInEmpty(At(run[j], Applying));
    } else {
      late := KillSwitchBoundsApplies(c, run, i, j - 1);
      RunKeepsInv(c, run, j - 1);
      KilledStepDrains(c, run[j - 1], run[j]);
      if run[j].applies != run[j - 1].applies {
        var t :| t in At(run[j - 1], Applying) && t !in At(run[j], Applying)
                 && run[j].applies == run[j - 1].applies + [t];
        assert run[i].applies + late + [t] == run[i].applies + (late + [t]);
        late := late + [t];
      }
    }
    RunKeepsInv(c, run, i);
    ApplyingHoldSlots(c, run[i]);
    DistinctCount(late, At(run[i], Applying));
  }

  lemma NotInEmpty(s: set<nat>)
    ensures forall t <- [] :: t !in s
  {}

  lemma ApplyingHoldSlots(c: Config, s: State)
    requires c.Valid() && PoolInv(c, s)
    ensures |At(s, Applying)| <= c.slots
  {
    hide RegistryInv, TasksInv, LimiterInv;
    assert InPhase(s, Executing) == At(s, Applying) + (InPhase(s, Executing) - At(s, Applying));
  }

  lemma {:induction false} DistinctCount(ts: seq<nat>, pool: set<nat>)
    requires Distinct(ts) && forall t <- ts :: t in pool
    ensures |ts| <= |pool|
  {
    if ts != [] {
      var last := ts[|ts| - 1];
      DistinctCount(ts[..|ts| - 1], pool - {last});
    }
  }

  /** From any state, a pipeline past its last check applies although the switch is engaged in between. */
  lemma LateApply(c: Config, s: State, t: nat, a: Answers)
    requires t in At(s, Applying)
    ensures exists s1, s2 :: Next(c, s, s1) && s1.kill && Next(c, s1, s2) && s2.kill && s2.applies == s.applies + [t]
  {
    var s1 := s.(kill := true);
    assert Environment(c, s, s1);
    var task := s.tasks[t];
    var turn := Step(task.pipe, a);
    var s2 := s1.(applies := s.applies + [t],
                  tasks := s.tasks[t := task.(pipe := turn.next, trail := Append(task.trail, turn.effect))]);
    assert Advance(c, s1, s2, t, a);
    assert TaskStep(c, s1, s2, t);
    assert Next(c, s, s1) && s1.kill && Next(c, s1, s2) && s2.kill;
  }

  // What every Apply has passed.

  /** Where a pipeline on the way to Apply has come from, and on which answer. */
  lemma StepFrom(p: Pipe, a: Answers)
    requires p.pc != Finished
    ensures Step(p, a).next.pc == Applying ==> p.pc == KillRecheck && !a.killedAgain
    ensures Step(p, a).next.pc == KillRecheck ==> p.pc == ApplyCheck && a.enabled
    ensures Step(p, a).next.pc == ApplyCheck ==> p.pc == Rehearsing && a.rehearsed
    ensures Step(p, a).next.pc == Rehearsing ==> p.pc == Building && a.built
    ensures Step(p, a).next.pc == Building ==> p.pc == KillCheck && !a.killed
  {
    hide SameIds;
  }

  /** The place before, on the way to Apply. */
  function Before(pc: Pc): Pc {
    match pc
    case Applying => KillRecheck
    case KillRecheck => ApplyCheck
    case ApplyCheck => Rehearsing
    case Rehearsing => Building
    case _ => KillCheck
  }

  predicate OnTheWay(pc: Pc) { pc in {Building, Rehearsing, ApplyCheck, KillRecheck, Applying} }

  /** What the flags said when the task left a place. */
  ghost predicate Passes(s: State, pc: Pc) {
    match pc
    case KillCheck => !s.kill
    case ApplyCheck => s.applyEnabled
    case KillRecheck => !s.kill
    case _ => true
  }

  /** A task on the way was at the place before, and the flags let it pass. */
  lemma {:induction false} CameFrom(c: Config, run: seq<State>, i: nat, t: nat, pc: Pc) returns (j: nat)
    requires c.Valid() && IsRun(c, run) && i < |run| && t in At(run[i], pc) && OnTheWay(pc)
    ensures j < i && t in At(run[j], Before(pc)) && Passes(run[j], Before(pc))
  {
    hide Next, PoolInv;
    if i == 0 {
      assert false;
    } else if t in At(run[i - 1], pc) {
      j := CameFrom(c, run, i - 1, t, pc);
    } else {
      RunKeepsInv(c, run, i - 1);
      NewlyThere(c, run[i - 1], run[i], t, pc);
      j := i - 1;
    }
  }

  lemma NewlyThere(c: Config, s: State, s': State, t: nat, pc: Pc)
    requires c.Valid() && PoolInv(c, s) && Next(c, s, s') && t in At(s', pc) && t !in At(s, pc) && OnTheWay(pc)
    ensures t in At(s, Before(pc)) && Passes(s, Before(pc))
  {
    hide Step, RateLimits.Inv, RegistryInv, LimiterInv, SlotsInv, Inv, Before, Passes;
    if u, a :| Advance(c, s, s', u, a) {
      assert u == t;
      StepFrom(s.tasks[t].pipe, a);
      AnsweredByFlags(c, s, s', t, a, pc);
    } else {
      StaysOut(c, s, s', t, pc);
      assert false;
    }
  }

  lemma AnsweredByFlags(c: Config, s: State, s': State, t: nat, a: Answers, pc: Pc)
    requires Advance(c, s, s', t, a) && OnTheWay(pc) && Step(s.tasks[t].pipe, a).next.pc == pc
    ensures t in At(s, Before(pc)) && Passes(s, Before(pc))
  {
    hide Step;
    StepFrom(s.tasks[t].pipe, a);
  }

  /** Only a step of its own pipeline brings a task there. */
  lemma StaysOut(c: Config, s: State, s': State, t: nat, pc: Pc)
    requires TasksInv(s) && Next(c, s, s') && !(exists u, a :: Advance(c, s, s', u, a)) && OnTheWay(pc)
    requires t !in At(s, pc)
    ensures t !in At(s', pc)
  {
    hide Advance, Environment, Crash, AcquireSlot, GiveUp, FreeSlot, Release, Schedule, TasksInv, OnTheWay, At;
    if incidentId, traceId :| Schedule(s, s', incidentId, traceId) {
      ScheduledStaysOut(s, s', incidentId, traceId, t, pc);
    } else if u :| TaskStep(c, s, s', u) {
      MovedStaysOut(c, s, s', u, t, pc);
    } else {
      OthersStayOut(c, s, s', t, pc);
    }
  }

  lemma ScheduledStaysOut(s: State, s': State, incidentId: string, traceId: string, t: nat, pc: Pc)
    requires Schedule(s, s', incidentId, traceId) && OnTheWay(pc) && t !in At(s, pc)
    ensures t !in At(s', pc)
  {}

  lemma MovedStaysOut(c: Config, s: State, s': State, u: nat, t: nat, pc: Pc)
    requires TasksInv(s) && OnTheWay(pc) && t !in At(s, pc)
    requires AcquireSlot(c, s, s', u) || GiveUp(s, s', u) || FreeSlot(s, s', u) || Release(s, s', u)
    ensures t !in At(s', pc)
  {
    hide Inv;
    TaskOf(s, u);
  }

  lemma OthersStayOut(c: Config, s: State, s': State, t: nat, pc: Pc)
    requires (Environment(c, s, s') || Crash(c, s, s')) && t !in At(s, pc)
    ensures t !in At(s', pc)
  {
    hide RateLimits.Tick, RateLimits.Count, RateLimits.Restart, RateLimits.FailedRestart;
  }

  /** Every Apply of every run belongs to a task that found the kill switch off at its first check, then
      applying enabled, and then the kill switch off again. */
  lemma ApplyPassedItsChecks(c: Config, run: seq<State>, i: nat, t: nat) returns (first: nat, enabled: nat, last: nat)
    requires c.Valid() && IsRun(c, run) && i < |run| && t in run[i].applies
    ensures first < enabled < last < i
    ensures t in At(run[first], KillCheck) && !run[first].kill
    ensures t in At(run[enabled], ApplyCheck) && run[enabled].applyEnabled
    ensures t in At(run[last], KillRecheck) && !run[last].kill
  {
    hide IsRun;
    var k := WasApplying(c, run, i, t);
    last := CameFrom(c, run, k, t, Applying);
    enabled := CameFrom(c, run, last, t, KillRecheck);
    var rehearsing := CameFrom(c, run, enabled, t, ApplyCheck);
    var building := CameFrom(c, run, rehearsing, t, Rehearsing);
    first := CameFrom(c, run, building, t, Building);
  }

  lemma {:induction false} WasApplying(c: Config, run: seq<State>, i: nat, t: nat) returns (k: nat)
    requires c.Valid() && IsRun(c, run) && i < |run| && t in run[i].applies
    ensures k < i && t in At(run[k], Applying)
  {
    hide Next;
    if i == 0 {
      assert false;
    } else if t in run[i - 1].applies {
      k := WasApplying(c, run, i - 1, t);
    } else {
      NewApply(c, run[i - 1], run[i], t);
      k := i - 1;
    }
  }

  lemma NewApply(c: Config, s: State, s': State, t: nat)
    requires Next(c, s, s') && t in s'.applies && t !in s.applies
    ensures t in At(s, Applying)
  {
    hide Step, Honest;
  }
}
