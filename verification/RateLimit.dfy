/** The limiter under a worker pool, with crashes and restarts. `tripped` and `record` take the lock
    separately, so between the two a worker holds a permission that nobody counts; `record` persists
    its event only after releasing the lock, so a crash in between loses it. */
module RateLimits {
  import opened EventLog
  import opened Stores
  import opened CircuitBreakers

  /** The limiter's settings, and how many workers may evaluate proposals at the same time. */
  datatype Config = Config(max: int, window: int, workers: nat) {
    ghost predicate Valid() { max > 0 && window > 0 && workers > 0 }
  }

  /** `passed`: workers between tripped() = false and record(); `unsaved`: workers between the append and
      the insert, with the index of their decision. The rest are observations: `history` is every AUTO
      decision ever; `saved` are the indices of those whose event is in the table, and `remembered` of
      those that no restart has made the limiter forget before they were a window old. */
  datatype State = State(
    now: int, timestamps: seq<int>, table: seq<int>,
    passed: set<nat>, unsaved: map<nat, nat>,
    history: seq<int>, remembered: set<nat>, saved: set<nat>, restarts: nat)

  ghost predicate Init(c: Config, s: State) {
    s == State(s.now, [], [], {}, map[], [], {}, {}, 0)
  }

  /** The clock advances between lock acquisitions. */
  ghost predicate Tick(c: Config, s: State, s': State) {
    s.now <= s'.now && s' == s.(now := s'.now)
  }

  /** count(), or a tripped() whose answer nobody acts on. */
  ghost predicate Count(c: Config, s: State, s': State) {
    s' == s.(timestamps := Evicted(s.timestamps, s.now - c.window))
  }

  /** tripped() by worker w; a false answer lets w go on to record(). */
  ghost predicate Check(c: Config, s: State, s': State, w: nat) {
    var kept := Evicted(s.timestamps, s.now - c.window);
    && w !in s.passed + s.unsaved.Keys
    && s' == s.(timestamps := kept, passed := if |kept| < c.max then s.passed + {w} else s.passed)
  }

  /** The locked part of record() by worker w. */
  ghost predicate Record(c: Config, s: State, s': State, w: nat) {
    && w in s.passed
    && s' == s.(timestamps := s.timestamps + [s.now], history := s.history + [s.now],
                remembered := s.remembered + {|s.history|},
                passed := s.passed - {w}, unsaved := s.unsaved[w := |s.history|])
  }

  /** The insert at the end of record() by worker w. */
  ghost predicate Persist(c: Config, s: State, s': State, w: nat) {
    && w in s.unsaved
    && s' == s.(table := s.table + [s.now], saved := s.saved + {s.unsaved[w]}, unsaved := s.unsaved - {w})
  }

  /** The database refuses the insert by worker w, and record() ignores the error. */
  ghost predicate Refuse(c: Config, s: State, s': State, w: nat) {
    w in s.unsaved && s' == s.(unsaved := s.unsaved - {w})
  }

  /** The decisions that are a window old: they do not count any more. */
  ghost function Expired(c: Config, s: State): set<nat> {
    set i: nat | i < |s.history| && s.history[i] <= s.now - c.window
  }

  /** The process dies with its workers, and a new one hydrates from the table. It forgets the decisions
      whose event is not there. */
  ghost predicate Restart(c: Config, s: State, s': State) {
    s' == s.(timestamps := EventsSince(s.table, s.now - c.window), passed := {}, unsaved := map[],
             remembered := s.remembered * (s.saved + Expired(c, s)), restarts := s.restarts + 1)
  }

  /** The new process fails to load the events and starts empty: it forgets the window's decisions. */
  ghost predicate FailedRestart(c: Config, s: State, s': State) {
    s' == s.(timestamps := [], passed := {}, unsaved := map[],
             remembered := s.remembered * Expired(c, s), restarts := s.restarts + 1)
  }

  ghost predicate Next(c: Config, s: State, s': State) {
    || Tick(c, s, s')
    || Count(c, s, s')
    || (exists w :: |s.passed + s.unsaved.Keys| < c.workers && Check(c, s, s', w))
    || (exists w :: Record(c, s, s', w))
    || (exists w :: Persist(c, s, s', w))
    || (exists w :: Refuse(c, s, s', w))
    || Restart(c, s, s')
    || FailedRestart(c, s, s')
  }

  ghost predicate IsRun(c: Config, run: seq<State>) {
    && run != [] && Init(c, run[0])
    && forall i :: 0 < i < |run| ==> Next(c, run[i - 1], run[i])
  }

  ghost function Final(run: seq<State>): State
    requires run != []
  {
    run[|run| - 1]
  }

  ghost predicate AtMost(log: seq<int>, top: int) {
    forall i :: 0 <= i < |log| ==> log[i] <= top
  }

  /** Above every limit from `from` on, the cover counts at least as many as the log. */
  ghost predicate Covers(cover: seq<int>, log: seq<int>, from: int) {
    forall limit :: limit >= from ==> CountAbove(log, limit) <= CountAbove(cover, limit)
  }

  ghost predicate CoversAll(cover: seq<int>, log: seq<int>) {
    forall limit :: CountAbove(log, limit) <= CountAbove(cover, limit)
  }

  lemma EvictionCovers(cover: seq<int>, cutoff: int, log: seq<int>, from: int)
    requires Covers(cover, log, from) && from >= cutoff - 1
    ensures Covers(Evicted(cover, cutoff), log, from)
  {
    forall limit | limit >= from
      ensures CountAbove(log, limit) <= CountAbove(Evicted(cover, cutoff), limit)
    {
      EvictedKeepsCount(cover, cutoff, limit);
    }
  }

  lemma AppendCovers(cover: seq<int>, log: seq<int>, x: int, from: int)
    requires Covers(cover, log, from)
    ensures Covers(cover + [x], log + [x], from)
  {
    forall limit | limit >= from
      ensures CountAbove(log + [x], limit) <= CountAbove(cover + [x], limit)
    {
      CountAboveAppend(log, x, limit);
      CountAboveAppend(cover, x, limit);
    }
  }

  /** A row stands for a decision made no later than it was inserted. */
  lemma InsertCoversAll(table: seq<int>, history: seq<int>, saved: set<nat>, k: nat, now: int)
    requires CoversAll(table, Kept(history, saved)) && k < |history| && history[k] <= now
    ensures CoversAll(table + [now], Kept(history, saved + {k}))
  {
    forall limit
      ensures CountAbove(Kept(history, saved + {k}), limit) <= CountAbove(table + [now], limit)
    {
      CountAboveAppend(table, now, limit);
      KeptOneMore(history, saved, k, limit);
    }
  }

  /** What is loaded stands for all decisions that are saved or have expired. */
  lemma ReloadCovers(table: seq<int>, since: int, history: seq<int>, saved: set<nat>, kept: set<nat>)
    requires CoversAll(table, Kept(history, saved))
    requires forall k <- kept :: k < |history| ==> k in saved || history[k] <= since
    ensures Covers(EventsSince(table, since), Kept(history, kept), since)
  {
    hide CountAbove, EventsSince;
    forall limit | limit >= since
      ensures CountAbove(Kept(history, kept), limit) <= CountAbove(EventsSince(table, since), limit)
    {
      EventsSinceCounts(table, since, limit);
      KeptAbove(history, kept, saved, limit);
    }
  }

  /** `evict` keeps a decision exactly one window old, the query after a restart does not: before the
      first restart windows are closed, afterwards half-open. */
  ghost function Slack(s: State): int { if s.restarts == 0 then 1 else 0 }

  /** How many of the decisions that it remembers a window can hold. */
  ghost function Bound(c: Config): nat
    requires c.Valid()
  { c.max - 1 + c.workers }

  /** The times of the decisions that no restart has forgotten. */
  ghost function Remembered(s: State): seq<int> { Kept(s.history, s.remembered) }

  ghost function Indices(s: State): set<nat> { Range(0, |s.history|) }

  ghost predicate IndicesInv(c: Config, s: State) {
    && Sorted(s.history) && AtMost(s.history, s.now)
    && s.saved <= Indices(s) && s.remembered <= Indices(s) && (s.restarts == 0 ==> s.remembered == Indices(s))
    && (forall w <- s.unsaved :: s.unsaved[w] < |s.history|)
    && s.passed !! s.unsaved.Keys && |s.passed| + |s.unsaved.Keys| <= c.workers
  }

  ghost predicate CountsInv(c: Config, s: State)
    requires c.Valid()
  {
    && Covers(s.timestamps, Remembered(s), s.now - c.window - Slack(s))
    && CoversAll(s.table, Kept(s.history, s.saved))
    && CountAbove(Remembered(s), s.now - c.window - Slack(s)) + |s.passed| <= Bound(c)
    && Sparse(Remembered(s), Bound(c), c.window + Slack(s))
  }

  ghost predicate Inv(c: Config, s: State)
    requires c.Valid()
  {
    IndicesInv(c, s) && CountsInv(c, s)
  }

  lemma InitInv(c: Config, s: State)
    requires c.Valid() && Init(c, s)
    ensures Inv(c, s)
  {}

  lemma TickKeepsInv(c: Config, s: State, s': State)
    requires c.Valid() && Inv(c, s) && Tick(c, s, s')
    ensures Inv(c, s')
  {
    hide Kept, CountAbove, Sparse;
    CountAboveAntitone(Remembered(s), s.now - c.window - Slack(s), s'.now - c.window - Slack(s'));
  }

  lemma EvictKeepsInv(c: Config, s: State, s': State)
    requires c.Valid() && Inv(c, s) && Count(c, s, s')
    ensures Inv(c, s')
  {
    hide Kept, CountAbove, Evicted, Sparse;
    EvictionCovers(s.timestamps, s.now - c.window, Remembered(s), s.now - c.window - Slack(s));
  }

  lemma CoversAt(cover: seq<int>, log: seq<int>, from: int)
    requires Covers(cover, log, from)
    ensures CountAbove(log, from) <= CountAbove(cover, from)
  {}

  lemma PassKeepsIndices(c: Config, s: State, w: nat)
    requires IndicesInv(c, s) && w !in s.passed && w !in s.unsaved && |s.passed + s.unsaved.Keys| < c.workers
    ensures IndicesInv(c, s.(passed := s.passed + {w}))
    ensures |s.passed + {w}| <= c.workers
  {
    hide Sorted, AtMost;
    assert |s.passed + s.unsaved.Keys| == |s.passed| + |s.unsaved.Keys|;
  }

  /** A worker passes while the slice, and so what it covers, is shorter than max. */
  lemma PassKeepsCounts(c: Config, s: State, passed: set<nat>)
    requires c.Valid() && CountsInv(c, s) && |s.timestamps| < c.max && |passed| <= c.workers
    ensures CountsInv(c, s.(passed := passed))
  {
    hide Kept, CountAbove, Sparse, Covers, CoversAll;
    CoversAt(s.timestamps, Remembered(s), s.now - c.window - Slack(s));
    CountAboveAtMostLength(s.timestamps, s.now - c.window - Slack(s));
  }

  lemma PassKeepsInv(c: Config, s: State, w: nat)
    requires c.Valid() && Inv(c, s) && w !in s.passed && w !in s.unsaved && |s.passed + s.unsaved.Keys| < c.workers
    requires |s.timestamps| < c.max
    ensures Inv(c, s.(passed := s.passed + {w}))
  {
    hide IndicesInv, CountsInv;
    PassKeepsIndices(c, s, w);
    PassKeepsCounts(c, s, s.passed + {w});
  }

  lemma CheckKeepsInv(c: Config, s: State, s': State, w: nat)
    requires c.Valid() && Inv(c, s) && |s.passed + s.unsaved.Keys| < c.workers && Check(c, s, s', w)
    ensures Inv(c, s')
  {
    hide Inv, Evicted, Check, Count;
    var mid := CheckEvicts(c, s, s', w);
    EvictKeepsInv(c, s, mid);
    if mid != s' {
      PassKeepsInv(c, mid, w);
    }
  }

  lemma CheckEvicts(c: Config, s: State, after: State, w: nat) returns (mid: State)
    requires Check(c, s, after, w)
    ensures Count(c, s, mid) && mid.passed == s.passed && mid.unsaved == s.unsaved
    ensures after == mid
         || (after == mid.(passed := s.passed + {w}) && |mid.timestamps| < c.max && w !in s.passed && w !in s.unsaved)
  {
    hide Evicted;
    mid := s.(timestamps := Evicted(s.timestamps, s.now - c.window));
  }

  lemma RecordKeepsIndices(c: Config, s: State, s': State, w: nat)
    requires IndicesInv(c, s) && Record(c, s, s', w)
    ensures IndicesInv(c, s')
  {
    assert s'.unsaved.Keys == s.unsaved.Keys + {w};
    assert Indices(s') == Indices(s) + {|s.history|};
  }

  lemma RecordKeepsInv(c: Config, s: State, s': State, w: nat)
    requires c.Valid() && Inv(c, s) && Record(c, s, s', w)
    ensures Inv(c, s')
  {
    hide Kept, CountAbove, Sparse, Indices;
    var cut := s.now - c.window - Slack(s);
    RecordKeepsIndices(c, s, s', w);
    KeptAppend(s.history, s.now, s.remembered);
    KeptAppend(s.history, s.now, s.saved);
    assert |s.history| !in s.saved by { NoSuchIndex(s); }
    assert Remembered(s') == Remembered(s) + [s.now] && Kept(s'.history, s'.saved) == Kept(s.history, s.saved);
    CountAboveAppend(Remembered(s), s.now, cut);
    AppendCovers(s.timestamps, Remembered(s), s.now, cut);
    AppendSparse(Remembered(s), s.now, Bound(c), c.window + Slack(s));
  }

  lemma NoSuchIndex(s: State)
    ensures |s.history| !in Indices(s)
  {}

  lemma PersistKeepsInv(c: Config, s: State, s': State, w: nat)
    requires c.Valid() && Inv(c, s) && Persist(c, s, s', w)
    ensures Inv(c, s')
  {
    hide Kept, CountAbove, Sparse, Covers, CoversAll;
    InsertCoversAll(s.table, s.history, s.saved, s.unsaved[w], s.now);
    assert s'.unsaved.Keys == s.unsaved.Keys - {w};
  }

  lemma RefuseKeepsInv(c: Config, s: State, s': State, w: nat)
    requires c.Valid() && Inv(c, s) && Refuse(c, s, s', w)
    ensures Inv(c, s')
  {
    hide Kept, CountAbove, Sparse, Covers, CoversAll, Sorted;
    assert s'.unsaved.Keys == s.unsaved.Keys - {w};
  }

  lemma RestartKeepsInv(c: Config, s: State, s': State)
    requires c.Valid() && Inv(c, s) && Restart(c, s, s')
    ensures Inv(c, s')
  {
    hide Kept, CountAbove, Sparse, Covers, CoversAll, EventsSince, Sorted;
    ReloadCovers(s.table, s.now - c.window, s.history, s.saved, s'.remembered);
    ForgettingKeepsCounts(c, s, s');
  }

  lemma FailedRestartKeepsInv(c: Config, s: State, s': State)
    requires c.Valid() && Inv(c, s) && FailedRestart(c, s, s')
    ensures Inv(c, s')
  {
    hide Kept, CountAbove, Sparse, Covers, CoversAll, Sorted;
    ExpiredNeedNoCover(s.history, s.now - c.window, s'.remembered);
    ForgettingKeepsCounts(c, s, s');
  }

  /** A new process may have decided as much as the old one about what both remember. */
  lemma ForgettingKeepsCounts(c: Config, s: State, s': State)
    requires c.Valid() && CountsInv(c, s) && s'.now == s.now && s'.history == s.history && Slack(s') <= Slack(s)
    requires s'.remembered <= s.remembered && s'.passed == {}
    ensures CountAbove(Remembered(s'), s'.now - c.window - Slack(s')) + |s'.passed| <= Bound(c)
    ensures Sparse(Remembered(s'), Bound(c), c.window + Slack(s'))
  {
    hide Kept, CountAbove, Sparse, Covers, CoversAll;
    var cut, cut' := s.now - c.window - Slack(s), s.now - c.window - Slack(s');
    CountAboveAntitone(Remembered(s'), cut, cut');
    KeptAbove(s.history, s'.remembered, s.remembered, cut);
    SparseShrinks(s.history, s'.remembered, s.remembered, Bound(c), c.window + Slack(s), c.window + Slack(s'));
  }

  lemma ExpiredNeedNoCover(history: seq<int>, since: int, kept: set<nat>)
    requires forall k <- kept :: k < |history| ==> history[k] <= since
    ensures Covers([], Kept(history, kept), since)
  {
    hide CountAbove;
    forall limit | limit >= since
      ensures CountAbove(Kept(history, kept), limit) <= CountAbove([], limit)
    {
      KeptAbove(history, kept, {}, limit);
      assert Kept(history, {}) == [] by { KeptNone(history); }
    }
  }

  lemma {:induction false} KeptNone(history: seq<int>)
    ensures Kept(history, {}) == []
  {
    if history != [] {
      KeptNone(history[..|history| - 1]);
    }
  }

  lemma NextKeepsInv(c: Config, s: State, s': State)
    requires c.Valid() && Inv(c, s) && Next(c, s, s')
    ensures Inv(c, s')
  {
    hide Inv, Tick, Count, Check, Record, Persist, Refuse, Restart, FailedRestart;
    if Tick(c, s, s') {
      TickKeepsInv(c, s, s');
    } else if Count(c, s, s') {
      EvictKeepsInv(c, s, s');
    } else if w :| |s.passed + s.unsaved.Keys| < c.workers && Check(c, s, s', w) {
      CheckKeepsInv(c, s, s', w);
    } else if w :| Record(c, s, s', w) {
      RecordKeepsInv(c, s, s', w);
    } else if w :| Persist(c, s, s', w) {
      PersistKeepsInv(c, s, s', w);
    } else if w :| Refuse(c, s, s', w) {
      RefuseKeepsInv(c, s, s', w);
    } else if Restart(c, s, s') {
      RestartKeepsInv(c, s, s');
    } else {
      FailedRestartKeepsInv(c, s, s');
    }
  }

  lemma {:induction false} RunKeepsInv(c: Config, run: seq<State>, i: nat)
    requires c.Valid() && IsRun(c, run) && i < |run|
    ensures Inv(c, run[i])
  {
    hide Inv, Next, Init;
    if i > 0 {
      RunKeepsInv(c, run, i - 1);
      NextKeepsInv(c, run[i - 1], run[i]);
    } else {
      InitInv(c, run[0]);
    }
  }

  /** The decisions in the interval that some restart forgot before they were a window old. */
  ghost function ForgottenIn(s: State, from: int, to: int): set<nat> { Within(s.history, from, to) - s.remembered }

  /** Whatever the interleaving, with refused inserts, crashes and failed loads, at most max + workers - 1
      AUTO decisions fall into a window, beside those of the same window that a restart has forgotten: a
      closed window in a process that never restarted, a half-open one across restarts. */
  lemma WindowHoldsAtMostBound(c: Config, run: seq<State>, i: nat, from: int, to: int)
    requires c.Valid() && IsRun(c, run) && i < |run|
    requires if run[i].restarts == 0 then to - from <= c.window else to - from < c.window
    ensures CountIn(run[i].history, from, to) <= c.max + c.workers - 1 + |ForgottenIn(run[i], from, to)|
    ensures run[i].restarts == 0 ==> ForgottenIn(run[i], from, to) == {}
  {
    hide IsRun;
    RunKeepsInv(c, run, i);
    InvBounds(c, run[i], from, to);
  }

  lemma InvBounds(c: Config, s: State, from: int, to: int)
    requires c.Valid() && Inv(c, s)
    requires if s.restarts == 0 then to - from <= c.window else to - from < c.window
    ensures CountIn(s.history, from, to) <= c.max + c.workers - 1 + |ForgottenIn(s, from, to)|
    ensures s.restarts == 0 ==> ForgottenIn(s, from, to) == {}
  {
    hide Kept, CountIn, Covers, CoversAll, Sorted;
    CountSplits(s.history, s.remembered, from, to);
  }

  /** The decisions from i to j that no restart has forgotten. */
  ghost function RememberedBetween(s: State, i: nat, j: nat): set<nat> { set k <- s.remembered | i <= k <= j }

  /** One worker: more than max decisions that no restart has forgotten span at least the window, whatever
      was forgotten before, after or between them; strictly more than it in a process that has not
      restarted, where nothing is forgotten. */
  lemma SequentialSpacing(c: Config, run: seq<State>, n: nat, i: nat, j: nat)
    requires c.Valid() && c.workers == 1 && IsRun(c, run) && n < |run| && i <= j < |run[n].history|
    requires |RememberedBetween(run[n], i, j)| > c.max || (run[n].restarts == 0 && j - i >= c.max)
    ensures run[n].history[j] - run[n].history[i] >= c.window
    ensures run[n].restarts == 0 ==> run[n].history[j] - run[n].history[i] > c.window
  {
    hide IsRun, Inv;
    RunKeepsInv(c, run, n);
    var s := run[n];
    if s.restarts == 0 {
      AllRemembered(c, s, i, j);
    }
    SpanHolds(c, s, i, j);
    if s.history[j] - s.history[i] < c.window + Slack(s) {
      InvSparse(c, s, s.history[i], s.history[j]);
      assert false;
    }
  }

  lemma InvSparse(c: Config, s: State, from: int, to: int)
    requires c.Valid() && Inv(c, s) && to - from < c.window + Slack(s)
    ensures CountIn(Remembered(s), from, to) <= Bound(c)
  {}

  lemma SpanHolds(c: Config, s: State, i: nat, j: nat)
    requires c.Valid() && Inv(c, s) && i <= j < |s.history|
    ensures |RememberedBetween(s, i, j)| <= CountIn(Remembered(s), s.history[i], s.history[j])
  {
    hide Kept, CountIn, Covers, CoversAll, Sparse;
    CountKept(s.history, s.remembered, s.history[i], s.history[j]);
    Subset(RememberedBetween(s, i, j), Within(s.history, s.history[i], s.history[j]) * s.remembered);
  }

  lemma AllRemembered(c: Config, s: State, i: nat, j: nat)
    requires c.Valid() && Inv(c, s) && i <= j < |s.history| && s.restarts == 0
    ensures |RememberedBetween(s, i, j)| == j - i + 1
  {
    hide CountsInv, Sorted;
    RangeCount(i, j + 1);
    assert RememberedBetween(s, i, j) == Range(i, j + 1);
  }

  // The bound is attained: `decided` decisions one after the other, then a burst in which `checks`
  // workers pass the check before `records` of them record, all in the same millisecond.

  ghost function Zeros(n: nat): seq<int> { seq(n, _ => 0) }

  /** The workers in the middle of their record(); worker k made decision `decided` + k. */
  ghost function Saving(decided: nat, records: nat): map<nat, nat> {
    map w <- Range(0, records) :: decided + w
  }

  ghost function Burst(decided: nat, checks: nat, records: nat): State {
    State(0, Zeros(decided + records), Zeros(decided), Range(records, checks), Saving(decided, records),
          Zeros(decided + records), Range(0, decided + records), Range(0, decided), 0)
  }

  lemma BurstCheck(c: Config, decided: nat, checks: nat)
    requires c.Valid() && decided < c.max && checks < c.workers
    ensures Next(c, Burst(decided, checks, 0), Burst(decided, checks + 1, 0))
  {
    hide Burst, Check;
    BurstIsCheck(c, decided, checks);
    BurstIsBusy(decided, checks);
  }

  lemma BurstIsBusy(decided: nat, checks: nat)
    ensures var s := Burst(decided, checks, 0); |s.passed + s.unsaved.Keys| == checks
  {
    var s := Burst(decided, checks, 0);
    RangeCount(0, checks);
    assert s.passed + s.unsaved.Keys == Range(0, checks);
  }

  lemma BurstIsCheck(c: Config, decided: nat, checks: nat)
    requires c.Valid() && decided < c.max
    ensures Check(c, Burst(decided, checks, 0), Burst(decided, checks + 1, 0), checks)
  {
    var s, s' := Burst(decided, checks, 0), Burst(decided, checks + 1, 0);
    assert s'.passed == s.passed + {checks};
  }

  lemma BurstRecord(c: Config, decided: nat, checks: nat, records: nat)
    requires records < checks
    ensures Next(c, Burst(decided, checks, records), Burst(decided, checks, records + 1))
  {
    var s, s' := Burst(decided, checks, records), Burst(decided, checks, records + 1);
    assert s'.passed == s.passed - {records};
    assert s'.unsaved == s.unsaved[records := decided + records];
    assert s'.history == s.history + [0];
    assert s'.remembered == s.remembered + {decided + records};
    assert Record(c, s, s', records);
  }

  lemma BurstPersist(c: Config, decided: nat)
    ensures Next(c, Burst(decided, 1, 1), Burst(decided + 1, 0, 0))
  {
    var s, s' := Burst(decided, 1, 1), Burst(decided + 1, 0, 0);
    assert s'.unsaved == s.unsaved - {0};
    assert s'.table == s.table + [0];
    assert s'.saved == s.saved + {s.unsaved[0]};
    assert Persist(c, s, s', 0);
  }

  ghost predicate Reached(c: Config, s: State) {
    exists run :: IsRun(c, run) && Final(run) == s
  }

  lemma Extend(c: Config, s: State, s': State)
    requires Reached(c, s) && Next(c, s, s')
    ensures Reached(c, s')
  {
    hide Next;
    var run :| IsRun(c, run) && Final(run) == s;
    assert IsRun(c, run + [s']) && Final(run + [s']) == s';
  }

  lemma {:induction false} BurstIsReached(c: Config, decided: nat, checks: nat, records: nat)
    requires c.Valid() && decided < c.max && records <= checks <= c.workers
    ensures Reached(c, Burst(decided, checks, records))
    decreases decided, checks + records
  {
    hide Reached, Next, Burst;
    if records > 0 {
      BurstIsReached(c, decided, checks, records - 1);
      BurstRecord(c, decided, checks, records - 1);
      Extend(c, Burst(decided, checks, records - 1), Burst(decided, checks, records));
    } else if checks > 0 {
      BurstIsReached(c, decided, checks - 1, 0);
      BurstCheck(c, decided, checks - 1);
      Extend(c, Burst(decided, checks - 1, 0), Burst(decided, checks, 0));
    } else if decided > 0 {
      BurstIsReached(c, decided - 1, 1, 1);
      BurstPersist(c, decided - 1);
      Extend(c, Burst(decided - 1, 1, 1), Burst(decided, 0, 0));
    } else {
      StartIsReached(c);
    }
  }

  lemma StartIsReached(c: Config)
    ensures Reached(c, Burst(0, 0, 0))
  {
    assert IsRun(c, [Burst(0, 0, 0)]) && Final([Burst(0, 0, 0)]) == Burst(0, 0, 0);
  }

  /** The bound is exact: some run puts max + workers - 1 decisions into a single millisecond. */
  lemma BoundIsAttained(c: Config)
    requires c.Valid()
    ensures exists run ::
              && IsRun(c, run) && Final(run).restarts == 0
              && CountIn(Final(run).history, 0, 0) == c.max + c.workers - 1
  {
    BurstIsReached(c, c.max - 1, c.workers, c.workers);
    ZerosCount(c.max + c.workers - 1);
  }

  lemma {:induction false} ZerosCount(n: nat)
    ensures CountIn(Zeros(n), 0, 0) == n
  {
    if n > 0 {
      ZerosCount(n - 1);
      assert Zeros(n)[..n - 1] == Zeros(n - 1);
    }
  }

  lemma FullIsReached(c: Config)
    requires c.Valid()
    ensures Reached(c, Burst(c.max, 0, 0))
  {
    hide Reached, Next, Burst;
    BurstIsReached(c, c.max - 1, 1, 1);
    BurstPersist(c, c.max - 1);
    Extend(c, Burst(c.max - 1, 1, 1), Burst(c.max, 0, 0));
  }

  /** max decisions at time 0, then a restart one window later. */
  ghost function Restarted(c: Config): State
    requires c.Valid()
  {
    Burst(c.max, 0, 0).(now := c.window, timestamps := [], restarts := 1)
  }

  lemma RestartedIsReached(c: Config)
    requires c.Valid()
    ensures Reached(c, Restarted(c))
  {
    hide Reached;
    FullIsReached(c);
    var full := Burst(c.max, 0, 0);
    var late := full.(now := c.window);
    assert full.passed == {} && full.unsaved == map[];
    Extend(c, full, late);
    NothingSinceZero(c.max);
    assert late.remembered * (late.saved + Expired(c, late)) == late.remembered;
    assert Restart(c, late, Restarted(c));
    Extend(c, late, Restarted(c));
  }

  /** Another decision after the restart, passed and recorded. */
  ghost function PassedAgain(c: Config): State
    requires c.Valid()
  { Restarted(c).(passed := {0}) }

  ghost function DecidedAgain(c: Config): State
    requires c.Valid()
  {
    PassedAgain(c).(timestamps := [c.window], history := Zeros(c.max) + [c.window],
                    remembered := Range(0, c.max) + {c.max},
                    passed := {}, unsaved := map[0 := c.max])
  }

  lemma DecidedAgainIsReached(c: Config)
    requires c.Valid()
    ensures Reached(c, DecidedAgain(c))
  {
    hide Reached;
    RestartedIsReached(c);
    assert Restarted(c).passed == {} && Restarted(c).unsaved == map[];
    assert Check(c, Restarted(c), PassedAgain(c), 0);
    Extend(c, Restarted(c), PassedAgain(c));
    DecidesAgain(c);
    Extend(c, PassedAgain(c), DecidedAgain(c));
  }

  lemma DecidesAgain(c: Config)
    requires c.Valid()
    ensures Next(c, PassedAgain(c), DecidedAgain(c))
  {
    assert Record(c, PassedAgain(c), DecidedAgain(c), 0);
  }

  /** Across a restart the half-open window is exact too: one worker, nothing forgotten, and yet max + 1
      decisions exactly one window apart, because the query drops what `evict` would have kept. */
  lemma HalfOpenWindowIsAttained(c: Config)
    requires c.Valid()
    ensures exists s :: Reached(c, s) && s.remembered == Indices(s) && |s.history| == c.max + 1
                        && s.history[c.max] - s.history[0] == c.window
  {
    hide Reached;
    DecidedAgainIsReached(c);
    var s := DecidedAgain(c);
    assert s.remembered == Indices(s);
  }

  lemma {:induction false} NothingSinceZero(n: nat)
    ensures EventsSince(Zeros(n), 0) == []
  {
    if n > 0 {
      NothingSinceZero(n - 1);
      assert Zeros(n)[..n - 1] == Zeros(n - 1);
    }
  }

  ghost predicate KeepsConfiguredMax(c: Config) {
    forall run, from, to ::
      IsRun(c, run) && Final(run).restarts == 0 && to - from <= c.window ==>
        CountIn(Final(run).history, from, to) <= c.max
  }

  /** The configured maximum per window holds in every run exactly when there is a single worker. */
  lemma ConfiguredMaxIffOneWorker(c: Config)
    requires c.Valid()
    ensures KeepsConfiguredMax(c) <==> c.workers == 1
  {
    if c.workers == 1 {
      forall run, from, to | IsRun(c, run) && Final(run).restarts == 0 && to - from <= c.window
        ensures CountIn(Final(run).history, from, to) <= c.max
      {
        WindowHoldsAtMostBound(c, run, |run| - 1, from, to);
      }
    } else {
      BoundIsAttained(c);
    }
  }
}
