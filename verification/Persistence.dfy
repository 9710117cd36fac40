/** A failure that does not go away, with its signals thinned out by dedup: when does the verifier still
    notice? That is a matter of three lengths: the verification window, the dedup window, and the time
    from one signal of the failure to the next. */
module Persistences {
  import opened Contracts
  import opened Stores
  import opened Correlators
  import opened CorrelatorRuns
  import opened Verifiers
  import opened Recoveries
  import opened Text

  /** The failure goes on: its signals come at most `period` apart. */
  datatype Failing = Failing(namespace: string, resource: string, reason: string, period: nat) {
    function Sign(id: string, receivedAt: int): Signal {
      Signal(id, namespace, resource, reason, "critical", receivedAt)
    }

    function Key(): string { CorrelationKey(Sign("", 0)) }

    function Label(): string { ResourceLabel(Sign("", 0)) }

    /** A signal of this failure. */
    predicate Shows(sig: Signal) { sig.namespace == namespace && sig.resource == resource && sig.reason == reason }
  }

  /** Beside the verifier and its correlator, as observations: when the failure last showed, the IDs of all
      signals so far, when a signal of the failure was last accepted (or the window start), and how many
      were since the window start. */
  datatype Trial = Trial(watch: Watch, heard: int, used: set<string>, last: int, count: nat)

  ghost predicate Start(c: Config, f: Failing, s: Trial) {
    && Begin(c, s.watch) && s.watch.target == f.Label() && Causal(s.watch.world)
    && (forall a <- s.watch.world.accepted :: a.sig.id in s.used)
    && s.heard == s.last == s.watch.windowStart && s.count == 0
  }

  /** Time passes, but not longer than until the failure shows again. */
  ghost predicate Wait(c: Config, f: Failing, s: Trial, s': Trial) {
    && Tick(s.watch.world, s'.watch.world) && s'.watch.world.now <= s.heard + f.period
    && s' == s.(watch := s.watch.(world := s'.watch.world))
  }

  /** A signal arrives, after it was received, with an ID of its own; one of the failure at once. */
  ghost predicate Arrive(c: Config, f: Failing, s: Trial, s': Trial, sig: Signal, id: string) {
    var w := s.watch.world;
    && Receive(c, w, s'.watch.world, sig, id)
    && sig.id !in s.used && sig.receivedAt <= w.now
    && (f.Shows(sig) ==> sig.receivedAt == w.now)
    && (CorrelationKey(sig) == f.Key() && sig.reason == f.reason ==> f.Shows(sig))
    && var accepted := f.Shows(sig) && Accepts(c, w.cor, sig, w.now);
       s' == s.(watch := s.watch.(world := s'.watch.world), used := s.used + {sig.id},
                heard := if f.Shows(sig) then w.now else s.heard,
                last := if accepted then w.now else s.last,
                count := if accepted && w.now > s.watch.windowStart then s.count + 1 else s.count)
  }

  /** The correlator closes stale incidents, or its consumer takes an event. */
  ghost predicate Housekeep(c: Config, s: Trial, s': Trial) {
    && ((exists order :: Resolve(c, s.watch.world, s'.watch.world, order)) || Consume(s.watch.world, s'.watch.world))
    && s' == s.(watch := s.watch.(world := s'.watch.world))
  }

  ghost predicate Check(s: Trial, s': Trial, snapshot: seq<Incident>) {
    PollStep(s.watch, s'.watch, snapshot) && s' == s.(watch := s'.watch)
  }

  ghost predicate Goes(c: Config, f: Failing, s: Trial, s': Trial) {
    || Wait(c, f, s, s')
    || (exists sig, id :: Arrive(c, f, s, s', sig, id))
    || Housekeep(c, s, s')
    || (exists snapshot :: Check(s, s', snapshot))
  }

  ghost predicate IsTrial(c: Config, f: Failing, run: seq<Trial>) {
    && run != [] && Start(c, f, run[0])
    && forall i :: 0 < i < |run| ==> Goes(c, f, run[i - 1], run[i])
  }

  /** The verifier's part of it. */
  ghost function Watches(run: seq<Trial>): seq<Watch> { seq(|run|, i requires 0 <= i < |run| => run[i].watch) }

  lemma GoesProjects(c: Config, f: Failing, s: Trial, s': Trial)
    requires Goes(c, f, s, s')
    ensures Recoveries.Next(c, s.watch, s'.watch)
  {
    hide Tick, Receive, Resolve, Consume, PollStep;
  }

  lemma TrialIsRun(c: Config, f: Failing, run: seq<Trial>)
    requires IsTrial(c, f, run)
    ensures Recoveries.IsRun(c, Watches(run))
  {
    hide Goes, Recoveries.Next, Begin;
    forall i | 0 < i < |run|
      ensures Recoveries.Next(c, Watches(run)[i - 1], Watches(run)[i])
    {
      GoesProjects(c, f, run[i - 1], run[i]);
    }
  }

  /** The longest time from one accepted signal to the next: the last one that is dropped comes just
      before the dedup window ends, and the next one a period later. */
  function Spacing(c: Config, f: Failing): int {
    (if c.dedupWindow > 1 then c.dedupWindow else 1) - 1 + f.period
  }

  /** What the correlator remembers of the failure is no later than the last acceptance. */
  ghost predicate SeenInv(f: Failing, s: Trial) {
    var entries := s.watch.world.cor.entries;
    f.Key() in entries && f.reason in entries[f.Key()].seenReasons ==> entries[f.Key()].seenReasons[f.reason] <= s.last
  }

  ghost function Due(start: int, n: nat, spacing: int): int { start + n * spacing }

  lemma DueNext(start: int, n: nat, spacing: int)
    ensures Due(start, n + 1, spacing) == Due(start, n, spacing) + spacing
    ensures Due(start, 0, spacing) == start
  {}

  lemma DueAtLeast(start: int, n: nat, spacing: int)
    requires spacing >= 0
    ensures Due(start, n, spacing) >= start
  {}

  lemma DueOrdered(start: int, n: nat, m: nat, spacing: int)
    requires spacing >= 0 && Due(start, n, spacing) < Due(start, m, spacing)
    ensures n < m
  {}

  ghost predicate PaceInv(c: Config, f: Failing, s: Trial) {
    && s.last <= Due(s.watch.windowStart, s.count, Spacing(c, f))
    && s.heard < s.last + (if c.dedupWindow > 1 then c.dedupWindow else 1)
    && s.watch.windowStart <= s.watch.world.now <= s.heard + f.period
  }

  ghost predicate CountInv(s: Trial) {
    && RecurrenceIds(s.watch) <= s.used
    && s.count <= |RecurrenceIds(s.watch)|
    && s.watch.from <= |s.watch.world.accepted|
  }

  ghost predicate TrialInv(c: Config, f: Failing, s: Trial) {
    s.watch.target == f.Label() && SeenInv(f, s) && PaceInv(c, f, s) && CountInv(s)
  }

  lemma StartInv(c: Config, f: Failing, s: Trial)
    requires Start(c, f, s)
    ensures TrialInv(c, f, s)
  {
    hide StoreInv, EventInv, QueueInv, SeverityInv, KeyedInv;
    DueNext(s.watch.windowStart, 0, Spacing(c, f));
    assert RecurrenceIds(s.watch) == {};
    StartSeen(c, f, s);
  }

  lemma StartSeen(c: Config, f: Failing, s: Trial)
    requires WorldInv(c, s.watch.world) && s.last == s.watch.world.now
    ensures SeenInv(f, s)
  {
    hide StoreInv, EventInv, QueueInv, SeverityInv, KeyedInv;
    var entries := s.watch.world.cor.entries;
    if f.Key() in entries {
      assert Timely(c, entries[f.Key()], s.watch.world.now);
    }
  }

  /** Processing a signal of another key or reason leaves what is remembered of the failure, or forgets it. */
  lemma ArriveKeepsSeen(c: Config, f: Failing, s: Trial, s': Trial, sig: Signal, id: string)
    requires SeenInv(f, s) && Arrive(c, f, s, s', sig, id) && s.last <= s.watch.world.now
    ensures SeenInv(f, s')
  {
    hide Upserted;
  }

  /** A signal of the failure is dropped only within a dedup window of the last acceptance. */
  lemma ArriveKeepsPace(c: Config, f: Failing, s: Trial, s': Trial, sig: Signal, id: string)
    requires SeenInv(f, s) && PaceInv(c, f, s) && Arrive(c, f, s, s', sig, id)
    ensures PaceInv(c, f, s')
  {
    hide Processed, Due, OpeningRanks;
    DueNext(s.watch.windowStart, s.count, Spacing(c, f));
    DueAtLeast(s.watch.windowStart, s.count, Spacing(c, f));
    if f.Shows(sig) {
      KeyOf(f, sig);
    }
  }

  lemma KeyOf(f: Failing, sig: Signal)
    requires f.Shows(sig)
    ensures CorrelationKey(sig) == f.Key() && ResourceLabel(sig) == f.Label()
  {}

  lemma RecurrenceOf(s: Watch, i: nat)
    requires s.from <= i < |s.world.accepted| && Recurrence(s, i)
    ensures s.world.accepted[i].sig.id in RecurrenceIds(s)
  {}

  /** Accepting adds at most one recurrence, and one of the failure after the window start adds one. */
  lemma ArriveKeepsCount(c: Config, f: Failing, s: Trial, s': Trial, sig: Signal, id: string)
    requires s.watch.target == f.Label() && CountInv(s) && Arrive(c, f, s, s', sig, id)
    ensures CountInv(s')
  {
    hide Processed, OpeningRanks, Accepts, Matching;
    var w, w' := s.watch.world, s'.watch.world;
    assert RecurrenceIds(s.watch) <= RecurrenceIds(s'.watch) <= RecurrenceIds(s.watch) + {sig.id} by {
      AcceptedGrows(s.watch, s'.watch, sig);
    }
    SubsetIsSmaller(RecurrenceIds(s.watch), RecurrenceIds(s'.watch));
    if s'.count > s.count {
      KeyOf(f, sig);
      IsMatching(f, sig, s.watch.windowStart);
      assert Recurrence(s'.watch, |w.accepted|);
      RecurrenceOf(s'.watch, |w.accepted|);
      assert RecurrenceIds(s'.watch) == RecurrenceIds(s.watch) + {sig.id};
    }
  }

  lemma IsMatching(f: Failing, sig: Signal, start: int)
    requires f.Shows(sig) && sig.receivedAt > start
    ensures Matching(sig, f.Label(), start)
  {}

  lemma AcceptedGrows(s: Watch, s': Watch, sig: Signal)
    requires s' == s.(world := s'.world) && s.from <= |s.world.accepted|
    requires s'.world.accepted == s.world.accepted
             || exists a: Acceptance :: a.sig == sig && s'.world.accepted == s.world.accepted + [a]
    ensures RecurrenceIds(s) <= RecurrenceIds(s') <= RecurrenceIds(s) + {sig.id}
  {
    hide Matching;
    forall id <- RecurrenceIds(s)
      ensures id in RecurrenceIds(s')
    {
      var i: nat :| s.from <= i < |s.world.accepted| && Recurrence(s, i) && s.world.accepted[i].sig.id == id;
      assert Recurrence(s', i);
    }
    forall id <- RecurrenceIds(s')
      ensures id in RecurrenceIds(s) + {sig.id}
    {
      var i: nat :| s.from <= i < |s'.world.accepted| && Recurrence(s', i) && s'.world.accepted[i].sig.id == id;
      assert i < |s.world.accepted| ==> Recurrence(s, i);
    }
  }

  lemma ArriveKeepsInv(c: Config, f: Failing, s: Trial, s': Trial, sig: Signal, id: string)
    requires TrialInv(c, f, s) && Arrive(c, f, s, s', sig, id) && s.last <= s.watch.world.now
    ensures TrialInv(c, f, s') && s'.last <= s'.watch.world.now
  {
    hide SeenInv, PaceInv, CountInv, Processed, Accepts, OpeningRanks;
    ArriveKeepsSeen(c, f, s, s', sig, id);
    ArriveKeepsPace(c, f, s, s', sig, id);
    ArriveKeepsCount(c, f, s, s', sig, id);
  }

  lemma {:induction false} ResolveKeepsSeen(c: Config, s: State, order: seq<string>, now: int, key: string)
    ensures key in ResolvedAll(c, s, order, now).entries <==> key in s.entries
    ensures key in s.entries ==> ResolvedAll(c, s, order, now).entries[key].seenReasons == s.entries[key].seenReasons
    decreases |order|
  {
    hide Stale;
    if order != [] {
      ResolveKeepsSeen(c, s, order[..|order| - 1], now, key);
    }
  }

  /** The other steps accept nothing and remember nothing. */
  lemma OthersKeepInv(c: Config, f: Failing, s: Trial, s': Trial)
    requires TrialInv(c, f, s) && s' == s.(watch := s'.watch) && s.last <= s.watch.world.now
    requires s'.watch == s.watch.(world := s'.watch.world, observed := s'.watch.observed, polled := s'.watch.polled)
    requires s'.watch.world.accepted == s.watch.world.accepted
    requires var entries, entries' := s.watch.world.cor.entries, s'.watch.world.cor.entries;
             f.Key() in entries' ==> f.Key() in entries && entries'[f.Key()].seenReasons == entries[f.Key()].seenReasons
    requires s.watch.world.now <= s'.watch.world.now <= s.heard + f.period
    ensures TrialInv(c, f, s') && s'.last <= s'.watch.world.now
  {
    hide Matching;
    assert RecurrenceIds(s'.watch) == RecurrenceIds(s.watch) by {
      assert forall i: nat :: Recurrence(s'.watch, i) <==> Recurrence(s.watch, i);
    }
  }

  lemma GoesKeepsInv(c: Config, f: Failing, s: Trial, s': Trial)
    requires TrialInv(c, f, s) && Goes(c, f, s, s') && s.last <= s.watch.world.now
    ensures TrialInv(c, f, s') && s'.last <= s'.watch.world.now
  {
    hide SeenInv, CountInv, Arrive, ResolvedAll, RecentSignals, Merge, ListsIncidents;
    if sig, id :| Arrive(c, f, s, s', sig, id) {
      ArriveKeepsInv(c, f, s, s', sig, id);
    } else {
      if order :| Resolve(c, s.watch.world, s'.watch.world, order) {
        ResolveKeepsSeen(c, s.watch.world.cor, order, s.watch.world.now, f.Key());
      }
      OthersKeepInv(c, f, s, s');
    }
  }

  lemma {:induction false} TrialKeepsInv(c: Config, f: Failing, run: seq<Trial>, i: nat)
    requires IsTrial(c, f, run) && i < |run|
    ensures TrialInv(c, f, run[i]) && run[i].last <= run[i].watch.world.now
    ensures run[i].watch.windowStart == run[0].watch.windowStart
  {
    hide Goes, TrialInv;
    if i == 0 {
      StartInv(c, f, run[0]);
      StartNow(c, f, run[0]);
    } else {
      TrialKeepsInv(c, f, run, i - 1);
      GoesKeepsInv(c, f, run[i - 1], run[i]);
      GoesKeepsStart(c, f, run[i - 1], run[i]);
    }
  }

  lemma StartNow(c: Config, f: Failing, s: Trial)
    requires Start(c, f, s)
    ensures s.last <= s.watch.world.now
  {
    hide WorldInv;
  }

  lemma GoesKeepsStart(c: Config, f: Failing, s: Trial, s': Trial)
    requires Goes(c, f, s, s')
    ensures s'.watch.windowStart == s.watch.windowStart
  {
    hide Receive, Resolve, Consume, Tick;
  }

  /** Enough recurrences have been accepted as time goes by. */
  lemma EnoughAccepted(c: Config, f: Failing, run: seq<Trial>, i: nat, n: nat)
    requires IsTrial(c, f, run) && i < |run|
    requires run[i].watch.world.now > Due(run[0].watch.windowStart, n, Spacing(c, f))
    ensures |RecurrenceIds(run[i].watch)| >= n
  {
    hide Goes, Start, RecurrenceIds;
    TrialKeepsInv(c, f, run, i);
    var s := run[i];
    DueNext(s.watch.windowStart, s.count, Spacing(c, f));
    DueOrdered(s.watch.windowStart, n, s.count + 1, Spacing(c, f));
  }

  /** The trial ends with a poll that decides the verification, handled no earlier than its tick. */
  ghost predicate Decides(cfg: VerifierConfig, run: seq<Trial>, turns: seq<Turn>) {
    && run != [] && DecidedByLast(cfg, Watches(run), turns)
    && turns[|turns| - 1].Poll? && turns[|turns| - 1].at <= run[|run| - 1].watch.world.now
  }

  /** A failure that goes on for longer than threshold + 1 spacings of its accepted signals is FAILED. */
  lemma PersistenceForcesFailure(c: Config, cfg: VerifierConfig, f: Failing, run: seq<Trial>, turns: seq<Turn>)
    requires ValidConfig(c) && IsTrial(c, f, run) && run[0].watch.gap < c.resolveWindow && Decides(cfg, run, turns)
    requires cfg.failureThreshold >= 0 && cfg.window > (cfg.failureThreshold + 1) * Spacing(c, f)
    ensures Verified(cfg, true, run[0].watch.windowStart, turns).value.outcome == Failed
  {
    hide IsTrial, Polls, Recoveries.IsRun, RecurrenceIds, Merge, EndsInPoll;
    TrialIsRun(c, f, run);
    var watches, n := Watches(run), |run| - 1;
    var start := run[0].watch.windowStart;
    RecurrenceForcesFailure(c, cfg, watches, turns);
    LastTurnDecides(cfg, start, turns);
    if Verified(cfg, true, start, turns).value.outcome == Recovered {
      EnoughAccepted(c, f, run, n, cfg.failureThreshold + 1);
      assert false;
    }
  }

  /** A verification decided by its last turn, a poll, is RECOVERED only if that ticked after the window. */
  lemma LastTurnDecides(cfg: VerifierConfig, start: int, turns: seq<Turn>)
    requires turns != [] && turns[|turns| - 1].Poll?
    requires Verified(cfg, true, start, turns[..|turns| - 1]) == None && Verified(cfg, true, start, turns).Some?
    ensures var r := Verified(cfg, true, start, turns).value;
            r.outcome == Failed || (r.outcome == Recovered && turns[|turns| - 1].at >= start + cfg.window)
  {
    hide Merge;
    var k := |turns| - 1;
    assert turns == turns[..k] + [turns[k]];
    JudgedConcat(cfg, start, [], turns[..k], [turns[k]]);
  }

  // A failure that is thinned out as much as possible: it shows in every millisecond of the dedup window,
  // then stays silent for as long as it may, and shows again.

  /** The incident of the failure tells of the signal before the window and of one per recurrence. */
  ghost predicate Tells(f: Failing, s: Trial, signals: seq<Signal>) {
    && |signals| == s.count + 1 && signals[0].receivedAt <= s.watch.windowStart
    && (forall i :: 0 < i < |signals| ==> Matching(signals[i], s.watch.target, s.watch.windowStart))
    && (forall i, j :: 0 <= i < j < |signals| ==> signals[i].id != signals[j].id)
    && (forall sig <- signals :: sig.id in s.used)
    && s.watch.observed <= signals[1..]
  }

  /** The one incident is open and remembers the last acceptance. */
  ghost predicate Ongoing(f: Failing, s: Trial) {
    var entries := s.watch.world.cor.entries;
    && entries.Keys == {f.Key()} && Open(entries[f.Key()])
    && entries[f.Key()].seenReasons == map[f.reason := s.last]
    && s.watch.target == f.Label()
    && Tells(f, s, entries[f.Key()].incident.signals)
  }

  /** When the failure last showed. */
  ghost predicate Silent(c: Config, s: Trial) {
    var width := if c.dedupWindow > 1 then c.dedupWindow else 1;
    s.heard == if s.watch.world.now < s.last + width then s.watch.world.now else s.last + width - 1
  }

  /** At the end of a millisecond. */
  ghost predicate Thin(c: Config, f: Failing, s: Trial) {
    && Ongoing(f, s) && Silent(c, s)
    && s.last == Due(s.watch.windowStart, s.count, Spacing(c, f))
    && s.last <= s.watch.world.now < s.last + Spacing(c, f)
    && s.watch.polled <= s.watch.world.now < s.watch.polled + s.watch.gap
  }

  /** After the tick and the poll of the next millisecond. */
  ghost function Polled(f: Failing, s: Trial): Trial
    requires f.Key() in s.watch.world.cor.entries && s.watch.world.cor.entries[f.Key()].incident.signals != []
  {
    var w := s.watch.world;
    s.(watch := s.watch.(world := w.(now := w.now + 1), polled := w.now + 1,
                         observed := w.cor.entries[f.Key()].incident.signals[1..]))
  }

  ghost function Ticked(s: Trial): Trial {
    s.(watch := s.watch.(world := s.watch.world.(now := s.watch.world.now + 1)))
  }

  lemma {:induction false} AllMatching(signals: seq<Signal>, target: string, since: int)
    requires signals != [] && signals[0].receivedAt <= since
    requires forall i :: 0 < i < |signals| ==> Matching(signals[i], target, since)
    ensures MatchingIn(signals, target, since) == signals[1..]
  {
    var front := signals[..|signals| - 1];
    if front == [] {
      assert MatchingIn(front, target, since) == [];
    } else {
      AllMatching(front, target, since);
      assert signals[1..] == front[1..] + [signals[|signals| - 1]];
    }
  }

  lemma SingleRecent(inc: Incident, target: string, since: int)
    ensures RecentSignals([inc], target, since) == MatchingIn(inc.signals, target, since)
  {
    assert [inc][..0] == [];
    assert RecentSignals([], target, since) == [];
  }

  /** Merging a longer list into a beginning of it yields the longer list. */
  lemma {:induction false} MergeLonger(acc: seq<Signal>, all: seq<Signal>)
    requires acc <= all && forall i, j :: 0 <= i < j < |all| ==> all[i].id != all[j].id
    ensures NewOnes(acc, all) == all[|acc|..] && Merge(acc, all) == all
    decreases |all|
  {
    if |all| > |acc| {
      var front, last := all[..|all| - 1], all[|all| - 1];
      MergeLonger(acc, front);
      assert all[|acc|..] == front[|acc|..] + [last];
    } else {
      NothingNew(acc, all);
    }
  }

  lemma {:induction false} NothingNew(acc: seq<Signal>, next: seq<Signal>)
    requires forall sig <- next :: sig in acc
    ensures NewOnes(acc, next) == []
  {
    if next != [] {
      var front, last := next[..|next| - 1], next[|next| - 1];
      assert last in next && last in acc;
      NothingNew(acc, front);
    }
  }

  /** The poll sees all recurrences so far. */
  lemma ThinPoll(c: Config, f: Failing, s: Trial) returns (snapshot: seq<Incident>)
    requires Thin(c, f, s)
    ensures Check(Ticked(s), Polled(f, s), snapshot)
    ensures RecentSignals(snapshot, s.watch.target, s.watch.windowStart) == Polled(f, s).watch.observed
  {
    hide Silent, Matching, RecentSignals, MatchingIn, Merge, NewOnes;
    var entries := s.watch.world.cor.entries;
    var inc := entries[f.Key()].incident;
    snapshot := [inc];
    assert Visits([f.Key()], entries.Keys) && ListsInOrder(snapshot, [f.Key()], entries);
    SingleRecent(inc, s.watch.target, s.watch.windowStart);
    AllMatching(inc.signals, s.watch.target, s.watch.windowStart);
    MergeLonger(s.watch.observed, inc.signals[1..]);
  }

  lemma ThinTick(c: Config, f: Failing, s: Trial)
    requires Thin(c, f, s) && f.period >= 1
    ensures Wait(c, f, s, Ticked(s))
  {
    hide Ongoing, Due;
  }

  /** The failure shows with a fresh ID. */
  ghost function Shown(c: Config, f: Failing, s: Trial, id: string, rowId: string): Trial {
    var w, sig := s.watch.world, f.Sign(id, s.watch.world.now);
    var accepted := Accepts(c, w.cor, sig, w.now);
    s.(watch := s.watch.(world := Received(c, w, sig, rowId)), used := s.used + {id}, heard := w.now,
       last := if accepted then w.now else s.last,
       count := if accepted && w.now > s.watch.windowStart then s.count + 1 else s.count)
  }

  lemma ShowsArrive(c: Config, f: Failing, s: Trial, id: string, rowId: string)
    requires id !in s.used && rowId !in s.watch.world.cor.table
    ensures Arrive(c, f, s, Shown(c, f, s, id, rowId), f.Sign(id, s.watch.world.now), rowId)
  {
    hide Processed, OpeningRanks, Accepts;
  }

  /** It is dropped within the dedup window. */
  lemma ShownDropped(c: Config, f: Failing, s: Trial, id: string, rowId: string)
    requires Ongoing(f, s) && s.watch.world.now - s.last < c.dedupWindow
    ensures Shown(c, f, s, id, rowId) == s.(used := s.used + {id}, heard := s.watch.world.now)
    ensures Ongoing(f, Shown(c, f, s, id, rowId))
  {
    hide Matching, Written;
    KeyOf(f, f.Sign(id, s.watch.world.now));
  }

  /** And accepted after it. */
  lemma ShownAccepted(c: Config, f: Failing, s: Trial, id: string, rowId: string)
    requires Ongoing(f, s) && s.watch.world.now - s.last >= c.dedupWindow && id !in s.used
    requires s.watch.world.now > s.watch.windowStart
    ensures var s' := Shown(c, f, s, id, rowId);
            && Ongoing(f, s') && s'.last == s'.heard == s'.watch.world.now == s.watch.world.now
            && s'.count == s.count + 1
            && s'.watch == s.watch.(world := s'.watch.world)
  {
    hide Matching, Processed, OpeningRanks, Accepts, Extended, CorrelationKey, Tells;
    var s', entries := Shown(c, f, s, id, rowId), s.watch.world.cor.entries;
    ExtendsIncident(c, f, s, id, rowId);
    ExtendedTells(f, s, s', entries[f.Key()].incident.signals, f.Sign(id, s.watch.world.now));
  }

  lemma ExtendsIncident(c: Config, f: Failing, s: Trial, id: string, rowId: string)
    requires Ongoing(f, s) && s.watch.world.now - s.last >= c.dedupWindow
    ensures var cor, sig, now := s.watch.world.cor, f.Sign(id, s.watch.world.now), s.watch.world.now;
            var entry, entries' := cor.entries[f.Key()], Processed(c, cor, sig, now, rowId).entries;
            && Accepts(c, cor, sig, now)
            && entries'.Keys == {f.Key()} && Open(entries'[f.Key()])
            && entries'[f.Key()].seenReasons == map[f.reason := now]
            && entries'[f.Key()].incident.signals == entry.incident.signals + [sig]
  {
    hide Tells, Upserted;
    KeyOf(f, f.Sign(id, s.watch.world.now));
  }

  lemma ExtendedTells(f: Failing, s: Trial, s': Trial, signals: seq<Signal>, sig: Signal)
    requires Tells(f, s, signals) && f.Shows(sig) && sig.receivedAt > s.watch.windowStart && sig.id !in s.used
    requires s.watch.target == f.Label() && s'.watch == s.watch.(world := s'.watch.world)
    requires s'.used == s.used + {sig.id} && s'.count == s.count + 1
    ensures Tells(f, s', signals + [sig])
  {
    hide Matching;
    IsMatching(f, sig, s.watch.windowStart);
    assert (signals + [sig])[1..] == signals[1..] + [sig];
  }

  lemma OngoingTells(f: Failing, s: Trial)
    requires Ongoing(f, s)
    ensures f.Key() in s.watch.world.cor.entries && s.watch.world.cor.entries[f.Key()].incident.signals != []
  {
    hide Matching;
  }

  /** Whatever comes or does not come after the tick and perhaps the poll of a millisecond, the trial stays
      thin. */
  lemma ThinArrival(c: Config, f: Failing, s: Trial, mid: Trial) returns (end: Trial)
    requires Thin(c, f, s) && f.period >= 1 && Ongoing(f, mid)
    requires mid == s.(watch := s.watch.(world := Ticked(s).watch.world, observed := mid.watch.observed,
                                         polled := mid.watch.polled))
    requires mid.watch.polled <= mid.watch.world.now < mid.watch.polled + mid.watch.gap
    ensures Thin(c, f, end) && (end == mid || Goes(c, f, mid, end))
    ensures end.watch == mid.watch.(world := end.watch.world)
    ensures end.watch.world.now == s.watch.world.now + 1
  {
    hide Goes, Due, Tells, Silent;
    var id := FreshId(mid.used);
    var rowId := FreshId(mid.watch.world.cor.table.Keys);
    var now := mid.watch.world.now;
    DueNext(s.watch.windowStart, s.count, Spacing(c, f));
    DueAtLeast(s.watch.windowStart, s.count, Spacing(c, f));
    if now - s.last < c.dedupWindow {
      end := Shown(c, f, mid, id, rowId);
      ShowsArrive(c, f, mid, id, rowId);
      ShownDropped(c, f, mid, id, rowId);
      ArriveGoes(c, f, mid, end, f.Sign(id, now), rowId);
    } else if now == s.last + Spacing(c, f) {
      end := Shown(c, f, mid, id, rowId);
      ShowsArrive(c, f, mid, id, rowId);
      ShownAccepted(c, f, mid, id, rowId);
      ArriveGoes(c, f, mid, end, f.Sign(id, now), rowId);
    } else {
      end := mid;
    }
    SilenceGoesOn(c, f, s, end);
  }

  lemma ArriveGoes(c: Config, f: Failing, s: Trial, s': Trial, sig: Signal, id: string)
    requires Arrive(c, f, s, s', sig, id)
    ensures Goes(c, f, s, s')
  {
    hide Arrive;
  }

  lemma NextTells(f: Failing, s: Trial)
    requires Ongoing(f, s)
    ensures Ongoing(f, Ticked(s)) && Ongoing(f, Polled(f, s))
  {
    hide Matching;
  }

  lemma SilenceGoesOn(c: Config, f: Failing, s: Trial, s': Trial)
    requires Silent(c, s) && s.last <= s.watch.world.now && s'.watch.world.now == s.watch.world.now + 1
    requires || (s'.last == s.last && s'.heard == s'.watch.world.now < s.last + c.dedupWindow)
             || (s'.last == s'.heard == s'.watch.world.now)
             || (s'.last == s.last && s'.heard == s.heard && s'.watch.world.now >= s.last + c.dedupWindow)
    ensures Silent(c, s')
  {}

  /** The signal for which the remediation ran, accepted in the millisecond in which the window starts. */
  ghost function Opening(c: Config, f: Failing, gap: int): Trial {
    Trial(Watch(Received(c, EmptyWorld(1), f.Sign("first", 1), FIRST_ID), f.Label(), 1, 1, [], 1, gap),
          1, {"first"}, 1, 0)
  }

  lemma OpeningStarts(c: Config, f: Failing, gap: int)
    requires ValidConfig(c)
    ensures Start(c, f, Opening(c, f, gap))
  {
    hide WorldInv, CorrelatorRuns.Next, LifeStep;
    var w, w' := EmptyWorld(1), Received(c, EmptyWorld(1), f.Sign("first", 1), FIRST_ID);
    InitInv(c, w);
    ReceivedIsNext(c, w, f.Sign("first", 1), FIRST_ID);
    LifeStepKeepsInv(c, w, w');
  }

  lemma OpeningThin(c: Config, f: Failing, gap: int)
    requires f.period >= 1 && gap >= 1
    ensures Thin(c, f, Opening(c, f, gap))
  {
    hide Due;
    DueNext(1, 0, Spacing(c, f));
    KeyOf(f, f.Sign("first", 1));
  }

  lemma WatchesAppend(run: seq<Trial>, s: Trial)
    ensures Watches(run + [s]) == Watches(run) + [s.watch]
  {}

  lemma TrialAppend(c: Config, f: Failing, run: seq<Trial>, s: Trial)
    requires IsTrial(c, f, run) && Goes(c, f, run[|run| - 1], s)
    ensures IsTrial(c, f, run + [s])
  {
    hide Start, Goes;
  }

  lemma PollsQuiet(run: seq<Trial>, turns: seq<Turn>, s: Trial)
    requires run != [] && Polls(Watches(run), turns) && s.watch.observed == run[|run| - 1].watch.observed
    ensures Polls(Watches(run + [s]), turns)
  {
    WatchesAppend(run, s);
    assert Watches(run + [s])[..|run|] == Watches(run);
  }

  lemma PollsPoll(run: seq<Trial>, turns: seq<Turn>, s: Trial, snapshot: seq<Incident>, at: int)
    requires run != [] && Polls(Watches(run), turns) && Check(run[|run| - 1], s, snapshot)
    ensures var last := run[|run| - 1].watch;
            Polls(Watches(run + [s]), turns + [Poll(at, RecentSignals(snapshot, last.target, last.windowStart))])
  {
    hide RecentSignals, PollStep, Merge;
    WatchesAppend(run, s);
    assert Watches(run + [s])[..|run|] == Watches(run);
    var last := run[|run| - 1].watch;
    var signals := RecentSignals(snapshot, last.target, last.windowStart);
    assert IsPoll(last, s.watch, signals);
    assert (turns + [Poll(at, signals)])[..|turns|] == turns;
  }

  /** The story so far: a thin trial, of whose polls none has decided anything. */
  ghost predicate Story(c: Config, cfg: VerifierConfig, f: Failing, run: seq<Trial>, turns: seq<Turn>) {
    && run != [] && IsTrial(c, f, run) && Polls(Watches(run), turns) && Judged(cfg, 1, [], turns) == None
    && Thin(c, f, run[|run| - 1]) && run[0].watch.windowStart == run[|run| - 1].watch.windowStart == 1
    && run[0].watch.gap == run[|run| - 1].watch.gap >= 1
    && Regular(turns, run[0].watch.gap) && run[|run| - 1].watch.polled == Due(1, |turns|, run[0].watch.gap)
  }

  /** The ticks of a ticker that has started with the window. */
  ghost predicate Regular(turns: seq<Turn>, gap: int) {
    forall i :: 0 <= i < |turns| ==> turns[i].Poll? && turns[i].at == Due(1, i + 1, gap)
  }

  /** The next millisecond up to its poll, which decides by the number of recurrences so far. */
  lemma PollOn(c: Config, cfg: VerifierConfig, f: Failing, run: seq<Trial>, turns: seq<Turn>)
      returns (longer: seq<Trial>, more: seq<Turn>)
    requires f.period >= 1 && Story(c, cfg, f, run, turns)
    ensures var s := run[|run| - 1];
            && f.Key() in s.watch.world.cor.entries && s.watch.world.cor.entries[f.Key()].incident.signals != []
            && longer == run + [Ticked(s), Polled(f, s)] && IsTrial(c, f, longer) && Polls(Watches(longer), more)
            && more != [] && more[..|more| - 1] == turns
            && more[|more| - 1].Poll? && more[|more| - 1].at == s.watch.world.now + 1
            && EndsInPoll(Ticked(s).watch, Polled(f, s).watch)
            && var judged := Judged(cfg, 1, [], more);
               if s.count > cfg.failureThreshold then judged.Some? && judged.value.outcome == Failed
               else if s.watch.world.now + 1 >= 1 + cfg.window then judged.Some? && judged.value.outcome == Recovered
               else judged == None
  {
    hide IsTrial, Polls, Goes, Wait, PollStep, RecentSignals, Silent, Due, Spacing;
    var s := run[|run| - 1];
    OngoingTells(f, s);
    var now, seen := s.watch.world.now, Polled(f, s).watch.observed;
    ThinTick(c, f, s);
    TrialStep(c, f, run, Ticked(s));
    PollsQuiet(run, turns, Ticked(s));
    var snapshot := ThinPoll(c, f, s);
    var run1 := run + [Ticked(s)];
    CheckGoes(c, f, Ticked(s), Polled(f, s), snapshot);
    TrialAppend(c, f, run1, Polled(f, s));
    PollsPoll(run1, turns, Polled(f, s), snapshot, now + 1);
    longer := run1 + [Polled(f, s)];
    more := turns + [Poll(now + 1, seen)];
    assert longer == run + [Ticked(s), Polled(f, s)];
    TrialIsRun(c, f, longer);
    NextIsJudged(c, cfg, f, longer, turns, Poll(now + 1, seen));
    assert |seen| == s.count;
  }

  /** A millisecond without a poll. */
  lemma TickOn(c: Config, f: Failing, run: seq<Trial>, turns: seq<Turn>)
    requires f.period >= 1 && IsTrial(c, f, run) && Polls(Watches(run), turns) && Thin(c, f, run[|run| - 1])
    ensures var s := run[|run| - 1];
            IsTrial(c, f, run + [Ticked(s)]) && Polls(Watches(run + [Ticked(s)]), turns)
  {
    hide Start, Goes, Polls, Wait, Thin;
    var s := run[|run| - 1];
    ThinTick(c, f, s);
    TrialStep(c, f, run, Ticked(s));
    PollsQuiet(run, turns, Ticked(s));
  }

  lemma TrialStep(c: Config, f: Failing, run: seq<Trial>, s: Trial)
    requires IsTrial(c, f, run) && Wait(c, f, run[|run| - 1], s)
    ensures IsTrial(c, f, run + [s])
  {
    hide Wait, Start;
    TrialAppend(c, f, run, s);
  }

  lemma CheckGoes(c: Config, f: Failing, s: Trial, s': Trial, snapshot: seq<Incident>)
    requires Check(s, s', snapshot)
    ensures Goes(c, f, s, s')
  {
    hide Check;
  }

  /** The poll is judged by what the verifier has accumulated. */
  lemma NextIsJudged(c: Config, cfg: VerifierConfig, f: Failing, run: seq<Trial>, turns: seq<Turn>, t: Turn)
    requires run != [] && Recoveries.IsRun(c, Watches(run)) && Polls(Watches(run), turns + [t]) && t.Poll?
    requires Judged(cfg, 1, [], turns) == None
    ensures var all := run[|run| - 1].watch.observed;
            var judged := Judged(cfg, 1, [], turns + [t]);
            if |all| > cfg.failureThreshold then judged.Some? && judged.value.outcome == Failed
            else if t.at >= 1 + cfg.window then judged.Some? && judged.value.outcome == Recovered
            else judged == None
  {
    hide Merge, Polls, Recoveries.IsRun;
    ObservedIsAccumulated(c, Watches(run), turns + [t]);
    JudgedConcat(cfg, 1, [], turns, [t]);
    AccumulatedAppend([], turns, t);
    assert [t][1..] == [];
  }

  /** Before the window ends, no more than the threshold have been accepted. */
  lemma FewAccepted(c: Config, cfg: VerifierConfig, f: Failing, s: Trial)
    requires Thin(c, f, s) && s.watch.windowStart == 1 && s.watch.world.now < 1 + cfg.window
    requires cfg.failureThreshold >= 0 && cfg.window <= (cfg.failureThreshold + 1) * Spacing(c, f)
    ensures s.count <= cfg.failureThreshold
  {
    hide Ongoing, Silent;
    DueOrdered(1, s.count, cfg.failureThreshold + 1, Spacing(c, f));
  }

  /** Millisecond by millisecond, through most of the window. */
  lemma {:induction false} StoryGoesOn(c: Config, cfg: VerifierConfig, f: Failing, gap: int, k: nat)
      returns (run: seq<Trial>, turns: seq<Turn>)
    requires ValidConfig(c) && f.period >= 1 && gap >= 1 && k < cfg.window
    requires cfg.failureThreshold >= 0 && cfg.window <= (cfg.failureThreshold + 1) * Spacing(c, f)
    ensures Story(c, cfg, f, run, turns) && run[|run| - 1].watch.world.now == 1 + k && run[0].watch.gap == gap
  {
    hide Story, Start, Thin;
    if k == 0 {
      run, turns := [Opening(c, f, gap)], [];
      OpeningStarts(c, f, gap);
      OpeningThin(c, f, gap);
      StoryStarts(c, cfg, f, run[0]);
    } else {
      var run0, turns0 := StoryGoesOn(c, cfg, f, gap, k - 1);
      run, turns := NextMillisecond(c, cfg, f, run0, turns0);
    }
  }

  lemma NextMillisecond(c: Config, cfg: VerifierConfig, f: Failing, run0: seq<Trial>, turns0: seq<Turn>)
      returns (run: seq<Trial>, turns: seq<Turn>)
    requires f.period >= 1 && Story(c, cfg, f, run0, turns0)
    requires run0[|run0| - 1].watch.world.now < cfg.window
    requires cfg.failureThreshold >= 0 && cfg.window <= (cfg.failureThreshold + 1) * Spacing(c, f)
    ensures Story(c, cfg, f, run, turns) && run[0] == run0[0]
    ensures run[|run| - 1].watch.world.now == run0[|run0| - 1].watch.world.now + 1
  {
    hide IsTrial, Polls, Goes, Judged, Due, Ongoing, Silent, Spacing, EndsInPoll;
    var s := run0[|run0| - 1];
    var run1, mid;
    NextTells(f, s);
    if s.watch.world.now + 1 == s.watch.polled + s.watch.gap {
      FewAccepted(c, cfg, f, s);
      run1, turns := PollOn(c, cfg, f, run0, turns0);
      mid := Polled(f, s);
      DueNext(1, |turns0|, s.watch.gap);
      assert turns == turns0 + [turns[|turns0|]];
    } else {
      TickOn(c, f, run0, turns0);
      run1, turns, mid := run0 + [Ticked(s)], turns0, Ticked(s);
    }
    var s' := ThinArrival(c, f, s, mid);
    if s' == mid {
      run := run1;
    } else {
      TrialAppend(c, f, run1, s');
      PollsQuiet(run1, turns, s');
      run := run1 + [s'];
    }
  }

  lemma StoryStarts(c: Config, cfg: VerifierConfig, f: Failing, s: Trial)
    requires Start(c, f, s) && Thin(c, f, s) && s.watch.windowStart == s.watch.polled == 1 && s.watch.gap >= 1
    ensures Story(c, cfg, f, [s], [])
  {
    hide Start, Thin;
    DueNext(1, 0, s.watch.gap);
  }

  /** With a window no longer than threshold + 1 spacings, the verifier can take a failure that never
      stopped for a recovery, polling like clockwork if the window is a multiple of the poll interval. */
  lemma PersistenceGoesUnnoticed(c: Config, cfg: VerifierConfig, f: Failing, gap: int)
      returns (run: seq<Trial>, turns: seq<Turn>)
    requires ValidConfig(c) && f.period >= 1 && gap >= 1 && cfg.window > 0
    requires cfg.failureThreshold >= 0 && cfg.window <= (cfg.failureThreshold + 1) * Spacing(c, f)
    ensures IsTrial(c, f, run) && run[0].watch.gap == gap && Decides(cfg, run, turns)
    ensures Verified(cfg, true, run[0].watch.windowStart, turns).value.outcome == Recovered
    ensures cfg.window % gap == 0 ==> Regular(turns, gap)
  {
    hide Goes, Start, Polls, Thin, Judged, EndsInPoll, Due;
    var run0, turns0 := StoryGoesOn(c, cfg, f, gap, cfg.window - 1);
    var s := run0[|run0| - 1];
    FewAccepted(c, cfg, f, s);
    run, turns := PollOn(c, cfg, f, run0, turns0);
    assert turns == turns0 + [turns[|turns0|]];
    if cfg.window % gap == 0 {
      ThinPolled(c, f, s);
      LastTick(cfg.window, gap, |turns0|);
    }
  }

  lemma ThinPolled(c: Config, f: Failing, s: Trial)
    requires Thin(c, f, s)
    ensures s.watch.polled <= s.watch.world.now < s.watch.polled + s.watch.gap
  {}

  lemma LastTick(window: nat, gap: int, n: nat)
    requires gap >= 1 && window % gap == 0 && Due(1, n, gap) <= window < Due(1, n, gap) + gap
    ensures 1 + window == Due(1, n + 1, gap)
  {
    hide Due;
    var m := MultipleOf(window, gap);
    DueNext(1, n, gap);
    DueNext(1, n + 1, gap);
    DueOrdered(1, n, m, gap);
    DueOrdered(1, m, n + 2, gap);
  }

  lemma MultipleOf(window: nat, gap: int) returns (m: nat)
    requires gap >= 1 && window % gap == 0
    ensures 1 + window == Due(1, m, gap)
  {
    m := window / gap;
  }

  /** The verifier answers FAILED whenever the failure has gone on. */
  ghost predicate AlwaysNoticed(c: Config, cfg: VerifierConfig, f: Failing, gap: int) {
    forall run: seq<Trial>, turns :: IsTrial(c, f, run) && run[0].watch.gap == gap && Decides(cfg, run, turns) ==>
      Verified(cfg, true, run[0].watch.windowStart, turns).value.outcome == Failed
  }

  /** With polls less than a resolve window apart, a failure that goes on is always found FAILED exactly if
      the verification window is longer than threshold + 1 times the spacing that dedup leaves between its
      accepted signals: the dedup window less a millisecond, plus the period of the failure. */
  lemma PersistenceNoticedIff(c: Config, cfg: VerifierConfig, f: Failing, gap: int)
    requires ValidConfig(c) && f.period >= 1 && 1 <= gap < c.resolveWindow
    requires cfg.window > 0 && cfg.failureThreshold >= 0
    ensures AlwaysNoticed(c, cfg, f, gap) <==> cfg.window > (cfg.failureThreshold + 1) * Spacing(c, f)
  {
    hide Goes, Start, Polls, Judged, EndsInPoll;
    if cfg.window > (cfg.failureThreshold + 1) * Spacing(c, f) {
      forall run: seq<Trial>, turns | IsTrial(c, f, run) && run[0].watch.gap == gap && Decides(cfg, run, turns)
        ensures Verified(cfg, true, run[0].watch.windowStart, turns).value.outcome == Failed
      {
        PersistenceForcesFailure(c, cfg, f, run, turns);
      }
    } else {
      var run, turns := PersistenceGoesUnnoticed(c, cfg, f, gap);
    }
  }

  /** The settings that the agent has by default, and how far apart its polls are. */
  const DEFAULT_CORRELATOR := Config(600_000, 60_000)
  const DEFAULT_VERIFIER := VerifierConfig(30_000, 300_000, 15_000, 0)

  /** With the default settings that is so exactly for failures that show at least every four minutes. */
  lemma DefaultsNoticeIff(f: Failing)
    requires f.period >= 1
    ensures AlwaysNoticed(DEFAULT_CORRELATOR, DEFAULT_VERIFIER, f, DEFAULT_VERIFIER.pollInterval)
       <==> f.period <= 240_000
  {
    hide AlwaysNoticed;
    PersistenceNoticedIff(DEFAULT_CORRELATOR, DEFAULT_VERIFIER, f, DEFAULT_VERIFIER.pollInterval);
  }
}
