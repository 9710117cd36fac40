/** A verifier observing a live correlator: is a recurrence of the failure ever missed? The correlator
    throws signals away when it reopens an incident, so everything depends on the polls being closer
    together than the resolve window: exactly then nothing is missed. */
module Recoveries {
  import opened Contracts
  import opened Stores
  import opened Correlators
  import opened CorrelatorRuns
  import opened Verifiers

  /** `windowStart` and `target` are fixed; `from` is how many signals the correlator had accepted when
      the window started; `observed` and `polled` are the verifier's accumulator and last poll (or the
      window start), and `gap` is the longest time from one poll to the next. */
  datatype Watch = Watch(
    world: World, target: string, windowStart: int, from: nat, observed: seq<Signal>, polled: int, gap: int)

  /** The window starts in any world that a correlator can reach (they all satisfy WorldInv). */
  ghost predicate Begin(c: Config, s: Watch) {
    && WorldInv(c, s.world)
    && s.windowStart == s.polled == s.world.now && s.observed == [] && s.from == |s.world.accepted|
  }

  ghost predicate Live(c: Config, s: Watch, s': Watch) {
    LifeStep(c, s.world, s'.world) && s' == s.(world := s'.world)
  }

  /** One tick of the polling loop. */
  ghost predicate PollStep(s: Watch, s': Watch, snapshot: seq<Incident>) {
    && s.world.now - s.polled <= s.gap
    && ListsIncidents(snapshot, s.world.cor.entries)
    && s' == s.(observed := Merge(s.observed, RecentSignals(snapshot, s.target, s.windowStart)), polled := s.world.now)
  }

  ghost predicate Next(c: Config, s: Watch, s': Watch) {
    Live(c, s, s') || exists snapshot :: PollStep(s, s', snapshot)
  }

  ghost predicate IsRun(c: Config, run: seq<Watch>) {
    && run != [] && Begin(c, run[0])
    && forall i :: 0 < i < |run| ==> Next(c, run[i - 1], run[i])
  }

  /** A recurrence: a signal about the target, received and accepted after the window started. */
  ghost predicate Recurrence(s: Watch, i: nat) {
    s.from <= i < |s.world.accepted| && Matching(s.world.accepted[i].sig, s.target, s.windowStart)
  }

  ghost predicate Present(s: Watch, a: Acceptance) {
    a.key in s.world.cor.entries && a.sig in s.world.cor.entries[a.key].incident.signals
  }

  /** Each recurrence has been observed, or was accepted since the last poll and is still there for the
      next one, unless that is overdue. */
  ghost predicate Accounted(s: Watch, i: nat)
    requires i < |s.world.accepted|
  {
    var a := s.world.accepted[i];
    || a.sig.id in Ids(s.observed)
    || (s.polled <= a.at && (s.world.now - s.polled <= s.gap ==> Present(s, a)))
  }

  ghost predicate Inv(c: Config, s: Watch) {
    && WorldInv(c, s.world) && s.from <= |s.world.accepted| && s.polled <= s.world.now && s.gap < c.resolveWindow
    && forall i: nat :: Recurrence(s, i) ==> Accounted(s, i)
  }

  /** Process only ever drops a signal by reopening a closed incident. */
  lemma ReceiveKeepsPresent(c: Config, w: World, w': World, sig: Signal, id: string, a: Acceptance)
    requires Receive(c, w, w', sig, id) && a.key in w.cor.entries
    requires a.sig in w.cor.entries[a.key].incident.signals
    requires CorrelationKey(sig) == a.key ==> Open(w.cor.entries[a.key])
    ensures a.key in w'.cor.entries && a.sig in w'.cor.entries[a.key].incident.signals
  {}

  lemma ReceiveAddsPresent(c: Config, w: World, w': World, sig: Signal, id: string)
    requires Receive(c, w, w', sig, id) && Accepts(c, w.cor, sig, w.now)
    ensures CorrelationKey(sig) in w'.cor.entries && sig in w'.cor.entries[CorrelationKey(sig)].incident.signals
  {}

  lemma {:induction false} ResolveKeepsSignals(c: Config, s: State, order: seq<string>, now: int, key: string)
    requires key in s.entries
    ensures key in ResolvedAll(c, s, order, now).entries
    ensures ResolvedAll(c, s, order, now).entries[key].incident.signals == s.entries[key].incident.signals
    decreases |order|
  {
    if order != [] {
      ResolveKeepsSignals(c, s, order[..|order| - 1], now, key);
    }
  }

  lemma ReceiveKeepsInv(c: Config, s: Watch, s': Watch, sig: Signal, id: string)
    requires ValidConfig(c) && Inv(c, s) && Live(c, s, s') && Receive(c, s.world, s'.world, sig, id)
    ensures Inv(c, s')
  {
    hide Processed, WorldInv;
    LifeStepKeepsInv(c, s.world, s'.world);
    var w, w' := s.world, s'.world;
    forall i: nat | Recurrence(s', i)
      ensures Accounted(s', i)
    {
      if i < |w.accepted| {
        assert Recurrence(s, i) && Accounted(s, i);
        var a := w.accepted[i];
        if a.sig.id !in Ids(s.observed) && w.now - s.polled <= s.gap {
          NotReopened(c, s, a);
          ReceiveKeepsPresent(c, w, w', sig, id, a);
        }
      } else {
        ReceiveAddsPresent(c, w, w', sig, id);
      }
    }
  }

  /** An incident that has closed since a recurrence was accepted has waited a whole resolve window. */
  lemma NotReopened(c: Config, s: Watch, a: Acceptance)
    requires WorldInv(c, s.world) && a in s.world.accepted && s.polled <= a.at
    requires s.world.now - s.polled < c.resolveWindow
    ensures a.key in s.world.cor.entries && Open(s.world.cor.entries[a.key])
  {
    var i :| 0 <= i < |s.world.accepted| && s.world.accepted[i] == a;
    assert Remembers(c, s.world.cor.entries[a.key], a);
    assert Timely(c, s.world.cor.entries[a.key], s.world.now);
  }

  lemma LiveKeepsInv(c: Config, s: Watch, s': Watch)
    requires ValidConfig(c) && Inv(c, s) && Live(c, s, s')
    ensures Inv(c, s')
  {
    hide Processed, WorldInv, ResolvedAll;
    var w, w' := s.world, s'.world;
    if sig, id :| Receive(c, w, w', sig, id) {
      ReceiveKeepsInv(c, s, s', sig, id);
    } else {
      LifeStepKeepsInv(c, w, w');
      forall i: nat | Recurrence(s', i)
        ensures Accounted(s', i)
      {
        assert Recurrence(s, i) && Accounted(s, i);
        if order :| Resolve(c, w, w', order) {
          if w.accepted[i].key in w.cor.entries {
            ResolveKeepsSignals(c, w.cor, order, w.now, w.accepted[i].key);
          }
        }
      }
    }
  }

  lemma PollKeepsInv(c: Config, s: Watch, s': Watch, snapshot: seq<Incident>)
    requires Inv(c, s) && PollStep(s, s', snapshot)
    ensures Inv(c, s')
    ensures forall i: nat :: Recurrence(s', i) ==> s'.world.accepted[i].sig.id in Ids(s'.observed)
  {
    hide WorldInv, RecentSignals;
    var seen := RecentSignals(snapshot, s.target, s.windowStart);
    ListedIncidents(snapshot, s.world.cor.entries);
    MergeIds(s.observed, seen);
    forall i: nat | Recurrence(s', i)
      ensures s'.world.accepted[i].sig.id in Ids(s'.observed)
    {
      assert Recurrence(s, i) && Accounted(s, i);
      var a := s.world.accepted[i];
      if a.sig.id !in Ids(s.observed) {
        assert s.world.cor.entries[a.key].incident in snapshot;
        RecentSignalsMember(snapshot, s.target, s.windowStart, a.sig);
      }
    }
  }

  lemma {:induction false} RunKeepsInv(c: Config, run: seq<Watch>, i: nat)
    requires ValidConfig(c) && IsRun(c, run) && run[0].gap < c.resolveWindow && i < |run|
    ensures Inv(c, run[i])
  {
    hide Inv, Live, PollStep;
    if i == 0 {
      BeginInv(c, run[0]);
    } else {
      RunKeepsInv(c, run, i - 1);
      assert Next(c, run[i - 1], run[i]);
      if Live(c, run[i - 1], run[i]) {
        LiveKeepsInv(c, run[i - 1], run[i]);
      } else {
        var snapshot :| PollStep(run[i - 1], run[i], snapshot);
        PollKeepsInv(c, run[i - 1], run[i], snapshot);
      }
    }
  }

  lemma BeginInv(c: Config, s: Watch)
    requires Begin(c, s) && s.gap < c.resolveWindow
    ensures Inv(c, s)
  {
    hide WorldInv;
  }

  /** The IDs of all recurrences so far. */
  ghost function RecurrenceIds(s: Watch): set<string> {
    set i: nat | s.from <= i < |s.world.accepted| && Recurrence(s, i) :: s.world.accepted[i].sig.id
  }

  /** No recurrence escapes a poll, not even one that a later reopen has thrown away: after any poll of
      any run the verifier has observed the ID of every recurrence accepted before it. */
  lemma NoRecurrenceEscapes(c: Config, run: seq<Watch>, i: nat, snapshot: seq<Incident>)
    requires ValidConfig(c) && IsRun(c, run) && run[0].gap < c.resolveWindow
    requires 0 < i < |run| && PollStep(run[i - 1], run[i], snapshot)
    ensures RecurrenceIds(run[i]) <= Ids(run[i].observed)
    ensures |run[i].observed| >= |RecurrenceIds(run[i])|
  {
    hide Inv, PollStep, CorrelatorRuns.LifeStep;
    RunKeepsInv(c, run, i - 1);
    PollKeepsInv(c, run[i - 1], run[i], snapshot);
    IdsAtMost(run[i].observed);
    SubsetIsSmaller(RecurrenceIds(run[i]), Ids(run[i].observed));
  }

  // The result of Verify.

  ghost predicate IsPoll(s: Watch, s': Watch, signals: seq<Signal>) {
    exists snapshot :: PollStep(s, s', snapshot) && signals == RecentSignals(snapshot, s.target, s.windowStart)
  }

  /** The turns are the polls of the run, in order, whatever time their ticks carry. */
  ghost predicate Polls(run: seq<Watch>, turns: seq<Turn>)
    decreases |run|
  {
    if |run| <= 1 then turns == []
    else
      var n, k := |run| - 1, |turns| - 1;
      || (run[n].observed == run[n - 1].observed && Polls(run[..n], turns))
      || (k >= 0 && turns[k].Poll? && IsPoll(run[n - 1], run[n], turns[k].signals) && Polls(run[..n], turns[..k]))
  }

  lemma {:induction false} AccumulatedAppend(acc: seq<Signal>, turns: seq<Turn>, t: Turn)
    requires t.Poll?
    ensures Accumulated(acc, turns + [t]) == Merge(Accumulated(acc, turns), t.signals)
    decreases |turns|
  {
    hide Merge;
    if turns == [] {
      assert [] + [t] == [t] && [t][1..] == [];
    } else {
      assert (turns + [t])[1..] == turns[1..] + [t];
      AccumulatedAppend(if turns[0].Poll? then Merge(acc, turns[0].signals) else acc, turns[1..], t);
    }
  }

  /** What the verifier of a run has observed is what its polling loop accumulates. */
  lemma {:induction false} ObservedIsAccumulated(c: Config, run: seq<Watch>, turns: seq<Turn>)
    requires IsRun(c, run) && Polls(run, turns)
    ensures run[|run| - 1].observed == Accumulated([], turns)
    ensures forall t <- turns :: t.Poll?
    decreases |run|
  {
    hide Begin, Next, Merge, RecentSignals, ListsIncidents;
    if |run| == 1 {
      assert Begin(c, run[0]);
      BeginsEmpty(c, run[0]);
    } else {
      var n := |run| - 1;
      assert IsRun(c, run[..n]);
      if run[n].observed == run[n - 1].observed && Polls(run[..n], turns) {
        ObservedIsAccumulated(c, run[..n], turns);
      } else {
        var k := |turns| - 1;
        ObservedIsAccumulated(c, run[..n], turns[..k]);
        assert turns == turns[..k] + [turns[k]];
        AccumulatedAppend([], turns[..k], turns[k]);
      }
    }
  }

  lemma BeginsEmpty(c: Config, s: Watch)
    requires Begin(c, s)
    ensures s.observed == []
  {
    hide WorldInv;
  }

  /** Turns that decide nothing only accumulate. */
  lemma {:induction false} JudgedConcat(
      cfg: VerifierConfig, start: int, acc: seq<Signal>, turns: seq<Turn>, more: seq<Turn>)
    requires Judged(cfg, start, acc, turns) == None
    ensures Judged(cfg, start, acc, turns + more) == Judged(cfg, start, Accumulated(acc, turns), more)
    decreases |turns|
  {
    hide Merge;
    if turns == [] {
      assert turns + more == more;
    } else {
      assert (turns + more)[1..] == turns[1..] + more;
      JudgedConcat(cfg, start, Merge(acc, turns[0].signals), turns[1..], more);
    }
  }

  ghost predicate EndsInPoll(s: Watch, s': Watch) {
    exists snapshot :: PollStep(s, s', snapshot)
  }

  /** The verification of a run is decided by the run's last step, a poll. */
  ghost predicate DecidedByLast(cfg: VerifierConfig, run: seq<Watch>, turns: seq<Turn>) {
    && turns != [] && Polls(run, turns)
    && |run| > 1 && EndsInPoll(run[|run| - 2], run[|run| - 1])
    && Verified(cfg, true, run[0].windowStart, turns[..|turns| - 1]) == None
    && Verified(cfg, true, run[0].windowStart, turns).Some?
  }

  /** The result of Verify has observed every recurrence that the correlator accepted before the deciding
      poll. So it is RECOVERED only if these are no more than the threshold, and FAILED if they are more;
      with threshold 0, one accepted recurrence forces FAILED. */
  lemma RecurrenceForcesFailure(c: Config, cfg: VerifierConfig, run: seq<Watch>, turns: seq<Turn>)
    requires ValidConfig(c) && IsRun(c, run) && run[0].gap < c.resolveWindow && DecidedByLast(cfg, run, turns)
    ensures var r := Verified(cfg, true, run[0].windowStart, turns).value;
            var recurrences := RecurrenceIds(run[|run| - 1]);
            && r.observed == run[|run| - 1].observed
            && recurrences <= Ids(r.observed)
            && (r.outcome == Recovered ==> |recurrences| <= cfg.failureThreshold)
            && (|recurrences| > cfg.failureThreshold ==> r.outcome == Failed && r.escalationNeeded)
  {
    hide IsRun, RecurrenceIds, Polls, Merge, PollStep;
    var n, k := |run| - 1, |turns| - 1;
    var snapshot :| PollStep(run[n - 1], run[n], snapshot);
    NoRecurrenceEscapes(c, run, n, snapshot);
    ObservedIsAccumulated(c, run, turns);
    assert turns == turns[..k] + [turns[k]];
    JudgedConcat(cfg, run[0].windowStart, [], turns[..k], [turns[k]]);
    AccumulatedAppend([], turns[..k], turns[k]);
    assert turns[k] in turns;
  }

  // How close the polls have to be.

  ghost predicate PollAt(run: seq<Watch>, i: int, snapshot: seq<Incident>) {
    0 < i < |run| && PollStep(run[i - 1], run[i], snapshot)
  }

  /** No signal is processed before the ingestor received it. */
  ghost predicate Causal(w: World) { forall a <- w.accepted :: a.sig.receivedAt <= a.at }

  ghost predicate NoneEscapes(c: Config, gap: int) {
    forall run: seq<Watch>, i, snapshot ::
      PollAt(run, i, snapshot) && IsRun(c, run) && run[0].gap == gap && Causal(run[i].world) ==>
        RecurrenceIds(run[i]) <= Ids(run[i].observed)
  }

  /** With polls at most `gap` apart, no recurrence escapes in any run exactly if the gap is shorter than the
      resolve window. */
  lemma PollsMissNothingIff(c: Config, gap: int)
    requires ValidConfig(c)
    ensures NoneEscapes(c, gap) <==> gap < c.resolveWindow
  {
    hide IsRun, RecurrenceIds, PollStep;
    if gap < c.resolveWindow {
      forall run: seq<Watch>, i, snapshot |
        PollAt(run, i, snapshot) && IsRun(c, run) && run[0].gap == gap && Causal(run[i].world)
        ensures RecurrenceIds(run[i]) <= Ids(run[i].observed)
      {
        NoRecurrenceEscapes(c, run, i, snapshot);
      }
    } else {
      var run, snapshot := RecurrenceEscapes(c, gap);
      assert PollAt(run, 7, snapshot);
    }
  }

  /** Right after a poll the failure recurs; its incident closes and reopens for the next recurrence, each
      processed when it is received: the next poll sees the second only. */
  lemma RecurrenceEscapes(c: Config, gap: int) returns (run: seq<Watch>, snapshot: seq<Incident>)
    requires ValidConfig(c) && gap >= c.resolveWindow
    ensures |run| == 8 && IsRun(c, run) && run[0].gap == gap && PollStep(run[6], run[7], snapshot)
    ensures Causal(run[7].world)
    ensures !(RecurrenceIds(run[7]) <= Ids(run[7].observed))
  {
    hide LifeStep, WorldInv, PollStep, RecentSignals;
    var first, second := Failure("a", 2), Failure("b", 2 + c.resolveWindow);
    var worlds := CloseAndReopen(c, 2, first, second);
    var key := CorrelationKey(first);
    var start := Watch(EmptyWorld(1), key, 1, 0, [], 1, gap);
    var ticked := start.(world := EmptyWorld(2));
    InitInv(c, EmptyWorld(1));
    TickIsLife(c, EmptyWorld(1), EmptyWorld(2));
    EmptyPoll(ticked);
    var after := seq(5, i requires 0 <= i < 5 => Watch(worlds[i], key, 1, 0, [], 2, gap));
    var s';
    snapshot, s' := PollSeesSecond(after[4], key, second);
    run := [start, ticked] + after + [s'];
    assert Live(c, run[0], run[1]) && PollStep(run[1], run[2], []);
    assert forall i :: 2 < i < 7 ==> Live(c, run[i - 1], run[i]);
    assert PollStep(run[6], run[7], snapshot);
    assert Recurrence(s', 0) && s'.world.accepted[0].sig.id == "a";
  }

  /** The poll of an incident that holds the second signal only. */
  lemma PollSeesSecond(s: Watch, key: string, second: Signal) returns (snapshot: seq<Incident>, after: Watch)
    requires s.world.cor.entries.Keys == {key} && s.world.cor.entries[key].incident.signals == [second]
    requires second.id == "b" && s.observed == [] && s.world.now - s.polled <= s.gap
    ensures PollStep(s, after, snapshot) && after == s.(observed := after.observed, polled := s.world.now)
    ensures "a" !in Ids(after.observed)
  {
    hide RecentSignals;
    snapshot := [s.world.cor.entries[key].incident];
    assert Visits([key], s.world.cor.entries.Keys) && ListsInOrder(snapshot, [key], s.world.cor.entries);
    var seen := RecentSignals(snapshot, s.target, s.windowStart);
    after := s.(observed := Merge([], seen), polled := s.world.now);
    MergeIds([], seen);
    forall sig <- seen
      ensures sig == second
    {
      RecentSignalsMember(snapshot, s.target, s.windowStart, sig);
    }
  }

  lemma TickIsLife(c: Config, w: World, w': World)
    requires Tick(w, w')
    ensures LifeStep(c, w, w')
  {}

  /** Polling a correlator without incidents. */
  lemma EmptyPoll(s: Watch)
    requires s.world.cor.entries == map[] && s.world.now - s.polled <= s.gap
    ensures PollStep(s, s.(polled := s.world.now), [])
  {
    assert Visits([], s.world.cor.entries.Keys) && ListsInOrder([], [], s.world.cor.entries);
    assert Merge(s.observed, []) == s.observed;
  }
}
