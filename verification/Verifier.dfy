/** The recovery check: it polls the correlator's incidents and judges the signals it sees. */
module Verifiers {
  import opened Contracts
  import opened Correlators

  datatype VerifierConfig = VerifierConfig(graceDelay: int, window: int, pollInterval: int, failureThreshold: int)

  /** New's corrections of out-of-range settings (in milliseconds). */
  function Corrected(cfg: VerifierConfig): VerifierConfig {
    VerifierConfig(if cfg.graceDelay < 0 then 0 else cfg.graceDelay,
           if cfg.window <= 0 then 300_000 else cfg.window,
           if cfg.pollInterval <= 0 then 15_000 else cfg.pollInterval,
           if cfg.failureThreshold < 0 then 0 else cfg.failureThreshold)
  }

  datatype Result = Result(
    outcome: Outcome, escalationNeeded: bool, observed: seq<Signal>, windowStart: int, windowEnd: int)

  /** What the select statement yields: the context is done, or the ticker fires and the source answers. */
  datatype Turn = Cancelled(at: int) | Poll(at: int, signals: seq<Signal>)

  function IncidentTarget(inc: Incident): string {
    if |inc.affectedResources| > 0 then inc.affectedResources[0] else inc.id
  }

  predicate Matching(sig: Signal, target: string, since: int) {
    ResourceLabel(sig) == target && sig.receivedAt > since
  }

  function MatchingIn(signals: seq<Signal>, target: string, since: int): seq<Signal> {
    if signals == [] then []
    else
      MatchingIn(signals[..|signals| - 1], target, since)
      + if Matching(signals[|signals| - 1], target, since) then [signals[|signals| - 1]] else []
  }

  function RecentSignals(incidents: seq<Incident>, target: string, since: int): seq<Signal> {
    if incidents == [] then []
    else
      RecentSignals(incidents[..|incidents| - 1], target, since)
      + MatchingIn(incidents[|incidents| - 1].signals, target, since)
  }

  /** The nested loops of CorrelatorSource.RecentSignalsFor over a snapshot. */
  method RecentSignalsFor(incidents: seq<Incident>, target: string, since: int) returns (out: seq<Signal>)
    ensures out == RecentSignals(incidents, target, since)
  {
    out := [];
    for i := 0 to |incidents|
      invariant out == RecentSignals(incidents[..i], target, since)
    {
      var signals := incidents[i].signals;
      var before := out;
      for j := 0 to |signals|
        invariant out == before + MatchingIn(signals[..j], target, since)
      {
        assert signals[..j + 1][..j] == signals[..j];
        if ResourceLabel(signals[j]) == target && signals[j].receivedAt > since {
          out := out + [signals[j]];
        }
      }
      assert signals[..|signals|] == signals;
      assert incidents[..i + 1][..i] == incidents[..i];
    }
    assert incidents[..|incidents|] == incidents;
  }

  lemma {:induction false} MatchingInMember(signals: seq<Signal>, target: string, since: int, sig: Signal)
    ensures sig in MatchingIn(signals, target, since) <==> sig in signals && Matching(sig, target, since)
  {
    if signals != [] {
      MatchingInMember(signals[..|signals| - 1], target, since, sig);
      assert signals == signals[..|signals| - 1] + [signals[|signals| - 1]];
    }
  }

  /** A poll sees exactly the matching signals that incidents still hold. */
  lemma {:induction false} RecentSignalsMember(incidents: seq<Incident>, target: string, since: int, sig: Signal)
    ensures sig in RecentSignals(incidents, target, since) <==>
              && ResourceLabel(sig) == target && sig.receivedAt > since
              && exists inc :: inc in incidents && sig in inc.signals
  {
    if incidents != [] {
      var front, last := incidents[..|incidents| - 1], incidents[|incidents| - 1];
      RecentSignalsMember(front, target, since, sig);
      MatchingInMember(last.signals, target, since, sig);
      assert incidents == front + [last];
      assert last in incidents;
    }
  }

  ghost function Ids(signals: seq<Signal>): set<string> { set sig <- signals :: sig.id }

  /** The signals of next whose ID no signal of acc has; repetitions inside next stay. */
  function Merge(acc: seq<Signal>, next: seq<Signal>): seq<Signal> {
    acc + NewOnes(acc, next)
  }

  function NewOnes(acc: seq<Signal>, next: seq<Signal>): seq<Signal> {
    if next == [] then []
    else
      var last := next[|next| - 1];
      NewOnes(acc, next[..|next| - 1]) + if exists sig <- acc :: sig.id == last.id then [] else [last]
  }

  method MergeSignals(acc: seq<Signal>, next: seq<Signal>) returns (merged: seq<Signal>)
    ensures merged == Merge(acc, next)
  {
    var seen: set<string> := {};
    for i := 0 to |acc|
      invariant forall id :: id in seen <==> exists k :: 0 <= k < i && acc[k].id == id
    {
      seen := seen + {acc[i].id};
    }
    merged := acc;
    for i := 0 to |next|
      invariant merged == acc + NewOnes(acc, next[..i])
    {
      assert next[..i + 1][..i] == next[..i];
      if next[i].id !in seen {
        assert !exists sig <- acc :: sig.id == next[i].id;
        merged := merged + [next[i]];
      } else {
        assert exists sig <- acc :: sig.id == next[i].id;
      }
    }
    assert next[..|next|] == next;
  }

  lemma {:induction false} NewOnesIds(acc: seq<Signal>, next: seq<Signal>)
    ensures forall sig :: sig in NewOnes(acc, next) <==> sig in next && sig.id !in Ids(acc)
  {
    if next != [] {
      NewOnesIds(acc, next[..|next| - 1]);
      assert next == next[..|next| - 1] + [next[|next| - 1]];
    }
  }

  /** Merging keeps what was there and adds exactly the signals whose ID is new, so it loses no ID. */
  lemma MergeIds(acc: seq<Signal>, next: seq<Signal>)
    ensures Ids(Merge(acc, next)) == Ids(acc) + Ids(next)
    ensures acc <= Merge(acc, next)
    ensures forall sig :: sig in Merge(acc, next)[|acc|..] <==> sig in next && sig.id !in Ids(acc)
  {
    NewOnesIds(acc, next);
  }

  /** At least as many signals as there are IDs. */
  lemma {:induction false} IdsAtMost(signals: seq<Signal>)
    ensures |Ids(signals)| <= |signals|
  {
    if signals == [] {
      assert Ids(signals) == {};
    } else {
      var front, last := signals[..|signals| - 1], signals[|signals| - 1];
      IdsAtMost(front);
      assert signals == front + [last];
      assert Ids(signals) == Ids(front) + {last.id};
    }
  }

  /** The polling loop over the turns that come; None while it is still waiting for the next one. */
  function Judged(cfg: VerifierConfig, start: int, acc: seq<Signal>, turns: seq<Turn>): Option<Result>
    decreases |turns|
  {
    if turns == [] then None
    else
      match turns[0]
      case Cancelled(at) => Some(Result(Inconclusive, true, acc, start, at))
      case Poll(at, signals) =>
        var all := Merge(acc, signals);
        if |all| > cfg.failureThreshold then Some(Result(Failed, true, all, start, at))
        else if at >= start + cfg.window then Some(Result(Recovered, false, all, start, at))
        else Judged(cfg, start, all, turns[1..])
  }

  /** What Verify returns: INCONCLUSIVE if the context is done during the grace delay (`graceOver` false),
      otherwise what the polling loop makes of the turns. */
  function Verified(cfg: VerifierConfig, graceOver: bool, start: int, turns: seq<Turn>): Option<Result> {
    if cfg.graceDelay > 0 && !graceOver then Some(Result(Inconclusive, true, [], 0, 0))
    else Judged(cfg, start, [], turns)
  }

  class Verifier {
    const source: VerifierConfig

    constructor (cfg: VerifierConfig)
      ensures source.graceDelay == (if cfg.graceDelay < 0 then 0 else cfg.graceDelay)
      ensures source.window == (if cfg.window <= 0 then 5 * 60 * 1000 else cfg.window)
      ensures source.pollInterval == (if cfg.pollInterval <= 0 then 15 * 1000 else cfg.pollInterval)
      ensures source.failureThreshold == (if cfg.failureThreshold < 0 then 0 else cfg.failureThreshold)
      ensures source.window > 0 && source.pollInterval > 0 && source.graceDelay >= 0 && source.failureThreshold >= 0
    {
      source := Corrected(cfg);
    }

    method Verify(graceOver: bool, start: int, turns: seq<Turn>) returns (result: Option<Result>)
      ensures result == Verified(source, graceOver, start, turns)
      ensures result.Some? ==> (result.value.escalationNeeded <==> result.value.outcome != Recovered)
      ensures result.Some? && source.graceDelay > 0 && !graceOver ==> result.value.outcome == Inconclusive
    {
      FailsTowardEscalation(source, graceOver, start, turns);
      if source.graceDelay > 0 {
        if !graceOver {
          return Some(Result(Inconclusive, true, [], 0, 0));
        }
      }
      var windowEnd := start + source.window;
      var allObserved := [];
      var i := 0;
      while i < |turns|
        invariant i <= |turns|
        invariant Judged(source, start, [], turns) == Judged(source, start, allObserved, turns[i..])
      {
        match turns[i] {
          case Cancelled(at) =>
            return Some(Result(Inconclusive, true, allObserved, start, at));
          case Poll(at, signals) =>
            allObserved := MergeSignals(allObserved, signals);
            if |allObserved| > source.failureThreshold {
              return Some(Result(Failed, true, allObserved, start, at));
            }
            if at > windowEnd || at == windowEnd {
              return Some(Result(Recovered, false, allObserved, start, at));
            }
        }
        i := i + 1;
      }
      return None;
    }
  }

  /** It fails toward escalation: only a RECOVERED result needs none, and that takes a poll at or after
      the end of the window, with every signal seen by then counted and within the threshold. */
  lemma {:induction false} OnlyQuietWindowsRecover(cfg: VerifierConfig, start: int, acc: seq<Signal>, turns: seq<Turn>)
    requires Judged(cfg, start, acc, turns).Some?
    ensures var r := Judged(cfg, start, acc, turns).value;
            && (r.escalationNeeded <==> r.outcome != Recovered)
            && (r.outcome == Recovered ==> r.windowEnd >= start + cfg.window && |r.observed| <= cfg.failureThreshold)
            && (r.outcome == Failed ==> |r.observed| > cfg.failureThreshold)
            && Ids(acc) <= Ids(r.observed)
    decreases |turns|
  {
    match turns[0]
    case Cancelled(_) =>
    case Poll(at, signals) =>
      var all := Merge(acc, signals);
      MergeIds(acc, signals);
      if |all| <= cfg.failureThreshold && at < start + cfg.window {
        OnlyQuietWindowsRecover(cfg, start, all, turns[1..]);
      }
  }

  /** What Verify returns, for all arguments, fails toward escalation. RECOVERED takes a grace delay that was
      waited for, and a poll at or after the end of the window, at which the verification ends, with no more
      signals than the threshold by then; FAILED takes more of them at a poll; everything else, with a context
      done before, is INCONCLUSIVE. */
  lemma FailsTowardEscalation(cfg: VerifierConfig, graceOver: bool, start: int, turns: seq<Turn>)
    ensures var v := Verified(cfg, graceOver, start, turns);
            && (cfg.graceDelay > 0 && !graceOver ==> v.Some? && v.value.outcome == Inconclusive)
            && (v.Some? ==>
                  var r := v.value;
                  && (r.escalationNeeded <==> r.outcome != Recovered)
                  && (r.outcome != Inconclusive ==>
                        && (cfg.graceDelay > 0 ==> graceOver) && r.windowStart == start
                        && exists t <- turns :: t.Poll? && t.at == r.windowEnd)
                  && (r.outcome == Recovered ==>
                        r.windowEnd >= start + cfg.window && |r.observed| <= cfg.failureThreshold)
                  && (r.outcome == Failed ==> |r.observed| > cfg.failureThreshold)
                  && (r.outcome == Inconclusive ==>
                        (cfg.graceDelay > 0 && !graceOver) || exists t <- turns :: t.Cancelled? && t.at == r.windowEnd))
  {
    hide Merge;
    if (cfg.graceDelay > 0 ==> graceOver) && Judged(cfg, start, [], turns).Some? {
      OnlyQuietWindowsRecover(cfg, start, [], turns);
      DecidedByTurn(cfg, start, [], turns);
    }
  }

  /** The accumulator of the polling loop after some more polls. */
  function Accumulated(acc: seq<Signal>, turns: seq<Turn>): seq<Signal>
    decreases |turns|
  {
    if turns == [] then acc
    else Accumulated(if turns[0].Poll? then Merge(acc, turns[0].signals) else acc, turns[1..])
  }

  /** The turn decides, given what has been accumulated before: more signals than the threshold come first,
      the end of the window second. */
  ghost predicate IsDecisive(cfg: VerifierConfig, start: int, acc: seq<Signal>, t: Turn) {
    t.Cancelled? || |Merge(acc, t.signals)| > cfg.failureThreshold || t.at >= start + cfg.window
  }

  /** The verification ends at the first turn that decides, and as that turn says. */
  lemma {:induction false} FirstTurnDecides(cfg: VerifierConfig, start: int, acc: seq<Signal>, turns: seq<Turn>)
      returns (k: nat)
    ensures k <= |turns| && (Judged(cfg, start, acc, turns) == None <==> k == |turns|)
    ensures forall j :: 0 <= j < k ==> !IsDecisive(cfg, start, Accumulated(acc, turns[..j]), turns[j])
    ensures k < |turns| ==>
              var before, t := Accumulated(acc, turns[..k]), turns[k];
              && IsDecisive(cfg, start, before, t)
              && Judged(cfg, start, acc, turns) == Some(
                   if t.Cancelled? then Result(Inconclusive, true, before, start, t.at)
                   else
                     var all := Merge(before, t.signals);
                     if |all| > cfg.failureThreshold then Result(Failed, true, all, start, t.at)
                     else Result(Recovered, false, all, start, t.at))
    decreases |turns|
  {
    hide Merge;
    if turns == [] {
      k := 0;
    } else if IsDecisive(cfg, start, acc, turns[0]) {
      k := 0;
      assert turns[..0] == [];
    } else {
      var all := Merge(acc, turns[0].signals);
      var m := FirstTurnDecides(cfg, start, all, turns[1..]);
      k := m + 1;
      forall j | 0 < j <= k && j <= |turns|
        ensures Accumulated(acc, turns[..j]) == Accumulated(all, turns[1..][..j - 1])
      {
        assert turns[..j][1..] == turns[1..][..j - 1];
      }
    }
  }

  /** Some turn decides: a poll, or the context being done. */
  lemma {:induction false} DecidedByTurn(cfg: VerifierConfig, start: int, acc: seq<Signal>, turns: seq<Turn>)
    requires Judged(cfg, start, acc, turns).Some?
    ensures var r := Judged(cfg, start, acc, turns).value;
            && r.windowStart == start
            && exists t <- turns :: t.at == r.windowEnd && (t.Cancelled? <==> r.outcome == Inconclusive)
    decreases |turns|
  {
    hide Merge;
    var t := turns[0];
    assert t in turns;
    if t.Poll? {
      var all := Merge(acc, t.signals);
      if |all| <= cfg.failureThreshold && t.at < start + cfg.window {
        DecidedByTurn(cfg, start, all, turns[1..]);
      }
    }
  }

  /** Every ID that a poll up to the deciding one saw is in the result, so if more than the threshold
      were seen, the result is not RECOVERED. */
  lemma {:induction false} EveryPollCounts(cfg: VerifierConfig, start: int, acc: seq<Signal>, turns: seq<Turn>, k: nat)
    requires Judged(cfg, start, acc, turns).Some? && Judged(cfg, start, acc, turns).value.outcome == Recovered
    requires k < |turns| && turns[k].Poll? && turns[k].at <= Judged(cfg, start, acc, turns).value.windowEnd
    requires forall i, j :: 0 <= i < j < |turns| ==> turns[i].at < turns[j].at
    ensures Ids(turns[k].signals) <= Ids(Judged(cfg, start, acc, turns).value.observed)
    ensures |Ids(turns[k].signals)| <= cfg.failureThreshold
    decreases |turns|
  {
    var signals := turns[0].signals;
    var all := Merge(acc, signals);
    var r := Judged(cfg, start, acc, turns).value;
    MergeIds(acc, signals);
    if turns[0].at >= start + cfg.window {
      assert k == 0;
    } else {
      OnlyQuietWindowsRecover(cfg, start, all, turns[1..]);
      if k > 0 {
        EveryPollCounts(cfg, start, all, turns[1..], k - 1);
      }
    }
    OnlyQuietWindowsRecover(cfg, start, acc, turns);
    IdsAtMost(r.observed);
    SubsetIsSmaller(Ids(turns[k].signals), Ids(r.observed));
  }

  lemma SubsetIsSmaller(small: set<string>, large: set<string>)
    requires small <= large
    ensures |small| <= |large|
  {
    assert large == small + (large - small);
  }
}
