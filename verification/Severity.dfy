/** Whether an incident's severity is the highest among its signals, over all runs. */
module Severities {
  import opened Contracts
  import opened Stores
  import opened Correlators
  import opened CorrelatorRuns

  /** In every run, an incident's severity ranks as the higher of two: its rank when the incident was last
      opened, and the highest rank among the signals after the opening one. */
  lemma SeverityIsGraded(c: Config, run: seq<World>, i: nat, id: string)
    requires ValidConfig(c) && IsRun(c, run) && i < |run| && id in run[i].cor.table
    ensures id in run[i].openingRank && Graded(run[i].cor.table[id], run[i].openingRank[id])
  {
    hide IsRun, StoreInv, TimeInv, EventInv, QueueInv, KeyedInv, Graded;
    RunKeepsInv(c, run, i);
  }

  /** So it is the highest among the signals exactly if the opening signal ranks as the incident did when it
      was opened, or a later signal ranks at least as high as both. */
  lemma SeverityIsHighestIff(c: Config, run: seq<World>, i: nat, id: string)
    requires ValidConfig(c) && IsRun(c, run) && i < |run| && id in run[i].cor.table
    ensures var row := run[i].cor.table[id];
            && id in run[i].openingRank && row.signals != []
            && var opening, first := run[i].openingRank[id], SeverityRank(row.signals[0].severity);
               (SeverityRank(row.severity) == MaxRank(row.signals) <==>
                  first == opening || MaxRank(row.signals[1..]) >= Higher(opening, first))
  {
    hide IsRun, SeverityRank, MaxRank;
    SeverityIsGraded(c, run, i, id);
    MaxRankSplit(run[i].cor.table[id].signals);
  }

  /** An incident opens with one signal, closes, and reopens with another. It ends with the first severity
      over the second signal: too high if the second ranks lower, too low if it ranks higher, and right
      exactly if they rank alike. */
  lemma ReopeningRun(c: Config, first: Signal, second: Signal) returns (run: seq<World>)
    requires ValidConfig(c) && CorrelationKey(first) == CorrelationKey(second)
    ensures run != [] && IsRun(c, run) && FIRST_ID in run[|run| - 1].cor.table
    ensures var row := run[|run| - 1].cor.table[FIRST_ID];
            && row.signals == [second] && row.severity == first.severity
            && (SeverityRank(row.severity) == MaxRank(row.signals) <==>
                  SeverityRank(second.severity) == SeverityRank(first.severity))
  {
    hide SeverityRank, MaxRank, CorrelationKey, LifeStep;
    run := CloseAndReopen(c, 1, first, second);
    SingleRank(second);
  }

  // In the names of the severities.

  /** Some signal has this severity. */
  ghost predicate Seen(signals: seq<Signal>, severity: string) { exists sig <- signals :: sig.severity == severity }

  lemma {:induction false} MaxRankNames(signals: seq<Signal>)
    ensures MaxRank(signals) == if Seen(signals, "critical") then 2 else if Seen(signals, "warning") then 1 else 0
  {
    if signals != [] {
      var front, last := signals[..|signals| - 1], signals[|signals| - 1];
      MaxRankNames(front);
      assert signals == front + [last];
      assert forall name :: Seen(signals, name) <==> Seen(front, name) || last.severity == name;
    }
  }

  /** An incident that was never reopened is "critical" exactly if some signal is; else it is "warning"
      exactly if some signal is; else it is neither. */
  lemma SeverityNames(c: Config, run: seq<World>, i: nat, id: string)
    requires ValidConfig(c) && IsRun(c, run) && i < |run| && id in run[i].cor.table && id !in run[i].reopened
    ensures var row := run[i].cor.table[id];
            && (row.severity == "critical" <==> Seen(row.signals, "critical"))
            && (row.severity == "warning" <==> Seen(row.signals, "warning") && !Seen(row.signals, "critical"))
  {
    hide IsRun, MaxRank, Seen;
    SeverityIsHighestUntilReopened(c, run, i, id);
    MaxRankNames(run[i].cor.table[id].signals);
  }

  /** A signal that an open incident accepts makes it "critical", or from less than that "warning", or leaves
      its severity alone; a closed incident reopens with the severity that it had; a new one has its signal's. */
  lemma ProcessedSeverity(c: Config, s: State, sig: Signal, now: int, id: string)
    requires Accepts(c, s, sig, now)
    ensures var key := CorrelationKey(sig);
            var after := Processed(c, s, sig, now, id).entries;
            && key in after
            && after[key].incident.severity ==
               if key !in s.entries then sig.severity
               else if !Open(s.entries[key]) then s.entries[key].incident.severity
               else if sig.severity == "critical" then "critical"
               else if sig.severity == "warning" && s.entries[key].incident.severity != "critical" then "warning"
               else s.entries[key].incident.severity
  {
    hide CorrelationKey;
  }
}
