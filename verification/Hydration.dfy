/** What a failed load of the open incidents does to the table. */
module Hydrations {
  import opened Contracts
  import opened Stores
  import opened Text
  import opened Correlators
  import opened CorrelatorRuns

  ghost predicate OneOpenRow(table: map<string, Row>) {
    forall id1, id2 :: OpenRow(table, id1) && OpenRow(table, id2) && table[id1].key == table[id2].key ==> id1 == id2
  }

  /** Whatever follows on the world, no correlation key gets a second open row. */
  ghost predicate NeverSplits(c: Config, w: World) {
    forall run: seq<World>, i ::
      run != [] && run[0] == w && Follows(c, run) && 0 <= i < |run| ==> OneOpenRow(run[i].cor.table)
  }

  /** A failed load is harmless for all that may follow exactly if no incident was open. */
  lemma FailedLoadIsHarmlessIff(c: Config, w: World, w': World)
    requires ValidConfig(c) && WorldInv(c, w) && FailedRestart(w, w')
    ensures NeverSplits(c, w') <==> OpenIds(w.cor.table) == {}
  {
    hide WorldInv, Follows;
    if OpenIds(w.cor.table) == {} {
      FailedRestartKeepsInv(c, w, w');
      forall run: seq<World>, i | run != [] && run[0] == w' && Follows(c, run) && 0 <= i < |run|
        ensures OneOpenRow(run[i].cor.table)
      {
        FollowsKeepsInv(c, run, i);
        OneOpenRowInWorld(c, run[i]);
      }
    } else {
      var id :| id in OpenIds(w.cor.table);
      var run := NextSignalSplits(c, w, w', id);
    }
  }

  lemma OneOpenRowInWorld(c: Config, w: World)
    requires WorldInv(c, w)
    ensures OneOpenRow(w.cor.table)
  {
    hide TimeInv, EventInv, QueueInv, SeverityInv, KeyedInv, StoreInv;
    forall id1, id2 | OpenRow(w.cor.table, id1) && OpenRow(w.cor.table, id2)
                      && w.cor.table[id1].key == w.cor.table[id2].key
      ensures id1 == id2
    {
      OneOpenRowPerKey(w.cor, id1, id2);
    }
  }

  /** The next signal of an incident that is still open gives its key a second open row. */
  lemma NextSignalSplits(c: Config, w: World, w': World, id: string) returns (run: seq<World>)
    requires WorldInv(c, w) && FailedRestart(w, w') && OpenRow(w.cor.table, id)
    ensures |run| == 2 && run[0] == w' && Follows(c, run) && !OneOpenRow(run[1].cor.table)
  {
    hide LifeStep, Processed, CorrelationKey;
    var sig := KeySignal(c, w, id);
    var freshId := FreshId(w.cor.table.Keys);
    FailedHydrationSplitsIncident(c, w.cor.table, id, sig, w.now, freshId);
    ReceivedIsNext(c, w', sig, freshId);
    run := [w', Received(c, w', sig, freshId)];
  }

  lemma KeySignal(c: Config, w: World, id: string) returns (sig: Signal)
    requires WorldInv(c, w) && id in w.cor.table
    ensures CorrelationKey(sig) == w.cor.table[id].key
  {
    hide StoreInv, TimeInv, EventInv, QueueInv, CorrelationKey;
    assert Graded(w.cor.table[id], w.openingRank[id]);
    sig := w.cor.table[id].signals[0];
  }

  lemma FailedHydrationSplitsIncident(
      c: Config, table: map<string, Row>, id: string, sig: Signal, now: int, freshId: string)
    requires OpenRow(table, id) && table[id].key == CorrelationKey(sig) && freshId !in table
    ensures var s := Processed(c, State(map[], table, [], []), sig, now, freshId);
            id != freshId && OpenRow(s.table, id) && OpenRow(s.table, freshId)
            && s.table[id].key == s.table[freshId].key
  {
    hide CorrelationKey;
  }

  /** The whole story from an empty table: an incident opens, a load fails, the next signal of the same key
      opens the incident a second time. */
  lemma FailedLoadSplitsRun(c: Config, first: Signal, second: Signal) returns (run: seq<World>)
    requires ValidConfig(c) && CorrelationKey(first) == CorrelationKey(second)
    ensures |run| == 4 && Init(run[0]) && Next(c, run[0], run[1]) && FailedRestart(run[1], run[2])
    ensures Next(c, run[2], run[3])
    ensures !OneOpenRow(run[3].cor.table)
  {
    hide LifeStep, CorrelationKey;
    var w0 := EmptyWorld(1);
    var w1 := Received(c, w0, first, FIRST_ID);
    var w2 := World(State(map[], w1.cor.table, [], []), 1, [], [], {}, w1.reopened, w1.openingRank);
    ReceivedIsNext(c, w0, first, FIRST_ID);
    ReceivedIsNext(c, w2, second, "j");
    FailedHydrationSplitsIncident(c, w1.cor.table, FIRST_ID, second, 1, "j");
    run := [w0, w1, w2, Received(c, w2, second, "j")];
  }
}
