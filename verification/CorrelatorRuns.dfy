/** Everything that can happen to a correlator and its table over any number of process lives. */
module CorrelatorRuns {
  import opened Contracts
  import opened Stores
  import opened Correlators

  /** A signal that Process kept, in this process life. */
  datatype Acceptance = Acceptance(key: string, sig: Signal, at: int)

  /** Beside the correlator and the clock: the acceptances of this life, the events its consumer has
      received, the incidents it was hydrated with, the incidents ever reopened, and the rank of each
      incident's severity when it was last opened. */
  datatype World = World(
    cor: State, now: int, accepted: seq<Acceptance>, delivered: seq<Event>, born: set<string>, reopened: set<string>,
    openingRank: map<string, nat>)

  ghost predicate ValidConfig(c: Config) { c.resolveWindow > 0 }

  /** The clock runs after the epoch, so that 0 in `resolved_at` means open. */
  ghost predicate Init(w: World) {
    w == World(State(map[], map[], [], []), w.now, [], [], {}, {}, map[]) && w.now > 0
  }

  ghost predicate Tick(w: World, w': World) {
    w.now <= w'.now && w' == w.(now := w'.now)
  }

  /** Process, with a fresh ID at hand. */
  ghost predicate Receive(c: Config, w: World, w': World, sig: Signal, id: string) {
    var key := CorrelationKey(sig);
    && id !in w.cor.table
    && w' == w.(cor := Processed(c, w.cor, sig, w.now, id),
                accepted := if Accepts(c, w.cor, sig, w.now) then w.accepted + [Acceptance(key, sig, w.now)]
                            else w.accepted,
                reopened := if key in w.cor.entries && !Open(w.cor.entries[key])
                            then w.reopened + {w.cor.entries[key].incident.id} else w.reopened,
                openingRank := OpeningRanks(w, sig, id))
  }

  /** A new incident opens with the severity of its signal, a reopened one with the severity it had. */
  ghost function OpeningRanks(w: World, sig: Signal, id: string): map<string, nat> {
    var key := CorrelationKey(sig);
    if key !in w.cor.entries then w.openingRank[id := SeverityRank(sig.severity)]
    else if Open(w.cor.entries[key]) then w.openingRank
    else w.openingRank[w.cor.entries[key].incident.id := SeverityRank(w.cor.entries[key].incident.severity)]
  }

  ghost predicate Resolve(c: Config, w: World, w': World, order: seq<string>) {
    Visits(order, w.cor.entries.Keys) && w' == w.(cor := ResolvedAll(c, w.cor, order, w.now))
  }

  /** The consumer takes an event from the channel. */
  ghost predicate Consume(w: World, w': World) {
    && w.cor.channel != []
    && w' == w.(cor := w.cor.(channel := w.cor.channel[1..]), delivered := w.delivered + [w.cor.channel[0]])
  }

  ghost function OpenIds(table: map<string, Row>): set<string> {
    set id <- table | OpenRow(table, id)
  }

  /** A crash, and a new process that hydrates before its first signal. */
  ghost predicate Restart(w: World, w': World, records: seq<IncidentRecord>) {
    && ListsOpenRows(records, w.cor.table)
    && w' == World(State(Hydrated(map[], records), w.cor.table, [], []), w.now, [], [],
                   OpenIds(w.cor.table), w.reopened, w.openingRank)
  }

  /** The new process fails to load the open incidents and starts empty. */
  ghost predicate FailedRestart(w: World, w': World) {
    w' == World(State(map[], w.cor.table, [], []), w.now, [], [], {}, w.reopened, w.openingRank)
  }

  /** What happens within one process life. */
  ghost predicate LifeStep(c: Config, w: World, w': World) {
    || Tick(w, w')
    || (exists sig, id :: Receive(c, w, w', sig, id))
    || (exists order :: Resolve(c, w, w', order))
    || Consume(w, w')
  }

  /** A load may fail if nothing is open; see FailedLoadIsHarmlessIff for the others. */
  ghost predicate Next(c: Config, w: World, w': World) {
    || LifeStep(c, w, w')
    || (exists records :: Restart(w, w', records))
    || (OpenIds(w.cor.table) == {} && FailedRestart(w, w'))
  }

  /** What may follow on a world. */
  ghost predicate Follows(c: Config, run: seq<World>) {
    forall i :: 0 < i < |run| ==> Next(c, run[i - 1], run[i])
  }

  ghost predicate IsRun(c: Config, run: seq<World>) {
    run != [] && Init(run[0]) && Follows(c, run)
  }

  // Entries and rows.

  /** Agreement on everything but OpenedAt and the dedup state. */
  ghost predicate Agrees(table: map<string, Row>, key: string, e: Entry) {
    var inc := e.incident;
    && inc.id in table
    && table[inc.id] == Row(key, inc.severity, table[inc.id].openedAt, inc.updatedAt, ResolvedCode(inc.resolvedAt),
                            inc.signals, inc.affectedResources)
    && table[inc.id].openedAt <= inc.openedAt
    && (inc.resolvedAt.Some? ==> inc.resolvedAt.value > 0)
  }

  ghost predicate StoreInv(s: State) {
    && (forall key <- s.entries :: Agrees(s.table, key, s.entries[key]))
    && (forall id :: OpenRow(s.table, id) ==> HasEntry(s, id))
  }

  /** The open row is the row of its key's entry. */
  ghost predicate HasEntry(s: State, id: string)
    requires id in s.table
  {
    s.table[id].key in s.entries && s.entries[s.table[id].key].incident.id == id
  }

  /** What a write must respect: an existing entry keeps its incident, a new one gets a fresh ID. */
  ghost predicate MayWrite(s: State, key: string, e: Entry) {
    && (e.incident.resolvedAt.Some? ==> e.incident.resolvedAt.value > 0)
    && (if key in s.entries
        then e.incident.id == s.entries[key].incident.id && s.entries[key].incident.openedAt <= e.incident.openedAt
        else e.incident.id !in s.table)
  }

  lemma WriteKeepsStoreInv(s: State, key: string, e: Entry, kind: EventKind)
    requires StoreInv(s) && MayWrite(s, key, e)
    ensures StoreInv(Written(s, key, e, kind))
  {
    var s' := Written(s, key, e, kind);
    forall k <- s'.entries
      ensures Agrees(s'.table, k, s'.entries[k])
    {
      if k != key {
        assert Agrees(s.table, k, s.entries[k]);
      }
    }
    forall id | OpenRow(s'.table, id)
      ensures HasEntry(s', id)
    {
      if id != e.incident.id {
        assert OpenRow(s.table, id) && HasEntry(s, id);
      }
    }
  }

  /** At most one open row per correlation key. */
  lemma OneOpenRowPerKey(s: State, id1: string, id2: string)
    requires StoreInv(s) && OpenRow(s.table, id1) && OpenRow(s.table, id2)
    requires s.table[id1].key == s.table[id2].key
    ensures id1 == id2
  {
    assert HasEntry(s, id1) && HasEntry(s, id2);
  }

  /** Hydration in any order: every key of the result comes from the one record with that key. */
  lemma {:induction false} HydratedIsLookup(records: seq<IncidentRecord>, key: string)
    requires forall i, j :: 0 <= i < j < |records| ==> records[i].key != records[j].key
    ensures key in Hydrated(map[], records) <==> exists i :: 0 <= i < |records| && records[i].key == key
    ensures forall i :: 0 <= i < |records| && records[i].key == key ==>
              key in Hydrated(map[], records) && Hydrated(map[], records)[key] == Entry(records[i].incident, map[])
  {
    if records != [] {
      HydratedIsLookup(records[..|records| - 1], key);
    }
  }

  /** Hydration rebuilds exactly the open incidents: no record overwrites another, each comes back under
      its key as it was, with the row's older opening time and without its dedup state. */
  lemma RestartRebuildsOpenIncidents(w: World, w': World, records: seq<IncidentRecord>)
    requires StoreInv(w.cor) && Restart(w, w', records)
    ensures forall key :: key in w'.cor.entries <==> key in w.cor.entries && Open(w.cor.entries[key])
    ensures forall key <- w'.cor.entries ::
              w'.cor.entries[key] ==
              Entry(w.cor.entries[key].incident.(openedAt := w.cor.table[w.cor.entries[key].incident.id].openedAt),
                    map[])
    ensures StoreInv(w'.cor)
  {
    var s, s' := w.cor, w'.cor;
    DistinctKeys(s, records);
    forall key
      ensures key in s'.entries ==> key in s.entries && Open(s.entries[key]) && s'.entries[key] == Restored(s, key)
      ensures key in s.entries && Open(s.entries[key]) ==> key in s'.entries
    {
      RestoredEntry(s, records, key);
    }
    forall id | OpenRow(s'.table, id)
      ensures HasEntry(s', id)
    {
      assert HasEntry(s, id);
    }
  }

  ghost function Restored(s: State, key: string): Entry
    requires key in s.entries && s.entries[key].incident.id in s.table
  {
    Entry(s.entries[key].incident.(openedAt := s.table[s.entries[key].incident.id].openedAt), map[])
  }

  lemma DistinctKeys(s: State, records: seq<IncidentRecord>)
    requires StoreInv(s) && ListsOpenRows(records, s.table)
    ensures forall i, j :: 0 <= i < j < |records| ==> records[i].key != records[j].key
  {
    forall i, j | 0 <= i < j < |records|
      ensures records[i].key != records[j].key
    {
      if records[i].key == records[j].key {
        OneOpenRowPerKey(s, records[i].incident.id, records[j].incident.id);
      }
    }
  }

  lemma RestoredEntry(s: State, records: seq<IncidentRecord>, key: string)
    requires StoreInv(s) && ListsOpenRows(records, s.table)
    requires forall i, j :: 0 <= i < j < |records| ==> records[i].key != records[j].key
    ensures key in Hydrated(map[], records) <==> key in s.entries && Open(s.entries[key])
    ensures key in Hydrated(map[], records) ==>
              Agrees(s.table, key, s.entries[key]) && Hydrated(map[], records)[key] == Restored(s, key)
  {
    HydratedIsLookup(records, key);
    if key in s.entries && Open(s.entries[key]) {
      var id := s.entries[key].incident.id;
      assert Agrees(s.table, key, s.entries[key]);
      assert OpenRow(s.table, id);
      var i :| 0 <= i < |records| && records[i] == RecordOf(id, s.table[id]);
    }
    if i :| 0 <= i < |records| && records[i].key == key {
      assert HasEntry(s, records[i].incident.id);
      assert Agrees(s.table, key, s.entries[key]);
    }
  }

  // Times and dedup.

  ghost predicate Timely(c: Config, e: Entry, now: int) {
    var inc := e.incident;
    && inc.openedAt <= inc.updatedAt <= now
    && (inc.resolvedAt.Some? ==> inc.updatedAt + c.resolveWindow <= inc.resolvedAt.value <= now)
    && (forall reason <- e.seenReasons :: e.seenReasons[reason] <= inc.updatedAt)
  }

  /** An accepted signal of an open entry is either remembered for dedup, or so old that a whole
      resolve window passed before the entry was reopened. */
  ghost predicate Remembers(c: Config, e: Entry, a: Acceptance) {
    && a.at <= e.incident.updatedAt
    && (Open(e) ==>
          || (a.sig.reason in e.seenReasons && a.at <= e.seenReasons[a.sig.reason])
          || a.at + c.resolveWindow <= e.incident.openedAt)
  }

  ghost predicate TimeInv(c: Config, w: World) {
    && w.now > 0
    && (forall key <- w.cor.entries :: Timely(c, w.cor.entries[key], w.now))
    && (forall i :: 0 <= i < |w.accepted| ==>
          var a := w.accepted[i];
          a.key in w.cor.entries && a.key == CorrelationKey(a.sig) && Remembers(c, w.cor.entries[a.key], a))
  }

  ghost predicate SameReason(a: Acceptance, b: Acceptance) { a.key == b.key && a.sig.reason == b.sig.reason }

  /** Accepted signals with the same key and reason are at least a dedup window apart. */
  ghost predicate DedupSpaced(c: Config, accepted: seq<Acceptance>) {
    forall i, j :: 0 <= i < j < |accepted| && SameReason(accepted[i], accepted[j]) ==>
      accepted[j].at - accepted[i].at >= c.dedupWindow
  }

  lemma ReceiveKeepsTimes(c: Config, w: World, w': World, sig: Signal, id: string)
    requires ValidConfig(c) && TimeInv(c, w) && Receive(c, w, w', sig, id)
    ensures TimeInv(c, w')
  {
    hide CorrelationKey, UpsertedRow, SeverityRank, ResourceLabel, OpeningRanks;
  }

  lemma ReceiveKeepsSpacing(c: Config, w: World, w': World, sig: Signal, id: string)
    requires ValidConfig(c) && c.resolveWindow >= c.dedupWindow
    requires TimeInv(c, w) && DedupSpaced(c, w.accepted) && Receive(c, w, w', sig, id)
    ensures DedupSpaced(c, w'.accepted)
  {
    if Accepts(c, w.cor, sig, w.now) {
      var latest := Acceptance(CorrelationKey(sig), sig, w.now);
      forall i | 0 <= i < |w.accepted| && SameReason(w.accepted[i], latest)
        ensures w.now - w.accepted[i].at >= c.dedupWindow
      {
        assert Remembers(c, w.cor.entries[latest.key], w.accepted[i]);
        assert Timely(c, w.cor.entries[latest.key], w.now);
      }
    }
  }

  // Lifecycle events.

  datatype Phase = Absent | IsOpen | IsClosed | Malformed

  /** The words (Opened Updated* Closed)*, and their prefixes. */
  function Move(phase: Phase, kind: EventKind): Phase {
    match (phase, kind)
    case (Absent, Opened) => IsOpen
    case (IsOpen, Updated) => IsOpen
    case (IsOpen, Closed) => IsClosed
    case (IsClosed, Opened) => IsOpen
    case _ => Malformed
  }

  /** Where the events about one incident have led. */
  function PhaseOf(events: seq<Event>, id: string, start: Phase): Phase {
    if events == [] then start
    else
      var before := PhaseOf(events[..|events| - 1], id, start);
      var last := events[|events| - 1];
      if last.incident.id == id then Move(before, last.kind) else before
  }

  /** Where an incident stands in this process. */
  ghost function StateOf(s: State, id: string): Phase {
    if id in s.table && HasEntry(s, id) then
      if Open(s.entries[s.table[id].key]) then IsOpen else IsClosed
    else Absent
  }

  ghost predicate EventInv(w: World) {
    forall id :: PhaseOf(w.cor.attempted, id, if id in w.born then IsOpen else Absent) == StateOf(w.cor, id)
  }

  /** `part` is what remains of `whole` when some elements are left out. */
  ghost predicate Subsequence(part: seq<Event>, whole: seq<Event>) {
    if part == [] then true
    else if whole == [] then false
    else
      || (part[|part| - 1] == whole[|whole| - 1] && Subsequence(part[..|part| - 1], whole[..|whole| - 1]))
      || Subsequence(part, whole[..|whole| - 1])
  }

  ghost predicate QueueInv(w: World) {
    |w.cor.channel| <= EVENT_BUFFER && Subsequence(w.delivered + w.cor.channel, w.cor.attempted)
  }

  // Severity.

  function MaxRank(signals: seq<Signal>): nat {
    if signals == [] then 0
    else
      var before, last := MaxRank(signals[..|signals| - 1]), SeverityRank(signals[|signals| - 1].severity);
      if last > before then last else before
  }

  function Higher(a: nat, b: nat): nat { if a > b then a else b }

  /** The severity of a row: the rank at the last opening, raised by the signals after the opening one. */
  ghost predicate Graded(row: Row, openingRank: nat) {
    row.signals != [] && SeverityRank(row.severity) == Higher(openingRank, MaxRank(row.signals[1..]))
  }

  ghost predicate SeverityInv(table: map<string, Row>, reopened: set<string>, openingRank: map<string, nat>) {
    forall id <- table ::
      && id in openingRank && Graded(table[id], openingRank[id])
      && (id in reopened || openingRank[id] == SeverityRank(table[id].signals[0].severity))
  }

  /** A row holds signals of its own key only. */
  ghost predicate KeyedInv(table: map<string, Row>) {
    forall id <- table :: forall sig <- table[id].signals :: CorrelationKey(sig) == table[id].key
  }

  /** No row disappears, changes its key or its opening time, or lowers its severity. */
  ghost predicate OnlyGrows(table: map<string, Row>, table': map<string, Row>) {
    forall id <- table ::
      && id in table'
      && table'[id].key == table[id].key && table'[id].openedAt == table[id].openedAt
      && SeverityRank(table'[id].severity) >= SeverityRank(table[id].severity)
  }

  ghost predicate WorldInv(c: Config, w: World) {
    && StoreInv(w.cor) && TimeInv(c, w) && EventInv(w) && QueueInv(w)
    && SeverityInv(w.cor.table, w.reopened, w.openingRank) && KeyedInv(w.cor.table)
  }

  lemma WriteKeepsEvents(w: World, w': World, key: string, e: Entry, kind: EventKind)
    requires StoreInv(w.cor) && MayWrite(w.cor, key, e) && EventInv(w)
    requires w'.cor == Written(w.cor, key, e, kind) && w'.born == w.born
    requires Move(StateOf(w.cor, e.incident.id), kind) == if Open(e) then IsOpen else IsClosed
    ensures EventInv(w')
  {
    WriteKeepsStoreInv(w.cor, key, e, kind);
    forall id
      ensures PhaseOf(w'.cor.attempted, id, if id in w.born then IsOpen else Absent) == StateOf(w'.cor, id)
    {
      assert w'.cor.attempted[..|w.cor.attempted|] == w.cor.attempted;
      if id == e.incident.id {
        assert Agrees(w'.cor.table, key, w'.cor.entries[key]);
      } else {
        WriteKeepsOtherStates(w.cor, key, e, kind, id);
      }
    }
  }

  lemma WriteKeepsOtherStates(s: State, key: string, e: Entry, kind: EventKind, id: string)
    requires StoreInv(s) && MayWrite(s, key, e) && id != e.incident.id
    ensures StateOf(Written(s, key, e, kind), id) == StateOf(s, id)
  {}

  lemma EmitKeepsQueue(w: World, w': World, event: Event)
    requires QueueInv(w) && w'.delivered == w.delivered
    requires w'.cor.attempted == Emitted(w.cor, event).attempted && w'.cor.channel == Emitted(w.cor, event).channel
    ensures QueueInv(w')
  {
    var part := w.delivered + w.cor.channel;
    assert (w.cor.attempted + [event])[..|w.cor.attempted|] == w.cor.attempted;
    assert (part + [event])[..|part|] == part;
    if |w.cor.channel| < EVENT_BUFFER {
      assert w'.delivered + w'.cor.channel == part + [event];
    }
  }

  lemma MaxRankAppend(signals: seq<Signal>, sig: Signal)
    ensures MaxRank(signals + [sig]) == Higher(SeverityRank(sig.severity), MaxRank(signals))
  {
    assert (signals + [sig])[..|signals|] == signals;
  }

  lemma SingleRank(sig: Signal)
    ensures MaxRank([sig]) == SeverityRank(sig.severity)
  {
    MaxRankAppend([], sig);
    assert [] + [sig] == [sig];
  }

  lemma {:induction false} MaxRankSplit(signals: seq<Signal>)
    requires signals != []
    ensures MaxRank(signals) == Higher(SeverityRank(signals[0].severity), MaxRank(signals[1..]))
  {
    var front := signals[..|signals| - 1];
    if front != [] {
      MaxRankSplit(front);
      assert signals[1..][..|signals| - 2] == front[1..];
    }
  }

  // Steps.

  /** Process as one write, where it writes. */
  lemma ReceiveWrites(c: Config, w: World, w': World, sig: Signal, id: string)
    requires WorldInv(c, w) && Receive(c, w, w', sig, id)
    ensures StoreInv(w'.cor) && EventInv(w') && QueueInv(w')
    ensures OnlyGrows(w.cor.table, w'.cor.table)
  {
    hide TimeInv, QueueInv, SeverityInv, SeverityRank, PhaseOf;
    var key := CorrelationKey(sig);
    if key !in w.cor.entries {
      WriteStep(w, w', key, Fresh(sig, w.now, id), Opened);
    } else {
      assert Agrees(w.cor.table, key, w.cor.entries[key]);
      if !Open(w.cor.entries[key]) {
        TimelyEntry(c, w, key);
        WriteStep(w, w', key, Reopened(w.cor.entries[key], sig, w.now), Opened);
      } else if !Duplicate(c, w.cor.entries[key], sig, w.now) {
        WriteStep(w, w', key, Extended(w.cor.entries[key], sig, w.now), Updated);
      }
    }
  }

  lemma TimelyEntry(c: Config, w: World, key: string)
    requires TimeInv(c, w) && key in w.cor.entries
    ensures Timely(c, w.cor.entries[key], w.now)
  {}

  lemma WriteStep(w: World, w': World, key: string, e: Entry, kind: EventKind)
    requires StoreInv(w.cor) && EventInv(w) && QueueInv(w) && MayWrite(w.cor, key, e)
    requires w'.cor == Written(w.cor, key, e, kind) && w'.born == w.born && w'.delivered == w.delivered
    requires Move(StateOf(w.cor, e.incident.id), kind) == if Open(e) then IsOpen else IsClosed
    requires key in w.cor.entries ==>
               SeverityRank(e.incident.severity) >= SeverityRank(w.cor.entries[key].incident.severity)
    ensures StoreInv(w'.cor) && EventInv(w') && QueueInv(w')
    ensures OnlyGrows(w.cor.table, w'.cor.table)
  {
    WriteKeepsStoreInv(w.cor, key, e, kind);
    WriteKeepsEvents(w, w', key, e, kind);
    EmitKeepsQueue(w, w', Event(kind, e.incident));
    WriteOnlyGrows(w.cor, key, e, kind);
  }

  lemma WriteOnlyGrows(s: State, key: string, e: Entry, kind: EventKind)
    requires StoreInv(s) && MayWrite(s, key, e)
    requires key in s.entries ==> SeverityRank(e.incident.severity) >= SeverityRank(s.entries[key].incident.severity)
    ensures OnlyGrows(s.table, Written(s, key, e, kind).table)
  {
    hide SeverityRank;
    if key in s.entries {
      assert Agrees(s.table, key, s.entries[key]);
    }
  }

  /** Writing one row keeps all others, if only its own opening rank changes. */
  lemma WriteKeepsSeverity(
      s: State, key: string, e: Entry, kind: EventKind, reopened: set<string>, reopened': set<string>,
      ranks: map<string, nat>, rank: nat)
    requires SeverityInv(s.table, reopened, ranks) && reopened <= reopened'
    requires e.incident.signals != []
    requires SeverityRank(e.incident.severity) == Higher(rank, MaxRank(e.incident.signals[1..]))
    requires e.incident.id in reopened' || rank == SeverityRank(e.incident.signals[0].severity)
    ensures SeverityInv(Written(s, key, e, kind).table, reopened', ranks[e.incident.id := rank])
  {
    hide SeverityRank, MaxRank, Higher;
  }

  lemma ReceiveKeepsSeverity(c: Config, w: World, w': World, sig: Signal, id: string)
    requires StoreInv(w.cor) && SeverityInv(w.cor.table, w.reopened, w.openingRank) && Receive(c, w, w', sig, id)
    ensures SeverityInv(w'.cor.table, w'.reopened, w'.openingRank)
  {
    hide SeverityRank, MaxRank, SeverityInv, Written, Higher;
    var key := CorrelationKey(sig);
    NoHigher(SeverityRank(sig.severity));
    if key !in w.cor.entries {
      WriteKeepsSeverity(w.cor, key, Fresh(sig, w.now, id), Opened,
                         w.reopened, w'.reopened, w.openingRank, SeverityRank(sig.severity));
    } else {
      var e := w.cor.entries[key];
      EntrySeverity(w.cor, key, w.reopened, w.openingRank);
      if !Open(e) {
        NoHigher(SeverityRank(e.incident.severity));
        WriteKeepsSeverity(w.cor, key, Reopened(e, sig, w.now), Opened, w.reopened, w'.reopened,
                           w.openingRank, SeverityRank(e.incident.severity));
      } else if !Duplicate(c, e, sig, w.now) {
        ExtendedSeverity(e, sig, w.now, w.openingRank[e.incident.id]);
        WriteKeepsSeverity(w.cor, key, Extended(e, sig, w.now), Updated, w.reopened, w'.reopened,
                           w.openingRank, w.openingRank[e.incident.id]);
        assert w.openingRank[e.incident.id := w.openingRank[e.incident.id]] == w.openingRank;
      }
    }
  }

  lemma NoHigher(rank: nat)
    ensures forall sig: Signal :: Higher(rank, MaxRank([sig][1..])) == rank
  {
    assert forall sig: Signal :: [sig][1..] == [];
  }

  lemma ExtendedSeverity(e: Entry, sig: Signal, now: int, rank: nat)
    requires e.incident.signals != []
    requires SeverityRank(e.incident.severity) == Higher(rank, MaxRank(e.incident.signals[1..]))
    ensures var inc := Extended(e, sig, now).incident;
            && inc.signals[0] == e.incident.signals[0]
            && SeverityRank(inc.severity) == Higher(rank, MaxRank(inc.signals[1..]))
  {
    hide SeverityRank, MaxRank;
    MaxRankAppend(e.incident.signals[1..], sig);
    assert (e.incident.signals + [sig])[1..] == e.incident.signals[1..] + [sig];
  }

  lemma EntrySeverity(s: State, key: string, reopened: set<string>, ranks: map<string, nat>)
    requires StoreInv(s) && SeverityInv(s.table, reopened, ranks) && key in s.entries
    ensures var inc := s.entries[key].incident;
            && inc.id in ranks && inc.signals != []
            && SeverityRank(inc.severity) == Higher(ranks[inc.id], MaxRank(inc.signals[1..]))
            && (inc.id in reopened || ranks[inc.id] == SeverityRank(inc.signals[0].severity))
  {
    hide SeverityRank, MaxRank, Higher;
    assert Agrees(s.table, key, s.entries[key]);
  }

  lemma WriteKeepsKeyed(s: State, key: string, e: Entry, kind: EventKind)
    requires StoreInv(s) && MayWrite(s, key, e) && KeyedInv(s.table)
    requires forall sig <- e.incident.signals :: CorrelationKey(sig) == key
    ensures KeyedInv(Written(s, key, e, kind).table)
  {
    hide CorrelationKey;
    if key in s.entries {
      assert Agrees(s.table, key, s.entries[key]);
    }
  }

  lemma EntryKeyed(s: State, key: string)
    requires StoreInv(s) && KeyedInv(s.table) && key in s.entries
    ensures forall sig <- s.entries[key].incident.signals :: CorrelationKey(sig) == key
  {
    hide CorrelationKey;
    assert Agrees(s.table, key, s.entries[key]);
  }

  lemma ReceiveKeepsKeyed(c: Config, w: World, w': World, sig: Signal, id: string)
    requires WorldInv(c, w) && Receive(c, w, w', sig, id)
    ensures KeyedInv(w'.cor.table)
  {
    hide CorrelationKey, TimeInv, EventInv, QueueInv, SeverityInv, KeyedInv, Agrees, HasEntry, Written;
    var key := CorrelationKey(sig);
    if key !in w.cor.entries {
      WriteKeepsKeyed(w.cor, key, Fresh(sig, w.now, id), Opened);
    } else {
      EntryKeyed(w.cor, key);
      TimelyEntry(c, w, key);
      if !Open(w.cor.entries[key]) {
        WriteKeepsKeyed(w.cor, key, Reopened(w.cor.entries[key], sig, w.now), Opened);
      } else if !Duplicate(c, w.cor.entries[key], sig, w.now) {
        WriteKeepsKeyed(w.cor, key, Extended(w.cor.entries[key], sig, w.now), Updated);
      }
    }
  }

  lemma ReceiveKeepsInv(c: Config, w: World, w': World, sig: Signal, id: string)
    requires ValidConfig(c) && WorldInv(c, w) && Receive(c, w, w', sig, id)
    ensures WorldInv(c, w') && OnlyGrows(w.cor.table, w'.cor.table)
  {
    hide StoreInv, TimeInv, EventInv, QueueInv, SeverityInv, KeyedInv, OnlyGrows, Receive;
    ReceiveKeepsTimes(c, w, w', sig, id);
    ReceiveWrites(c, w, w', sig, id);
    ReceiveKeepsSeverity(c, w, w', sig, id);
    ReceiveKeepsKeyed(c, w, w', sig, id);
  }

  lemma ResolveOneKeepsInv(c: Config, w: World, w': World, key: string)
    requires ValidConfig(c) && WorldInv(c, w) && w' == w.(cor := ResolvedOne(c, w.cor, key, w.now))
    ensures WorldInv(c, w') && OnlyGrows(w.cor.table, w'.cor.table)
  {
    if key in w.cor.entries && Stale(c, w.cor.entries[key], w.now) {
      var e := w.cor.entries[key];
      var closed := e.(incident := e.incident.(resolvedAt := Some(w.now)));
      assert Agrees(w.cor.table, key, e);
      ResolveOneKeepsTimes(c, w, w', key);
      ResolveOneKeepsSeverity(c, w, w', key);
      hide TimeInv, EventInv, QueueInv, SeverityInv, KeyedInv, OnlyGrows, Written;
      EntryKeyed(w.cor, key);
      WriteKeepsKeyed(w.cor, key, closed, Closed);
      WriteStep(w, w', key, closed, Closed);
    }
  }

  lemma ResolveOneKeepsTimes(c: Config, w: World, w': World, key: string)
    requires ValidConfig(c) && TimeInv(c, w) && w' == w.(cor := ResolvedOne(c, w.cor, key, w.now))
    ensures TimeInv(c, w')
  {}

  lemma ResolveOneKeepsSeverity(c: Config, w: World, w': World, key: string)
    requires StoreInv(w.cor) && SeverityInv(w.cor.table, w.reopened, w.openingRank)
    requires w' == w.(cor := ResolvedOne(c, w.cor, key, w.now))
    ensures SeverityInv(w'.cor.table, w'.reopened, w'.openingRank)
  {
    hide SeverityRank, MaxRank, Higher;
    if key in w.cor.entries {
      assert Agrees(w.cor.table, key, w.cor.entries[key]);
    }
  }

  lemma {:induction false} ResolveKeepsInv(c: Config, w: World, w': World, order: seq<string>)
    requires ValidConfig(c) && WorldInv(c, w) && w' == w.(cor := ResolvedAll(c, w.cor, order, w.now))
    ensures WorldInv(c, w') && OnlyGrows(w.cor.table, w'.cor.table)
    decreases |order|
  {
    hide WorldInv, ResolvedOne, OnlyGrows;
    OnlyGrowsSelf(w.cor.table);
    if order != [] {
      var front := order[..|order| - 1];
      var mid := w.(cor := ResolvedAll(c, w.cor, front, w.now));
      ResolveKeepsInv(c, w, mid, front);
      ResolveOneKeepsInv(c, mid, w', order[|order| - 1]);
      OnlyGrowsTwice(w.cor.table, mid.cor.table, w'.cor.table);
    }
  }

  lemma OnlyGrowsTwice(t: map<string, Row>, t': map<string, Row>, t'': map<string, Row>)
    requires OnlyGrows(t, t') && OnlyGrows(t', t'')
    ensures OnlyGrows(t, t'')
  {
    hide SeverityRank;
  }

  lemma ConsumeKeepsInv(c: Config, w: World, w': World)
    requires WorldInv(c, w) && Consume(w, w')
    ensures WorldInv(c, w')
  {
    hide PhaseOf, Subsequence, MaxRank, SeverityRank, Remembers, Timely, Agrees;
    assert w'.delivered + w'.cor.channel == w.delivered + w.cor.channel;
    assert forall id :: id in w.cor.table ==> HasEntry(w'.cor, id) == HasEntry(w.cor, id);
  }

  lemma RestartKeepsInv(c: Config, w: World, w': World, records: seq<IncidentRecord>)
    requires ValidConfig(c) && WorldInv(c, w) && Restart(w, w', records)
    ensures WorldInv(c, w') && w'.cor.table == w.cor.table
  {
    hide MaxRank, SeverityRank;
    RestartRebuildsOpenIncidents(w, w', records);
    forall key <- w'.cor.entries
      ensures Timely(c, w'.cor.entries[key], w'.now)
    {
      assert Timely(c, w.cor.entries[key], w.now);
      assert Agrees(w.cor.table, key, w.cor.entries[key]);
    }
    forall id
      ensures PhaseOf([], id, if id in w'.born then IsOpen else Absent) == StateOf(w'.cor, id)
    {
      if id in w'.cor.table && HasEntry(w'.cor, id) {
        assert Agrees(w'.cor.table, w'.cor.table[id].key, w'.cor.entries[w'.cor.table[id].key]);
      }
    }
    assert w'.delivered + w'.cor.channel == [];
  }

  lemma TickKeepsInv(c: Config, w: World, w': World)
    requires WorldInv(c, w) && Tick(w, w')
    ensures WorldInv(c, w')
  {
    hide PhaseOf, Subsequence, MaxRank, SeverityRank, Agrees;
  }

  lemma OnlyGrowsSelf(t: map<string, Row>)
    ensures OnlyGrows(t, t)
  {}

  lemma LifeStepKeepsInv(c: Config, w: World, w': World)
    requires ValidConfig(c) && WorldInv(c, w) && LifeStep(c, w, w')
    ensures WorldInv(c, w') && OnlyGrows(w.cor.table, w'.cor.table)
  {
    hide WorldInv, Receive, OnlyGrows;
    OnlyGrowsSelf(w.cor.table);
    if Tick(w, w') {
      TickKeepsInv(c, w, w');
    } else if sig, id :| Receive(c, w, w', sig, id) {
      ReceiveKeepsInv(c, w, w', sig, id);
    } else if order :| Resolve(c, w, w', order) {
      ResolveKeepsInv(c, w, w', order);
    } else {
      ConsumeKeepsInv(c, w, w');
    }
  }

  lemma NextKeepsInv(c: Config, w: World, w': World)
    requires ValidConfig(c) && WorldInv(c, w) && Next(c, w, w')
    ensures WorldInv(c, w') && OnlyGrows(w.cor.table, w'.cor.table)
  {
    hide WorldInv, LifeStep, OnlyGrows, Restart, FailedRestart;
    if LifeStep(c, w, w') {
      LifeStepKeepsInv(c, w, w');
    } else if records :| Restart(w, w', records) {
      RestartKeepsInv(c, w, w', records);
      OnlyGrowsSelf(w.cor.table);
    } else {
      FailedRestartKeepsInv(c, w, w');
      OnlyGrowsSelf(w.cor.table);
    }
  }

  lemma FailedRestartKeepsInv(c: Config, w: World, w': World)
    requires WorldInv(c, w) && FailedRestart(w, w') && OpenIds(w.cor.table) == {}
    ensures WorldInv(c, w') && w'.cor.table == w.cor.table
  {
    hide SeverityRank, MaxRank, CorrelationKey;
    assert forall id :: OpenRow(w.cor.table, id) ==> id in OpenIds(w.cor.table);
    assert w'.delivered + w'.cor.channel == [];
  }

  /** The invariant holds wherever a world in which it holds may lead. */
  lemma {:induction false} FollowsKeepsInv(c: Config, run: seq<World>, i: nat)
    requires ValidConfig(c) && i < |run| && WorldInv(c, run[0]) && Follows(c, run)
    ensures WorldInv(c, run[i])
  {
    hide WorldInv, Next;
    if i > 0 {
      FollowsKeepsInv(c, run, i - 1);
      NextKeepsInv(c, run[i - 1], run[i]);
    }
  }

  lemma RunKeepsInv(c: Config, run: seq<World>, i: nat)
    requires ValidConfig(c) && IsRun(c, run) && i < |run|
    ensures WorldInv(c, run[i])
  {
    hide WorldInv, Next, Follows;
    InitInv(c, run[0]);
    FollowsKeepsInv(c, run, i);
  }

  lemma InitInv(c: Config, w: World)
    requires Init(w)
    ensures WorldInv(c, w)
  {
    assert w.delivered + w.cor.channel == [];
  }

  /** The world after Process. */
  ghost function Received(c: Config, w: World, sig: Signal, id: string): World {
    var key := CorrelationKey(sig);
    w.(cor := Processed(c, w.cor, sig, w.now, id),
       accepted := if Accepts(c, w.cor, sig, w.now) then w.accepted + [Acceptance(key, sig, w.now)] else w.accepted,
       reopened := if key in w.cor.entries && !Open(w.cor.entries[key])
                   then w.reopened + {w.cor.entries[key].incident.id} else w.reopened,
       openingRank := OpeningRanks(w, sig, id))
  }

  lemma ReceivedIsNext(c: Config, w: World, sig: Signal, id: string)
    requires id !in w.cor.table
    ensures LifeStep(c, w, Received(c, w, sig, id))
  {
    hide Processed, OpeningRanks, Accepts;
    assert Receive(c, w, Received(c, w, sig, id), sig, id);
  }

  /** Before the first signal. */
  function EmptyWorld(start: int): World { World(State(map[], map[], [], []), start, [], [], {}, {}, map[]) }

  const FIRST_ID := "i"

  /** One and the same failure, as it is observed at some moment. */
  function Failure(id: string, receivedAt: int): Signal { Signal(id, "ns", "pod", "OOMKilled", "critical", receivedAt) }

  /** A run of one process: an incident opens with one signal, closes, and reopens with another. */
  lemma CloseAndReopen(c: Config, start: int, first: Signal, second: Signal) returns (run: seq<World>)
    requires ValidConfig(c) && CorrelationKey(first) == CorrelationKey(second)
    ensures |run| == 5 && run[0] == EmptyWorld(start) && forall i :: 0 < i < |run| ==> LifeStep(c, run[i - 1], run[i])
    ensures var w, key := run[4], CorrelationKey(first);
            && w.now == start + c.resolveWindow
            && w.cor.entries.Keys == {key} && w.cor.entries[key].incident.signals == [second]
            && w.accepted == [Acceptance(key, first, start), Acceptance(key, second, w.now)]
            && FIRST_ID in w.cor.table
            && w.cor.table[FIRST_ID].signals == [second] && w.cor.table[FIRST_ID].severity == first.severity
  {
    hide SeverityRank, CorrelationKey, Written;
    var key, later := CorrelationKey(first), start + c.resolveWindow;
    var w0 := EmptyWorld(start);
    var w1 := Received(c, w0, first, FIRST_ID);
    var w2 := w1.(now := later);
    var w3 := w2.(cor := ResolvedAll(c, w2.cor, [key], later));
    var w4 := Received(c, w3, second, "j");
    var initial := Fresh(first, start, FIRST_ID);
    var closed := initial.(incident := initial.incident.(resolvedAt := Some(later)));
    WrittenEntry(w0.cor, key, initial, Opened);
    ResolvedSingle(c, w2.cor, key, later);
    WrittenEntry(w2.cor, key, closed, Closed);
    WrittenEntry(w3.cor, key, Reopened(closed, second, later), Opened);
    assert Tick(w1, w2) && Resolve(c, w2, w3, [key]);
    ReceivedIsNext(c, w0, first, FIRST_ID);
    ReceivedIsNext(c, w3, second, "j");
    run := [w0, w1, w2, w3, w4];
  }

  lemma WrittenEntry(s: State, key: string, e: Entry, kind: EventKind)
    ensures var s' := Written(s, key, e, kind);
            && s'.entries == s.entries[key := e] && s'.table.Keys == s.table.Keys + {e.incident.id}
            && s'.table[e.incident.id].signals == e.incident.signals
            && s'.table[e.incident.id].severity == e.incident.severity
  {}

  lemma ResolvedSingle(c: Config, s: State, key: string, now: int)
    ensures ResolvedAll(c, s, [key], now) == ResolvedOne(c, s, key, now)
  {
    assert [key][..0] == [];
  }

  // What holds over all runs.

  /** At most one open row per key at any time, and every entry agrees with its row. */
  lemma TableAgreesWithMemory(c: Config, run: seq<World>, i: nat)
    requires ValidConfig(c) && IsRun(c, run) && i < |run|
    ensures var s := run[i].cor;
            && (forall id1, id2 ::
                  OpenRow(s.table, id1) && OpenRow(s.table, id2) && s.table[id1].key == s.table[id2].key ==> id1 == id2)
            && (forall key <- s.entries :: Agrees(s.table, key, s.entries[key]))
            && (forall id :: OpenRow(s.table, id) <==>
                  id in s.table && HasEntry(s, id) && Open(s.entries[s.table[id].key]))
  {
    hide Next, TimeInv, EventInv, QueueInv, SeverityInv, KeyedInv;
    RunKeepsInv(c, run, i);
    var s := run[i].cor;
    forall id1, id2 | OpenRow(s.table, id1) && OpenRow(s.table, id2) && s.table[id1].key == s.table[id2].key
      ensures id1 == id2
    {
      OneOpenRowPerKey(s, id1, id2);
    }
    forall id | id in s.table && HasEntry(s, id)
      ensures Agrees(s.table, s.table[id].key, s.entries[s.table[id].key])
    {}
  }

  /** Each restart of each run brings back exactly the open incidents. */
  lemma EveryRestartRebuilds(c: Config, run: seq<World>, i: nat, records: seq<IncidentRecord>)
    requires ValidConfig(c) && IsRun(c, run) && 0 < i < |run| && Restart(run[i - 1], run[i], records)
    ensures forall key :: key in run[i].cor.entries <==>
              key in run[i - 1].cor.entries && Open(run[i - 1].cor.entries[key])
    ensures forall key <- run[i].cor.entries ::
              var before := run[i - 1].cor;
              && before.entries[key].incident.id in before.table
              && run[i].cor.entries[key] == Entry(
                   before.entries[key].incident.(openedAt := before.table[before.entries[key].incident.id].openedAt),
                   map[])
  {
    hide Next, TimeInv, EventInv, QueueInv, SeverityInv, KeyedInv, Agrees;
    RunKeepsInv(c, run, i - 1);
    RestartRebuildsOpenIncidents(run[i - 1], run[i], records);
    AllHaveRows(run[i - 1].cor);
  }

  lemma AllHaveRows(s: State)
    requires StoreInv(s)
    ensures forall key <- s.entries :: s.entries[key].incident.id in s.table
  {
    forall key <- s.entries
      ensures s.entries[key].incident.id in s.table
    {
      assert Agrees(s.table, key, s.entries[key]);
    }
  }

  /** Along any run, with any restarts, no incident row disappears, changes its key or its opening time,
      or lowers its severity. */
  lemma {:induction false} TableOnlyGrows(c: Config, run: seq<World>, i: nat, j: nat)
    requires ValidConfig(c) && IsRun(c, run) && i <= j < |run|
    ensures OnlyGrows(run[i].cor.table, run[j].cor.table)
    decreases j
  {
    hide WorldInv, Next, OnlyGrows;
    if i == j {
      OnlyGrowsSelf(run[i].cor.table);
    } else {
      TableOnlyGrows(c, run, i, j - 1);
      RunKeepsInv(c, run, j - 1);
      NextKeepsInv(c, run[j - 1], run[j]);
      OnlyGrowsTwice(run[i].cor.table, run[j - 1].cor.table, run[j].cor.table);
    }
  }

  /** Per incident and process life, the emitted events are a prefix of (Opened Updated* Closed)* that
      ends where the entry stands; what the consumer gets is an ordered selection of them. */
  lemma EventsFollowLifecycle(c: Config, run: seq<World>, i: nat, id: string)
    requires ValidConfig(c) && IsRun(c, run) && i < |run|
    ensures var w := run[i];
            && PhaseOf(w.cor.attempted, id, if id in w.born then IsOpen else Absent) == StateOf(w.cor, id) != Malformed
            && Subsequence(w.delivered + w.cor.channel, w.cor.attempted)
            && |w.cor.channel| <= 100
  {
    hide Next, TimeInv, StoreInv, SeverityInv, KeyedInv, PhaseOf, Subsequence;
    RunKeepsInv(c, run, i);
  }

  /** OpenedAt <= UpdatedAt <= ResolvedAt, with a whole resolve window before the last. */
  lemma TimesAreOrdered(c: Config, run: seq<World>, i: nat, key: string)
    requires ValidConfig(c) && IsRun(c, run) && i < |run| && key in run[i].cor.entries
    ensures Timely(c, run[i].cor.entries[key], run[i].now)
  {
    hide Next, EventInv, QueueInv, StoreInv, SeverityInv, KeyedInv;
    RunKeepsInv(c, run, i);
  }

  /** Until an incident is first reopened, its severity is the highest among its signals. */
  lemma SeverityIsHighestUntilReopened(c: Config, run: seq<World>, i: nat, id: string)
    requires ValidConfig(c) && IsRun(c, run) && i < |run|
    requires id in run[i].cor.table && id !in run[i].reopened
    ensures SeverityRank(run[i].cor.table[id].severity) == MaxRank(run[i].cor.table[id].signals)
  {
    hide Next, EventInv, QueueInv, StoreInv, TimeInv, KeyedInv, SeverityRank, MaxRank;
    RunKeepsInv(c, run, i);
    MaxRankSplit(run[i].cor.table[id].signals);
  }

  /** Reopening replaces the signals and keeps the severity: right after it, the severity is the highest
      among the signals exactly if the new signal ranks as the old severity did. */
  lemma ReopenedSeverityIsHighestIff(e: Entry, sig: Signal, now: int)
    ensures SeverityRank(Reopened(e, sig, now).incident.severity) == MaxRank(Reopened(e, sig, now).incident.signals)
       <==> SeverityRank(sig.severity) == SeverityRank(e.incident.severity)
  {
    SingleRank(sig);
  }
}
