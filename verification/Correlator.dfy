/** The correlator: one entry per correlation key, written through to the store. */
module Correlators {
  import opened Contracts
  import opened Stores

  const EVENT_BUFFER := 100

  datatype Config = Config(resolveWindow: int, dedupWindow: int)

  datatype EventKind = Opened | Updated | Closed

  datatype Event = Event(kind: EventKind, incident: Incident)

  /** An incident, and when each reason was last accepted. */
  datatype Entry = Entry(incident: Incident, seenReasons: map<string, int>)

  /** `attempted` lists all emitted events, dropped or not; `channel` is the buffer. */
  datatype State = State(
    entries: map<string, Entry>, table: map<string, Row>, attempted: seq<Event>, channel: seq<Event>)

  function CorrelationKey(sig: Signal): string {
    if sig.namespace != "" then sig.namespace + "/" + sig.resource else "cluster/" + sig.resource
  }

  function ResourceLabel(sig: Signal): string {
    if sig.namespace != "" then sig.namespace + "/" + sig.resource else sig.resource
  }

  function SeverityRank(severity: string): nat {
    if severity == "critical" then 2 else if severity == "warning" then 1 else 0
  }

  predicate Open(e: Entry) { e.incident.resolvedAt == None }

  function Emitted(s: State, e: Event): State {
    s.(attempted := s.attempted + [e],
       channel := if |s.channel| < EVENT_BUFFER then s.channel + [e] else s.channel)
  }

  /** An entry replaced, written through and announced. */
  function Written(s: State, key: string, e: Entry, kind: EventKind): State {
    Emitted(s.(entries := s.entries[key := e], table := Upserted(s.table, e.incident, key)), Event(kind, e.incident))
  }

  function Fresh(sig: Signal, now: int, id: string): Entry {
    Entry(Incident(id, [sig], [ResourceLabel(sig)], sig.severity, now, now, None), map[sig.reason := now])
  }

  /** Reopening keeps the ID, the severity and the affected resources. */
  function Reopened(e: Entry, sig: Signal, now: int): Entry {
    Entry(e.incident.(resolvedAt := None, openedAt := now, updatedAt := now, signals := [sig]), map[sig.reason := now])
  }

  function Extended(e: Entry, sig: Signal, now: int): Entry {
    var inc := e.incident;
    Entry(inc.(signals := inc.signals + [sig], updatedAt := now,
               severity := if SeverityRank(sig.severity) > SeverityRank(inc.severity) then sig.severity
                           else inc.severity,
               affectedResources := if ResourceLabel(sig) in inc.affectedResources then inc.affectedResources
                                    else inc.affectedResources + [ResourceLabel(sig)]),
          e.seenReasons[sig.reason := now])
  }

  predicate Duplicate(c: Config, e: Entry, sig: Signal, now: int) {
    sig.reason in e.seenReasons && now - e.seenReasons[sig.reason] < c.dedupWindow
  }

  /** Whether Process keeps the signal. */
  predicate Accepts(c: Config, s: State, sig: Signal, now: int) {
    var key := CorrelationKey(sig);
    key in s.entries && Open(s.entries[key]) ==> !Duplicate(c, s.entries[key], sig, now)
  }

  function Processed(c: Config, s: State, sig: Signal, now: int, freshId: string): State {
    var key := CorrelationKey(sig);
    if key !in s.entries then Written(s, key, Fresh(sig, now, freshId), Opened)
    else if !Open(s.entries[key]) then Written(s, key, Reopened(s.entries[key], sig, now), Opened)
    else if Duplicate(c, s.entries[key], sig, now) then s
    else Written(s, key, Extended(s.entries[key], sig, now), Updated)
  }

  predicate Stale(c: Config, e: Entry, now: int) {
    Open(e) && now - e.incident.updatedAt >= c.resolveWindow
  }

  /** The loop body of ResolveStale. */
  function ResolvedOne(c: Config, s: State, key: string, now: int): State {
    if key in s.entries && Stale(c, s.entries[key], now)
    then Written(s, key, s.entries[key].(incident := s.entries[key].incident.(resolvedAt := Some(now))), Closed)
    else s
  }

  function ResolvedAll(c: Config, s: State, order: seq<string>, now: int): State {
    if order == [] then s else ResolvedOne(c, ResolvedAll(c, s, order[..|order| - 1], now), order[|order| - 1], now)
  }

  /** An iteration order over a map's keys. */
  ghost predicate Visits(order: seq<string>, keys: set<string>) {
    && (forall key :: key in order <==> key in keys)
    && (forall i, j :: 0 <= i < j < |order| ==> order[i] != order[j])
  }

  /** Whatever the order of the walk, exactly the stale entries are closed, now, and nothing else about the
      entries changes. */
  lemma {:induction false} ResolvedAllCloses(c: Config, s: State, order: seq<string>, now: int)
    requires forall i, j :: 0 <= i < j < |order| ==> order[i] != order[j]
    ensures var entries := ResolvedAll(c, s, order, now).entries;
            && entries.Keys == s.entries.Keys
            && forall key <- s.entries ::
                 entries[key] == if key in order && Stale(c, s.entries[key], now)
                                 then s.entries[key].(incident := s.entries[key].incident.(resolvedAt := Some(now)))
                                 else s.entries[key]
  {
    hide Stale;
    if order != [] {
      var front, last := order[..|order| - 1], order[|order| - 1];
      assert order == front + [last];
      ResolvedAllCloses(c, s, front, now);
    }
  }

  function Hydrated(entries: map<string, Entry>, records: seq<IncidentRecord>): map<string, Entry> {
    if records == [] then entries
    else
      var last := records[|records| - 1];
      Hydrated(entries, records[..|records| - 1])[last.key := Entry(last.incident, map[])]
  }

  class Correlator {
    const cfg: Config
    const store: Store
    var entries: map<string, Entry>
    var events: seq<Event>
    ghost var attempted: seq<Event>

    constructor (cfg: Config, store: Store)
      ensures this.cfg == cfg && this.store == store && View() == State(map[], store.incidents, [], [])
    {
      this.cfg, this.store := cfg, store;
      entries, events, attempted := map[], [], [];
    }

    ghost function View(): State
      reads this, store
    {
      State(entries, store.incidents, attempted, events)
    }

    /** Drops the event when the buffer is full. */
    method Emit(e: Event)
      modifies this`events, this`attempted
      ensures View() == Emitted(old(View()), e)
      ensures attempted == old(attempted) + [e]
      ensures events == if |old(events)| < 100 then old(events) + [e] else old(events)
    {
      attempted := attempted + [e];
      if |events| < EVENT_BUFFER {
        events := events + [e];
      }
    }

    method Write(key: string, e: Entry, kind: EventKind)
      modifies this, store`incidents
      ensures View() == Written(old(View()), key, e, kind)
    {
      entries := entries[key := e];
      store.UpsertIncident(e.incident, key);
      Emit(Event(kind, e.incident));
    }

    method Process(sig: Signal, now: int, freshId: string)
      modifies this, store`incidents
      ensures View() == Processed(cfg, old(View()), sig, now, freshId)
    {
      var key := CorrelationKey(sig);
      if key !in entries {
        var inc := Incident(freshId, [sig], [ResourceLabel(sig)], sig.severity, now, now, None);
        Write(key, Entry(inc, map[sig.reason := now]), Opened);
        return;
      }
      var e := entries[key];
      if e.incident.resolvedAt != None {
        var inc := e.incident.(resolvedAt := None, openedAt := now, updatedAt := now, signals := [sig]);
        Write(key, Entry(inc, map[sig.reason := now]), Opened);
        return;
      }
      if sig.reason in e.seenReasons {
        var lastSeen := e.seenReasons[sig.reason];
        if now - lastSeen < cfg.dedupWindow {
          return;
        }
      }
      var inc := e.incident.(signals := e.incident.signals + [sig], updatedAt := now);
      if SeverityRank(sig.severity) > SeverityRank(inc.severity) {
        inc := inc.(severity := sig.severity);
      }
      if ResourceLabel(sig) !in inc.affectedResources {
        inc := inc.(affectedResources := inc.affectedResources + [ResourceLabel(sig)]);
      }
      Write(key, Entry(inc, e.seenReasons[sig.reason := now]), Updated);
    }

    /** Visits the entries in some order and closes the stale ones. */
    method ResolveStale(now: int) returns (ghost order: seq<string>)
      modifies this, store`incidents
      ensures Visits(order, old(entries.Keys))
      ensures View() == ResolvedAll(cfg, old(View()), order, now)
    {
      order := [];
      var rest := entries.Keys;
      while rest != {}
        invariant rest <= old(entries.Keys) && entries.Keys == old(entries.Keys)
        invariant Visits(order, old(entries.Keys) - rest)
        invariant View() == ResolvedAll(cfg, old(View()), order, now)
        decreases rest
      {
        var key :| key in rest;
        var e := entries[key];
        label before:
        if e.incident.resolvedAt == None && now - e.incident.updatedAt >= cfg.resolveWindow {
          Write(key, e.(incident := e.incident.(resolvedAt := Some(now))), Closed);
        }
        assert View() == ResolvedOne(cfg, old@before(View()), key, now);
        assert (order + [key])[..|order|] == order;
        order := order + [key];
        rest := rest - {key};
      }
    }

    /** A failed load leaves the correlator as it is. */
    method HydrateFromStore(available: bool) returns (ghost records: seq<IncidentRecord>)
      modifies this`entries
      ensures available ==> ListsOpenRows(records, store.incidents) && entries == Hydrated(old(entries), records)
      ensures !available ==> entries == old(entries)
    {
      if !available {
        records := [];
        return;
      }
      var loaded := store.LoadOpenIncidents();
      var i := 0;
      while i < |loaded|
        invariant i <= |loaded|
        invariant entries == Hydrated(old(entries), loaded[..i])
      {
        assert loaded[..i + 1][..i] == loaded[..i];
        entries := entries[loaded[i].key := Entry(loaded[i].incident, map[])];
        i := i + 1;
      }
      assert loaded[..i] == loaded;
      records := loaded;
    }

    /** A snapshot of all incidents, open and closed. */
    method ListIncidents() returns (result: seq<Incident>)
      ensures ListsIncidents(result, entries)
    {
      result := [];
      var rest := entries.Keys;
      ghost var keys := [];
      while rest != {}
        invariant rest <= entries.Keys
        invariant Visits(keys, entries.Keys - rest) && ListsInOrder(result, keys, entries)
        decreases rest
      {
        var key :| key in rest;
        result := result + [entries[key].incident];
        keys := keys + [key];
        rest := rest - {key};
      }
      assert entries.Keys - rest == entries.Keys;
    }
  }

  ghost predicate ListsInOrder(incidents: seq<Incident>, keys: seq<string>, entries: map<string, Entry>) {
    && |incidents| == |keys|
    && forall i :: 0 <= i < |keys| ==> keys[i] in entries && incidents[i] == entries[keys[i]].incident
  }

  /** The incidents of all entries, one for each key, in the order of some walk over the map. */
  ghost predicate ListsIncidents(incidents: seq<Incident>, entries: map<string, Entry>) {
    exists keys :: Visits(keys, entries.Keys) && ListsInOrder(incidents, keys, entries)
  }

  lemma ListedIncidents(incidents: seq<Incident>, entries: map<string, Entry>)
    requires ListsIncidents(incidents, entries)
    ensures forall key <- entries :: entries[key].incident in incidents
    ensures forall inc <- incidents :: exists key :: key in entries && entries[key].incident == inc
    ensures |incidents| == |entries|
  {
    var keys :| Visits(keys, entries.Keys) && ListsInOrder(incidents, keys, entries);
    forall key <- entries
      ensures entries[key].incident in incidents
    {
      var i :| 0 <= i < |keys| && keys[i] == key;
      assert incidents[i] == entries[key].incident;
    }
    VisitsCount(keys, entries.Keys);
    assert |entries.Keys| == |entries|;
  }

  lemma {:induction false} VisitsCount(order: seq<string>, keys: set<string>)
    requires Visits(order, keys)
    ensures |order| == |keys|
  {
    if order == [] {
      assert keys == {};
    } else {
      var front, last := order[..|order| - 1], order[|order| - 1];
      assert order == front + [last];
      VisitsCount(front, keys - {last});
    }
  }
}
