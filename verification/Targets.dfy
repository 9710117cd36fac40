/** Which signals the verifier watches: whether the target it takes from an incident is what the
    correlator grouped the incident by. */
module Targets {
  import opened Contracts
  import opened Stores
  import opened Correlators
  import opened CorrelatorRuns
  import opened Verifiers
  import DedupWindows

  const CLUSTER_PREFIX := "cluster/"

  /** The labels that signals with this key can have. */
  predicate LabelOf(name: string, key: string) { name == key || CLUSTER_PREFIX + name == key }

  predicate Labels(key: string, affected: seq<string>) {
    && '/' in key && affected != []
    && (forall name <- affected :: LabelOf(name, key))
    && (forall i, j :: 0 <= i < j < |affected| ==> affected[i] != affected[j])
  }

  ghost predicate LabelInv(table: map<string, Row>) {
    forall id <- table :: Labels(table[id].key, table[id].affected)
  }

  lemma SignalLabel(sig: Signal)
    ensures LabelOf(ResourceLabel(sig), CorrelationKey(sig)) && '/' in CorrelationKey(sig)
  {
    var start := if sig.namespace == "" then "cluster" else sig.namespace;
    assert CorrelationKey(sig)[|start|] == '/';
  }

  lemma WriteKeepsLabels(s: State, key: string, e: Entry, kind: EventKind)
    requires StoreInv(s) && MayWrite(s, key, e) && LabelInv(s.table) && Labels(key, e.incident.affectedResources)
    ensures LabelInv(Written(s, key, e, kind).table)
  {
    hide Labels;
    if key in s.entries {
      assert Agrees(s.table, key, s.entries[key]);
    }
  }

  lemma EntryLabels(s: State, key: string)
    requires StoreInv(s) && LabelInv(s.table) && key in s.entries
    ensures Labels(key, s.entries[key].incident.affectedResources)
  {
    hide Labels;
    assert Agrees(s.table, key, s.entries[key]);
  }

  lemma ExtendedLabels(key: string, affected: seq<string>, name: string)
    requires Labels(key, affected) && LabelOf(name, key) && name !in affected
    ensures Labels(key, affected + [name])
  {
    hide LabelOf;
  }

  lemma ReceiveKeepsLabels(c: Config, w: World, w': World, sig: Signal, id: string)
    requires WorldInv(c, w) && LabelInv(w.cor.table) && Receive(c, w, w', sig, id)
    ensures LabelInv(w'.cor.table)
  {
    hide TimeInv, EventInv, QueueInv, SeverityInv, LabelInv, LabelOf, CorrelationKey, ResourceLabel, Agrees, HasEntry;
    hide Written;
    var key := CorrelationKey(sig);
    SignalLabel(sig);
    if key !in w.cor.entries {
      WriteKeepsLabels(w.cor, key, Fresh(sig, w.now, id), Opened);
    } else {
      var e := w.cor.entries[key];
      EntryLabels(w.cor, key);
      TimelyEntry(c, w, key);
      if !Open(e) {
        WriteKeepsLabels(w.cor, key, Reopened(e, sig, w.now), Opened);
      } else if !Duplicate(c, e, sig, w.now) {
        if ResourceLabel(sig) !in e.incident.affectedResources {
          ExtendedLabels(key, e.incident.affectedResources, ResourceLabel(sig));
        }
        WriteKeepsLabels(w.cor, key, Extended(e, sig, w.now), Updated);
      }
    }
  }

  lemma {:induction false} ResolveKeepsLabels(c: Config, w: World, order: seq<string>)
    requires ValidConfig(c) && WorldInv(c, w) && LabelInv(w.cor.table)
    ensures LabelInv(ResolvedAll(c, w.cor, order, w.now).table)
  {
    hide WorldInv, LabelInv, ResolvedOne;
    if order != [] {
      var front, key := order[..|order| - 1], order[|order| - 1];
      ResolveKeepsLabels(c, w, front);
      var mid := w.(cor := ResolvedAll(c, w.cor, front, w.now));
      ResolveKeepsInv(c, w, mid, front);
      ResolveOneKeepsLabels(c, mid, key);
    }
  }

  lemma ResolveOneKeepsLabels(c: Config, w: World, key: string)
    requires ValidConfig(c) && WorldInv(c, w) && LabelInv(w.cor.table)
    ensures LabelInv(ResolvedOne(c, w.cor, key, w.now).table)
  {
    hide EventInv, QueueInv, SeverityInv, LabelInv, Labels, Agrees, HasEntry, Written;
    if key in w.cor.entries && Stale(c, w.cor.entries[key], w.now) {
      EntryLabels(w.cor, key);
      TimelyEntry(c, w, key);
      var e := w.cor.entries[key];
      WriteKeepsLabels(w.cor, key, e.(incident := e.incident.(resolvedAt := Some(w.now))), Closed);
    }
  }

  lemma {:induction false} RunKeepsLabels(c: Config, run: seq<World>, i: nat)
    requires ValidConfig(c) && IsRun(c, run) && i < |run|
    ensures LabelInv(run[i].cor.table)
  {
    hide WorldInv, LabelInv, Receive;
    if i == 0 {
      NoLabels();
    } else {
      RunKeepsLabels(c, run, i - 1);
      RunKeepsInv(c, run, i - 1);
      var w, w' := run[i - 1], run[i];
      assert Next(c, w, w');
      if sig, id :| Receive(c, w, w', sig, id) {
        ReceiveKeepsLabels(c, w, w', sig, id);
      } else if order :| Resolve(c, w, w', order) {
        ResolveKeepsLabels(c, w, order);
      }
    }
  }

  lemma NoLabels()
    ensures LabelInv(map[])
  {}

  // The affected resources and the signals.

  ghost predicate Labelled(signals: seq<Signal>, name: string) { exists sig <- signals :: ResourceLabel(sig) == name }

  /** Each signal after the opening one is named; so is that one, and nothing else, until the first reopening. */
  ghost predicate Named(row: Row, reopened: bool) {
    && row.signals != []
    && (forall k :: 0 < k < |row.signals| ==> ResourceLabel(row.signals[k]) in row.affected)
    && (!reopened ==>
          && ResourceLabel(row.signals[0]) in row.affected
          && forall name <- row.affected :: Labelled(row.signals, name))
  }

  ghost predicate NamedInv(table: map<string, Row>, reopened: set<string>) {
    forall id <- table :: Named(table[id], id in reopened)
  }

  /** The row of an entry. */
  ghost function RowOf(e: Entry): Row {
    var inc := e.incident;
    Row("", inc.severity, inc.openedAt, inc.updatedAt, 0, inc.signals, inc.affectedResources)
  }

  lemma WriteKeepsNamed(
      s: State, key: string, e: Entry, kind: EventKind, reopened: set<string>, reopened': set<string>)
    requires NamedInv(s.table, reopened) && reopened <= reopened'
    requires forall id :: id != e.incident.id && id in reopened' ==> id in reopened
    requires Named(RowOf(e), e.incident.id in reopened')
    ensures NamedInv(Written(s, key, e, kind).table, reopened')
  {
    hide ResourceLabel, Labelled;
  }

  lemma EntryNamed(w: World, key: string)
    requires StoreInv(w.cor) && NamedInv(w.cor.table, w.reopened) && key in w.cor.entries
    ensures Named(RowOf(w.cor.entries[key]), w.cor.entries[key].incident.id in w.reopened)
  {
    hide ResourceLabel;
    assert Agrees(w.cor.table, key, w.cor.entries[key]);
  }

  lemma FreshNamed(sig: Signal, now: int, id: string, reopened: bool)
    ensures Named(RowOf(Fresh(sig, now, id)), reopened)
  {
    hide ResourceLabel;
    assert sig in [sig];
  }

  lemma ReopenedNamed(e: Entry, sig: Signal, now: int)
    ensures Named(RowOf(Reopened(e, sig, now)), true)
  {}

  lemma ExtendedNamed(e: Entry, sig: Signal, now: int, reopened: bool)
    requires Named(RowOf(e), reopened)
    ensures Named(RowOf(Extended(e, sig, now)), reopened)
  {
    hide ResourceLabel;
    var signals := e.incident.signals;
    assert sig in signals + [sig];
    forall name | Labelled(signals, name)
      ensures Labelled(signals + [sig], name)
    {
      var other :| other in signals && ResourceLabel(other) == name;
      assert other in signals + [sig];
    }
  }

  lemma ReceiveKeepsNamed(c: Config, w: World, w': World, sig: Signal, id: string)
    requires StoreInv(w.cor) && NamedInv(w.cor.table, w.reopened) && Receive(c, w, w', sig, id)
    ensures NamedInv(w'.cor.table, w'.reopened)
  {
    hide NamedInv, Named, CorrelationKey, Written, Agrees, HasEntry, OpeningRanks, RowOf;
    var key := CorrelationKey(sig);
    if key !in w.cor.entries {
      FreshNamed(sig, w.now, id, id in w.reopened);
      WriteKeepsNamed(w.cor, key, Fresh(sig, w.now, id), Opened, w.reopened, w'.reopened);
    } else {
      var e := w.cor.entries[key];
      EntryNamed(w, key);
      if !Open(e) {
        ReopenedNamed(e, sig, w.now);
        WriteKeepsNamed(w.cor, key, Reopened(e, sig, w.now), Opened, w.reopened, w'.reopened);
      } else if !Duplicate(c, e, sig, w.now) {
        ExtendedNamed(e, sig, w.now, e.incident.id in w.reopened);
        WriteKeepsNamed(w.cor, key, Extended(e, sig, w.now), Updated, w.reopened, w'.reopened);
      }
    }
  }

  lemma {:induction false} ResolveKeepsNamed(c: Config, w: World, order: seq<string>)
    requires ValidConfig(c) && WorldInv(c, w) && NamedInv(w.cor.table, w.reopened)
    ensures NamedInv(ResolvedAll(c, w.cor, order, w.now).table, w.reopened)
  {
    hide WorldInv, NamedInv, ResolvedOne;
    if order != [] {
      var front, key := order[..|order| - 1], order[|order| - 1];
      ResolveKeepsNamed(c, w, front);
      var mid := w.(cor := ResolvedAll(c, w.cor, front, w.now));
      ResolveKeepsInv(c, w, mid, front);
      ResolveOneKeepsNamed(c, mid, key);
    }
  }

  lemma ResolveOneKeepsNamed(c: Config, w: World, key: string)
    requires WorldInv(c, w) && NamedInv(w.cor.table, w.reopened)
    ensures NamedInv(ResolvedOne(c, w.cor, key, w.now).table, w.reopened)
  {
    hide TimeInv, EventInv, QueueInv, SeverityInv, NamedInv, Agrees, HasEntry, Written, Stale;
    if key in w.cor.entries && Stale(c, w.cor.entries[key], w.now) {
      EntryNamed(w, key);
      var e := w.cor.entries[key];
      var closed := e.(incident := e.incident.(resolvedAt := Some(w.now)));
      assert Named(RowOf(closed), e.incident.id in w.reopened);
      WriteKeepsNamed(w.cor, key, closed, Closed, w.reopened, w.reopened);
    }
  }

  lemma NoNames(reopened: set<string>)
    ensures NamedInv(map[], reopened)
  {}

  /** In every run, an incident's affected resources are exactly the labels of its signals, until it is first
      reopened; from then on they include at least those of the signals after the opening one. */
  lemma {:induction false} AffectedResourcesAreLabels(c: Config, run: seq<World>, i: nat)
    requires ValidConfig(c) && IsRun(c, run) && i < |run|
    ensures NamedInv(run[i].cor.table, run[i].reopened)
  {
    hide WorldInv, NamedInv, Receive;
    if i == 0 {
      NoNames(run[0].reopened);
    } else {
      AffectedResourcesAreLabels(c, run, i - 1);
      RunKeepsInv(c, run, i - 1);
      var w, w' := run[i - 1], run[i];
      assert Next(c, w, w');
      if sig, id :| Receive(c, w, w', sig, id) {
        WorldStores(c, w);
        ReceiveKeepsNamed(c, w, w', sig, id);
      } else if order :| Resolve(c, w, w', order) {
        ResolveKeepsNamed(c, w, order);
      }
    }
  }

  /** An incident's affected resources all name its correlation key: although the list grows by whatever
      label is new, it is exactly the key, or, for keys of cluster-scoped resources, at most the key and
      the bare resource. */
  lemma AffectedResourcesNameKey(c: Config, run: seq<World>, i: nat, id: string)
    requires ValidConfig(c) && IsRun(c, run) && i < |run| && id in run[i].cor.table
    ensures var row := run[i].cor.table[id];
            && 1 <= |row.affected| <= 2
            && (forall name <- row.affected :: name == row.key || CLUSTER_PREFIX + name == row.key)
            && (!(CLUSTER_PREFIX <= row.key) ==> row.affected == [row.key])
  {
    hide IsRun;
    RunKeepsLabels(c, run, i);
    TwoLabels(run[i].cor.table[id].key, run[i].cor.table[id].affected);
  }

  lemma TwoLabels(key: string, affected: seq<string>)
    requires Labels(key, affected)
    ensures 1 <= |affected| <= 2
    ensures !(CLUSTER_PREFIX <= key) ==> affected == [key]
  {
    hide LabelOf;
    assert |affected| > 2 ==> affected[0] != affected[2] && affected[1] != affected[2];
    forall i, j | 0 <= i < |affected| && 0 <= j < |affected| && affected[i] != key && affected[j] != key
      ensures affected[i] == affected[j]
    {
      BareLabel(affected[i], key);
      BareLabel(affected[j], key);
    }
    forall name <- affected
      ensures name == key || CLUSTER_PREFIX <= key
    {
      if name != key {
        BareLabel(name, key);
      }
    }
    assert affected[0] in affected;
    if |affected| >= 2 {
      assert affected[0] != affected[1] && affected[1] in affected;
    }
  }

  lemma BareLabel(name: string, key: string)
    requires LabelOf(name, key) && name != key
    ensures CLUSTER_PREFIX <= key && name == key[|CLUSTER_PREFIX|..]
  {
    assert (CLUSTER_PREFIX + name)[|CLUSTER_PREFIX|..] == name;
  }

  /** So the verifier of an incident watches what the correlator grouped: for an incident of a namespaced
      resource, a signal is about the verifier's target exactly if Process would put it into this very
      incident (a signal without a namespace being taken to name a resource without a slash). */
  lemma TargetIsKey(c: Config, run: seq<World>, i: nat, key: string, sig: Signal)
    requires ValidConfig(c) && IsRun(c, run) && i < |run| && key in run[i].cor.entries
    requires !(CLUSTER_PREFIX <= key)
    requires sig.namespace == "" ==> '/' !in sig.resource
    ensures ResourceLabel(sig) == IncidentTarget(run[i].cor.entries[key].incident) <==> CorrelationKey(sig) == key
  {
    hide IsRun, WorldInv, LabelInv;
    RunKeepsInv(c, run, i);
    WorldStores(c, run[i]);
    RunKeepsLabels(c, run, i);
    EntryLabels(run[i].cor, key);
    TwoLabels(key, run[i].cor.entries[key].incident.affectedResources);
    if sig.namespace == "" {
      assert CorrelationKey(sig)[..|CLUSTER_PREFIX|] == CLUSTER_PREFIX;
    }
  }

  /** For cluster-scoped resources it may not: signals that the correlator puts into one incident have
      different labels exactly if one names no namespace and the other a namespace called "cluster", and
      then the verifier, watching one label, does not see the other. */
  lemma LabelsSplitKeyIff(a: Signal, b: Signal)
    requires '/' !in a.namespace && '/' !in b.namespace && CorrelationKey(a) == CorrelationKey(b)
    ensures ResourceLabel(a) != ResourceLabel(b) <==> (a.namespace == "") != (b.namespace == "")
  {
    DedupWindows.KeysSeparateResources(a, b);
  }

  lemma WorldStores(c: Config, w: World)
    requires WorldInv(c, w)
    ensures StoreInv(w.cor)
  {}
}
