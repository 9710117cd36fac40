/** How often the correlator accepts a signal with the same key and reason. */
module DedupWindows {
  import opened Contracts
  import opened Stores
  import opened Correlators
  import opened CorrelatorRuns

  lemma {:induction false} RunKeepsSpacing(c: Config, run: seq<World>, i: nat)
    requires ValidConfig(c) && c.resolveWindow >= c.dedupWindow
    requires IsRun(c, run) && i < |run|
    ensures DedupSpaced(c, run[i].accepted)
  {
    hide Processed, TimeInv, DedupSpaced, StoreInv, EventInv, QueueInv, SeverityInv;
    if i == 0 {
      NothingSpaced(c);
    } else {
      RunKeepsSpacing(c, run, i - 1);
      RunKeepsInv(c, run, i - 1);
      var w, w' := run[i - 1], run[i];
      assert Next(c, w, w');
      if sig, id :| Receive(c, w, w', sig, id) {
        ReceiveKeepsSpacing(c, w, w', sig, id);
      } else if records :| Restart(w, w', records) {
        NothingSpaced(c);
      } else if FailedRestart(w, w') {
        NothingSpaced(c);
      } else {
        assert w'.accepted == w.accepted;
      }
    }
  }

  lemma NothingSpaced(c: Config)
    ensures DedupSpaced(c, [])
  {}

  ghost predicate DedupHolds(c: Config) {
    forall run: seq<World>, i :: IsRun(c, run) && 0 <= i < |run| ==> DedupSpaced(c, run[i].accepted)
  }

  /** Accepted signals with the same key and reason are a dedup window apart, in every run and through
      every close and reopen, exactly when the resolve window is at least the dedup window. */
  lemma DedupHoldsIff(c: Config)
    requires ValidConfig(c)
    ensures DedupHolds(c) <==> c.resolveWindow >= c.dedupWindow
  {
    if c.resolveWindow >= c.dedupWindow {
      forall run: seq<World>, i | IsRun(c, run) && 0 <= i < |run|
        ensures DedupSpaced(c, run[i].accepted)
      {
        RunKeepsSpacing(c, run, i);
      }
    } else {
      var run := EarlyReopen(c);
    }
  }

  /** Accept a signal of a failure, let its incident close, and accept the next one; each when received. */
  lemma EarlyReopen(c: Config) returns (run: seq<World>)
    requires 0 < c.resolveWindow < c.dedupWindow
    ensures IsRun(c, run) && !DedupSpaced(c, run[|run| - 1].accepted)
    ensures var accepted := run[|run| - 1].accepted;
            && (forall a <- accepted :: a.sig.receivedAt == a.at)
            && |accepted| == 2 && accepted[0].sig.id != accepted[1].sig.id
  {
    hide LifeStep;
    run := CloseAndReopen(c, 1, Failure("a", 1), Failure("b", 1 + c.resolveWindow));
    var w := run[4];
    assert forall i :: 0 < i < |run| ==> Next(c, run[i - 1], run[i]);
    assert SameReason(w.accepted[0], w.accepted[1]);
  }

  /** When a signal with this key and reason was last accepted, at or after some time. */
  ghost function LastAccepted(accepted: seq<Acceptance>, key: string, reason: string, from: int): Option<int> {
    if accepted == [] then None
    else
      var last := accepted[|accepted| - 1];
      if last.key == key && last.sig.reason == reason && last.at >= from then Some(last.at)
      else LastAccepted(accepted[..|accepted| - 1], key, reason, from)
  }

  ghost function SeenAt(e: Entry, reason: string): Option<int> {
    if reason in e.seenReasons then Some(e.seenReasons[reason]) else None
  }

  /** What an entry remembers of a reason is its last acceptance since the entry was opened or reopened. */
  ghost predicate SeenIsLast(w: World) {
    forall key <- w.cor.entries :: forall reason ::
      SeenAt(w.cor.entries[key], reason)
      == LastAccepted(w.accepted, key, reason, w.cor.entries[key].incident.openedAt)
  }

  lemma LastAppend(accepted: seq<Acceptance>, a: Acceptance, key: string, reason: string, from: int)
    ensures LastAccepted(accepted + [a], key, reason, from)
         == if a.key == key && a.sig.reason == reason && a.at >= from then Some(a.at)
            else LastAccepted(accepted, key, reason, from)
  {
    assert (accepted + [a])[..|accepted|] == accepted;
  }

  lemma {:induction false} NoneSince(accepted: seq<Acceptance>, key: string, reason: string, from: int)
    requires forall a <- accepted :: a.key == key ==> a.at < from
    ensures LastAccepted(accepted, key, reason, from) == None
  {
    if accepted != [] {
      NoneSince(accepted[..|accepted| - 1], key, reason, from);
    }
  }

  /** All acceptances of a key are older than its next opening. */
  lemma OlderThanOpening(c: Config, w: World, key: string)
    requires ValidConfig(c) && TimeInv(c, w) && (key in w.cor.entries ==> !Open(w.cor.entries[key]))
    ensures forall a <- w.accepted :: a.key == key ==> a.at < w.now
  {
    forall a | a in w.accepted && a.key == key
      ensures a.at < w.now
    {
      var i :| 0 <= i < |w.accepted| && w.accepted[i] == a;
      assert Remembers(c, w.cor.entries[key], a) && Timely(c, w.cor.entries[key], w.now);
    }
  }

  lemma ReceiveKeepsSeen(c: Config, w: World, w': World, sig: Signal, id: string)
    requires ValidConfig(c) && TimeInv(c, w) && SeenIsLast(w) && Receive(c, w, w', sig, id)
    ensures SeenIsLast(w')
  {
    hide LastAccepted, CorrelationKey, TimeInv, OpeningRanks;
    var key := CorrelationKey(sig);
    if Accepts(c, w.cor, sig, w.now) {
      if key !in w.cor.entries || !Open(w.cor.entries[key]) {
        OlderThanOpening(c, w, key);
      } else {
        OpenedBefore(c, w, key);
      }
      forall k, reason | k in w'.cor.entries
        ensures SeenAt(w'.cor.entries[k], reason)
             == LastAccepted(w'.accepted, k, reason, w'.cor.entries[k].incident.openedAt)
      {
        LastAppend(w.accepted, Acceptance(key, sig, w.now), k, reason, w'.cor.entries[k].incident.openedAt);
        if k == key && (key !in w.cor.entries || !Open(w.cor.entries[key])) {
          NoneSince(w.accepted, key, reason, w.now);
        }
      }
    }
  }

  lemma OpenedBefore(c: Config, w: World, key: string)
    requires TimeInv(c, w) && key in w.cor.entries
    ensures w.cor.entries[key].incident.openedAt <= w.now
  {
    assert Timely(c, w.cor.entries[key], w.now);
  }

  lemma {:induction false} ResolveKeepsEntries(c: Config, s: State, order: seq<string>, now: int)
    ensures var entries := ResolvedAll(c, s, order, now).entries;
            && entries.Keys == s.entries.Keys
            && forall key <- s.entries ::
                 && entries[key].seenReasons == s.entries[key].seenReasons
                 && entries[key].incident.openedAt == s.entries[key].incident.openedAt
  {
    hide Stale;
    if order != [] {
      ResolveKeepsEntries(c, s, order[..|order| - 1], now);
    }
  }

  lemma {:induction false} RunKeepsSeen(c: Config, run: seq<World>, i: nat)
    requires ValidConfig(c) && IsRun(c, run) && i < |run|
    ensures SeenIsLast(run[i])
  {
    hide Processed, TimeInv, StoreInv, EventInv, QueueInv, SeverityInv, KeyedInv, SeenIsLast, ResolvedAll;
    if i == 0 {
      NothingSeen(run[0]);
    } else {
      RunKeepsSeen(c, run, i - 1);
      RunKeepsInv(c, run, i - 1);
      var w, w' := run[i - 1], run[i];
      assert Next(c, w, w');
      if sig, id :| Receive(c, w, w', sig, id) {
        ReceiveKeepsSeen(c, w, w', sig, id);
      } else if order :| Resolve(c, w, w', order) {
        ResolveKeepsEntries(c, w.cor, order, w.now);
        SameSeen(w, w');
      } else if records :| Restart(w, w', records) {
        RestartRebuildsOpenIncidents(w, w', records);
        NothingRemembered(w');
      } else if FailedRestart(w, w') {
        NothingSeen(w');
      } else {
        SameSeen(w, w');
      }
    }
  }

  lemma NothingSeen(w: World)
    requires w.cor.entries == map[]
    ensures SeenIsLast(w)
  {}

  lemma NothingRemembered(w: World)
    requires w.accepted == [] && forall key <- w.cor.entries :: w.cor.entries[key].seenReasons == map[]
    ensures SeenIsLast(w)
  {}

  lemma SameSeen(w: World, w': World)
    requires SeenIsLast(w) && w'.accepted == w.accepted && w'.cor.entries.Keys == w.cor.entries.Keys
    requires forall key <- w.cor.entries ::
               && w'.cor.entries[key].seenReasons == w.cor.entries[key].seenReasons
               && w'.cor.entries[key].incident.openedAt == w.cor.entries[key].incident.openedAt
    ensures SeenIsLast(w')
  {}

  lemma {:induction false} LastIsAccepted(accepted: seq<Acceptance>, key: string, reason: string, from: int)
    requires LastAccepted(accepted, key, reason, from).Some?
    ensures exists a <- accepted ::
              && a.key == key && a.sig.reason == reason && a.at >= from
              && a.at == LastAccepted(accepted, key, reason, from).value
  {
    var last := accepted[|accepted| - 1];
    if !(last.key == key && last.sig.reason == reason && last.at >= from) {
      LastIsAccepted(accepted[..|accepted| - 1], key, reason, from);
    }
  }

  /** A dropped signal changes nothing, any other emits an event. */
  lemma DroppedIsIgnored(c: Config, s: State, sig: Signal, now: int)
    ensures forall id :: Processed(c, s, sig, now, id) == s <==> !Accepts(c, s, sig, now)
  {
    hide CorrelationKey, Fresh, Reopened, Extended;
    assert forall s', e, key, kind :: Written(s', key, e, kind).attempted == s'.attempted + [Event(kind, e.incident)];
  }

  /** A signal is dropped exactly if its incident is open and a signal with the same key and reason was accepted
      within the dedup window, by this process and since the incident was opened or reopened. */
  lemma DroppedIff(c: Config, run: seq<World>, i: nat, sig: Signal)
    requires ValidConfig(c) && IsRun(c, run) && i < |run|
    ensures var (w, key) := (run[i], CorrelationKey(sig));
            !Accepts(c, w.cor, sig, w.now) <==>
              && key in w.cor.entries && w.cor.entries[key].incident.resolvedAt == None
              && exists a <- w.accepted ::
                   && a.key == key && a.sig.reason == sig.reason
                   && a.at >= w.cor.entries[key].incident.openedAt && w.now - a.at < c.dedupWindow
    ensures forall id ::
              Processed(c, run[i].cor, sig, run[i].now, id) == run[i].cor <==> !Accepts(c, run[i].cor, sig, run[i].now)
  {
    DroppedIsIgnored(c, run[i].cor, sig, run[i].now);
    hide IsRun, StoreInv, EventInv, QueueInv, SeverityInv, KeyedInv, LastAccepted, CorrelationKey;
    RunKeepsInv(c, run, i);
    RunKeepsSeen(c, run, i);
    var w, key := run[i], CorrelationKey(sig);
    if key in w.cor.entries && Open(w.cor.entries[key]) {
      var e := w.cor.entries[key];
      assert SeenAt(e, sig.reason) == LastAccepted(w.accepted, key, sig.reason, e.incident.openedAt);
      if sig.reason in e.seenReasons {
        LastIsAccepted(w.accepted, key, sig.reason, e.incident.openedAt);
      }
      forall a | a in w.accepted && a.key == key && a.sig.reason == sig.reason && a.at >= e.incident.openedAt
        ensures sig.reason in e.seenReasons && a.at <= e.seenReasons[sig.reason]
      {
        var j :| 0 <= j < |w.accepted| && w.accepted[j] == a;
        assert Remembers(c, e, a);
      }
    }
  }

  /** How many signals with this key and reason were accepted in the interval. */
  function CountAccepted(accepted: seq<Acceptance>, key: string, reason: string, from: int, to: int): nat {
    if accepted == [] then 0
    else
      var last := accepted[|accepted| - 1];
      CountAccepted(accepted[..|accepted| - 1], key, reason, from, to)
      + if last.key == key && last.sig.reason == reason && from <= last.at <= to then 1 else 0
  }

  /** n accepted signals need n - 1 dedup windows. */
  lemma {:induction false} AcceptedNeedTime(
      c: Config, accepted: seq<Acceptance>, key: string, reason: string, from: int, to: int) returns (last: nat)
    requires DedupSpaced(c, accepted) && CountAccepted(accepted, key, reason, from, to) > 0
    ensures last < |accepted| && accepted[last].key == key && accepted[last].sig.reason == reason
    ensures from + (CountAccepted(accepted, key, reason, from, to) - 1) * c.dedupWindow <= accepted[last].at <= to
  {
    var front, x := accepted[..|accepted| - 1], accepted[|accepted| - 1];
    var before := CountAccepted(front, key, reason, from, to);
    if before > 0 {
      var w := AcceptedNeedTime(c, front, key, reason, from, to);
      last := w;
      if x.key == key && x.sig.reason == reason && from <= x.at <= to {
        assert SameReason(accepted[w], x);
        last := |accepted| - 1;
        Distribute(before, c.dedupWindow);
      }
    } else {
      last := |accepted| - 1;
    }
  }

  lemma Distribute(n: nat, d: int)
    ensures n * d == (n - 1) * d + d
  {}

  /** At most span / dedupWindow + 1 signals per key and reason in any span of one process life. */
  lemma AcceptanceRateIsBounded(c: Config, run: seq<World>, i: nat, key: string, reason: string, from: int, span: nat)
    requires ValidConfig(c) && 0 < c.dedupWindow <= c.resolveWindow
    requires IsRun(c, run) && i < |run|
    ensures CountAccepted(run[i].accepted, key, reason, from, from + span) <= span / c.dedupWindow + 1
  {
    hide IsRun, CountAccepted;
    RunKeepsSpacing(c, run, i);
    var n := CountAccepted(run[i].accepted, key, reason, from, from + span);
    if n > 0 {
      var last := AcceptedNeedTime(c, run[i].accepted, key, reason, from, from + span);
      Divides(n - 1, c.dedupWindow, span);
    }
  }

  lemma Divides(n: nat, d: nat, span: nat)
    requires d > 0 && n * d <= span
    ensures n <= span / d
  {
    var q := span / d;
    assert span < (q + 1) * d;
    CancelFactor(n, q + 1, d);
  }

  lemma CancelFactor(a: nat, b: nat, d: nat)
    requires a * d < b * d
    ensures a < b
  {}

  ghost predicate SlashFree(s: string) { '/' !in s }

  /** The namespace a key stands for: no namespace and the namespace "cluster" are the same. */
  function KeyNamespace(sig: Signal): string { if sig.namespace == "" then "cluster" else sig.namespace }

  /** For namespaces without a slash, as Kubernetes has them, two signals meet in one incident exactly
      when they are about the same resource in the same namespace. */
  lemma KeysSeparateResources(a: Signal, b: Signal)
    requires SlashFree(a.namespace) && SlashFree(b.namespace)
    ensures CorrelationKey(a) == CorrelationKey(b) <==> KeyNamespace(a) == KeyNamespace(b) && a.resource == b.resource
  {
    var m, n := KeyNamespace(a), KeyNamespace(b);
    assert CorrelationKey(a) == m + "/" + a.resource && CorrelationKey(b) == n + "/" + b.resource by {
      assert "cluster/" == "cluster" + "/";
      assert "cluster/" + a.resource == "cluster" + "/" + a.resource
          && "cluster/" + b.resource == "cluster" + "/" + b.resource;
    }
    if CorrelationKey(a) == CorrelationKey(b) {
      SameSplit(m, a.resource, n, b.resource);
    }
  }

  lemma SameSplit(m: string, r: string, n: string, q: string)
    requires SlashFree(m) && SlashFree(n) && m + "/" + r == n + "/" + q
    ensures m == n && r == q
  {
    var whole := m + "/" + r;
    assert whole[|m|] == '/' && whole[|n|] == '/';
    assert forall k :: 0 <= k < |m| ==> whole[k] == m[k];
    assert forall k :: 0 <= k < |n| ==> whole[k] == n[k];
    assert whole[..|m|] == m && whole[..|n|] == n;
    assert whole[|m| + 1..] == r && whole[|n| + 1..] == q;
  }
}
