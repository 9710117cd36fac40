/** The in-memory audit log and reading it in pages while it grows. */
module AuditLogs {
  import opened Contracts

  datatype AuditEvent = AuditEvent(timestamp: int, traceId: string, incidentId: string, stage: string, outcome: string)

  /** "" and None restrict nothing; neither does a limit or an offset that is not positive. */
  datatype QueryFilter = QueryFilter(
    incidentId: string, traceId: string, stage: string, since: Option<int>, until: Option<int>, limit: int, offset: int)
  {
    predicate Matches(ev: AuditEvent) {
      && (incidentId == "" || ev.incidentId == incidentId)
      && (traceId == "" || ev.traceId == traceId)
      && (stage == "" || ev.stage == stage)
      && (since == None || ev.timestamp >= since.value)
      && (until == None || ev.timestamp <= until.value)
    }
  }

  function Matching(events: seq<AuditEvent>, f: QueryFilter): seq<AuditEvent> {
    if events == [] then []
    else
      var last := events[|events| - 1];
      Matching(events[..|events| - 1], f) + if f.Matches(last) then [last] else []
  }

  /** Where a page starts and ends in a list of n matches. */
  function From(n: nat, offset: int): (i: nat) { if offset <= 0 then 0 else if offset < n then offset else n }

  function To(n: nat, offset: int, limit: int): (i: nat)
    ensures From(n, offset) <= i <= n
  {
    if limit > 0 && From(n, offset) + limit < n then From(n, offset) + limit else n
  }

  function Page(matches: seq<AuditEvent>, offset: int, limit: int): seq<AuditEvent> {
    matches[From(|matches|, offset)..To(|matches|, offset, limit)]
  }

  /** One more match is skipped, or joins the page. */
  lemma PageStep(matches: seq<AuditEvent>, ev: AuditEvent, offset: int, limit: int)
    requires limit > 0 ==> |Page(matches, offset, limit)| < limit
    ensures var skipped := From(|matches|, offset);
            if skipped < offset
            then Page(matches + [ev], offset, limit) == Page(matches, offset, limit) == []
                 && From(|matches| + 1, offset) == skipped + 1
            else Page(matches + [ev], offset, limit) == Page(matches, offset, limit) + [ev]
                 && From(|matches| + 1, offset) == skipped
  {}

  /** What a filter asks for: each text that is given is equal, and the time lies in the closed interval. */
  ghost predicate Wanted(f: QueryFilter, ev: AuditEvent) {
    && f.incidentId in {"", ev.incidentId} && f.traceId in {"", ev.traceId} && f.stage in {"", ev.stage}
    && (f.since.Some? ==> f.since.value <= ev.timestamp)
    && (f.until.Some? ==> ev.timestamp <= f.until.value)
  }

  /** The matches are exactly the wanted events. */
  lemma {:induction false} AllMatchesWanted(events: seq<AuditEvent>, f: QueryFilter)
    ensures forall ev :: ev in Matching(events, f) <==> ev in events && Wanted(f, ev)
  {
    if events != [] {
      var front, last := events[..|events| - 1], events[|events| - 1];
      AllMatchesWanted(front, f);
      assert events == front + [last];
      assert f.Matches(last) <==> Wanted(f, last);
    }
  }

  lemma PageHoldsWanted(events: seq<AuditEvent>, f: QueryFilter)
    ensures var page := Page(Matching(events, f), f.offset, f.limit);
            && (forall ev <- page :: ev in events && Wanted(f, ev))
            && (f.limit <= 0 && f.offset <= 0 ==> forall ev <- events :: Wanted(f, ev) ==> ev in page)
  {
    hide Matching, Wanted;
    AllMatchesWanted(events, f);
  }

  class MemorySink {
    var events: seq<AuditEvent>

    constructor ()
      ensures events == []
    {
      events := [];
    }

    method Record(ev: AuditEvent)
      modifies this
      ensures events == old(events) + [ev]
    {
      events := events + [ev];
    }

    method Query(f: QueryFilter) returns (out: seq<AuditEvent>)
      ensures out == Page(Matching(events, f), f.offset, f.limit)
      ensures forall ev <- out :: ev in events && Wanted(f, ev)
      ensures f.limit <= 0 && f.offset <= 0 ==> forall ev <- events :: Wanted(f, ev) ==> ev in out
    {
      hide Wanted;
      PageHoldsWanted(events, f);
      out := [];
      var skipped := 0;
      var i := 0;
      while i < |events|
        invariant i <= |events|
        invariant skipped == From(|Matching(events[..i], f)|, f.offset)
        invariant out == Page(Matching(events[..i], f), f.offset, f.limit)
        invariant f.limit > 0 ==> |out| < f.limit
      {
        var ev := events[i];
        ghost var before := Matching(events[..i], f);
        assert events[..i + 1][..i] == events[..i];
        i := i + 1;
        if f.Matches(ev) {
          assert Matching(events[..i], f) == before + [ev];
          PageStep(before, ev, f.offset, f.limit);
          if skipped < f.offset {
            skipped := skipped + 1;
          } else {
            out := out + [ev];
            if f.limit > 0 && |out| >= f.limit {
              PageIsFinal(events, i, f);
              return;
            }
          }
        }
      }
      assert events[..i] == events;
    }
  }

  /** A log that grows only adds matches at the end. */
  lemma {:induction false} MatchingGrows(events: seq<AuditEvent>, i: nat, f: QueryFilter)
    requires i <= |events|
    ensures Matching(events[..i], f) <= Matching(events, f)
  {
    if i < |events| {
      var front := events[..|events| - 1];
      MatchingGrows(front, i, f);
      assert front[..i] == events[..i];
    } else {
      assert events[..i] == events;
    }
  }

  lemma PageIsFinal(events: seq<AuditEvent>, i: nat, f: QueryFilter)
    requires i <= |events| && f.limit > 0 && |Page(Matching(events[..i], f), f.offset, f.limit)| == f.limit
    ensures Page(Matching(events, f), f.offset, f.limit) == Page(Matching(events[..i], f), f.offset, f.limit)
  {
    MatchingGrows(events, i, f);
  }

  // Pages at offsets 0, L, 2L, ... of the logs logs[0] <= logs[1] <= ...

  ghost predicate Growing(logs: seq<seq<AuditEvent>>) {
    forall i, j :: 0 <= i <= j < |logs| ==> logs[i] <= logs[j]
  }

  function PageOf(log: seq<AuditEvent>, f: QueryFilter, size: nat, k: nat): seq<AuditEvent> {
    Page(Matching(log, f), k * size, size)
  }

  function Pages(logs: seq<seq<AuditEvent>>, f: QueryFilter, size: nat): seq<AuditEvent> {
    if logs == [] then []
    else Pages(logs[..|logs| - 1], f, size) + PageOf(logs[|logs| - 1], f, size, |logs| - 1)
  }

  /** The client asks for another page only after a full one. */
  ghost predicate AllFull(logs: seq<seq<AuditEvent>>, f: QueryFilter, size: nat) {
    forall k: nat :: k < |logs| ==> |PageOf(logs[k], f, size, k)| == size
  }

  lemma GrowingMatches(logs: seq<seq<AuditEvent>>, i: nat, j: nat, f: QueryFilter)
    requires Growing(logs) && i <= j < |logs|
    ensures Matching(logs[i], f) <= Matching(logs[j], f)
  {
    MatchingGrows(logs[j], |logs[i]|, f);
    assert logs[j][..|logs[i]|] == logs[i];
  }

  lemma {:induction false} FullPages(logs: seq<seq<AuditEvent>>, f: QueryFilter, size: nat, now: seq<AuditEvent>)
    requires size > 0 && Growing(logs + [now]) && AllFull(logs, f, size)
    ensures |logs| * size <= |Matching(now, f)| && Pages(logs, f, size) == Matching(now, f)[..|logs| * size]
  {
    hide Matching, Page;
    if logs != [] {
      var n := |logs| - 1;
      var front, last := logs[..n], logs[n];
      assert front + [last] == (logs + [now])[..n + 1] && logs[n] == last;
      assert forall k: nat :: k < n ==> front[k] == logs[k];
      FullPages(front, f, size, last);
      GrowingMatches(logs + [now], n, n + 1, f);
      PageEnds(Matching(last, f), size, n);
      PrefixSplits(Matching(now, f), Matching(last, f), n * size, (n + 1) * size);
    }
  }

  lemma PrefixSplits(whole: seq<AuditEvent>, part: seq<AuditEvent>, i: nat, j: nat)
    requires part <= whole && i <= j <= |part|
    ensures whole[..j] == part[..i] + part[i..j]
  {}

  lemma PageEnds(matches: seq<AuditEvent>, size: nat, k: nat)
    requires size > 0
    ensures 0 <= k * size && (k + 1) * size == k * size + size
    ensures |Page(matches, k * size, size)| == size ==>
              (k + 1) * size <= |matches| && Page(matches, k * size, size) == matches[k * size..(k + 1) * size]
    ensures |Page(matches, k * size, size)| < size && k * size <= |matches| ==>
              Page(matches, k * size, size) == matches[k * size..]
  {}

  /** Reading on after full pages and stopping at the first short one yields every match of the log as it
      is at the end, once and in order, however much was recorded between two pages. */
  lemma PagesAreTheLog(logs: seq<seq<AuditEvent>>, f: QueryFilter, size: nat, last: seq<AuditEvent>)
    requires size > 0 && Growing(logs + [last]) && AllFull(logs, f, size)
    requires |PageOf(last, f, size, |logs|)| < size
    ensures Pages(logs + [last], f, size) == Matching(last, f)
  {
    hide Matching;
    FullPages(logs, f, size, last);
    PageEnds(Matching(last, f), size, |logs|);
    assert (logs + [last])[..|logs|] == logs;
  }

  // A client that reads on after a short page.

  /** Page k returns the p-th match. */
  ghost predicate Returns(logs: seq<seq<AuditEvent>>, f: QueryFilter, size: nat, k: nat, p: nat) {
    k < |logs| && var n := |Matching(logs[k], f)|; From(n, k * size) <= p < To(n, k * size, size)
  }

  ghost predicate Returned(logs: seq<seq<AuditEvent>>, f: QueryFilter, size: nat, p: nat) {
    exists k: nat :: Returns(logs, f, size, k, p)
  }

  /** Some page is short, and a later one is not empty. */
  ghost predicate ReadsOnAfterShortPage(logs: seq<seq<AuditEvent>>, f: QueryFilter, size: nat) {
    exists j: nat, k: nat :: j < k < |logs| && |PageOf(logs[j], f, size, j)| < size && PageOf(logs[k], f, size, k) != []
  }

  lemma ReturnsWithin(logs: seq<seq<AuditEvent>>, f: QueryFilter, size: nat, k: nat, p: nat)
    requires size > 0 && k < |logs|
    ensures 0 <= k * size
    ensures Returns(logs, f, size, k, p) <==> k * size <= p < k * size + size && p < |Matching(logs[k], f)|
  {
    hide Matching;
    PageEnds(Matching(logs[k], f), size, k);
  }

  /** No match is returned twice, whatever the client does. */
  lemma PagesNeverRepeat(logs: seq<seq<AuditEvent>>, f: QueryFilter, size: nat, j: nat, k: nat, p: nat)
    requires size > 0 && Returns(logs, f, size, j, p) && Returns(logs, f, size, k, p)
    ensures j == k
  {
    hide Returns;
    WithinLogs(logs, f, size, j, p);
    WithinLogs(logs, f, size, k, p);
    ReturnsWithin(logs, f, size, j, p);
    ReturnsWithin(logs, f, size, k, p);
    Multiples(j, k, size);
    Multiples(k, j, size);
  }

  lemma WithinLogs(logs: seq<seq<AuditEvent>>, f: QueryFilter, size: nat, k: nat, p: nat)
    requires Returns(logs, f, size, k, p)
    ensures k < |logs|
  {}

  lemma {:induction false} Multiples(j: nat, k: nat, size: nat)
    ensures 0 <= j * size && (j < k ==> j * size + size <= k * size)
  {
    if j < k {
      Multiples(j, k - 1, size);
      assert k * size == (k - 1) * size + size;
    }
  }

  /** Matches are skipped exactly if the client reads on after a short page and finds something. */
  lemma PagesSkipIff(logs: seq<seq<AuditEvent>>, f: QueryFilter, size: nat)
    requires size > 0
    ensures (exists p: nat, q: nat :: q < p && Returned(logs, f, size, p) && !Returned(logs, f, size, q))
       <==> ReadsOnAfterShortPage(logs, f, size)
  {
    hide Returned, Returns, Matching, PageOf;
    if j: nat, k: nat :| j < k < |logs| && |PageOf(logs[j], f, size, j)| < size && PageOf(logs[k], f, size, k) != [] {
      var p, q := ShortPageSkips(logs, f, size, j, k);
    }
    if p: nat, q: nat :| q < p && Returned(logs, f, size, p) && !Returned(logs, f, size, q) {
      SkipMeansShortPage(logs, f, size, p, q);
    }
  }

  /** Only page j could return a match between its bounds. */
  lemma OnlyPage(logs: seq<seq<AuditEvent>>, f: QueryFilter, size: nat, j: nat, q: nat)
    requires size > 0 && j < |logs| && |Matching(logs[j], f)| <= q && j * size <= q < j * size + size
    ensures !Returned(logs, f, size, q)
  {
    hide Matching, Returns;
    forall i: nat
      ensures !Returns(logs, f, size, i, q)
    {
      if Returns(logs, f, size, i, q) {
        WithinLogs(logs, f, size, i, q);
        ReturnsWithin(logs, f, size, i, q);
        Multiples(i, j, size);
        Multiples(j, i, size);
        assert false;
      }
    }
  }

  lemma PageBounds(logs: seq<seq<AuditEvent>>, f: QueryFilter, size: nat, k: nat)
    requires size > 0 && k < |logs|
    ensures 0 <= k * size
    ensures |PageOf(logs[k], f, size, k)| < size <==> |Matching(logs[k], f)| < k * size + size
    ensures PageOf(logs[k], f, size, k) != [] <==> k * size < |Matching(logs[k], f)|
  {
    hide Matching;
    PageEnds(Matching(logs[k], f), size, k);
  }

  lemma ShortPageSkips(logs: seq<seq<AuditEvent>>, f: QueryFilter, size: nat, j: nat, k: nat) returns (p: nat, q: nat)
    requires size > 0
    requires j < k < |logs| && |PageOf(logs[j], f, size, j)| < size && PageOf(logs[k], f, size, k) != []
    ensures q < p && Returned(logs, f, size, p) && !Returned(logs, f, size, q)
  {
    hide Returns, Matching, PageOf;
    PageBounds(logs, f, size, j);
    PageBounds(logs, f, size, k);
    Multiples(j, k, size);
    p, q := k * size, if |Matching(logs[j], f)| > j * size then |Matching(logs[j], f)| else j * size;
    ReturnsWithin(logs, f, size, k, p);
    OnlyPage(logs, f, size, j, q);
  }

  lemma SkipMeansShortPage(logs: seq<seq<AuditEvent>>, f: QueryFilter, size: nat, p: nat, q: nat)
    requires size > 0 && q < p && Returned(logs, f, size, p) && !Returned(logs, f, size, q)
    ensures ReadsOnAfterShortPage(logs, f, size)
  {
    hide Returns, Matching, PageOf;
    var k: nat :| Returns(logs, f, size, k, p);
    WithinLogs(logs, f, size, k, p);
    ReturnsWithin(logs, f, size, k, p);
    ReturnsWithin(logs, f, size, k, q);
    var j := PageNumber(q, size);
    assert !Returns(logs, f, size, k, q);
    Multiples(k, j, size);
    ReturnsWithin(logs, f, size, j, q);
    PageBounds(logs, f, size, j);
    PageBounds(logs, f, size, k);
  }

  lemma {:induction false} PageNumber(q: nat, size: nat) returns (j: nat)
    requires size > 0
    ensures j * size <= q < j * size + size
  {
    j := 0;
    while j * size + size <= q
      invariant j * size <= q
      decreases q - j * size
    {
      assert (j + 1) * size == j * size + size;
      j := j + 1;
    }
  }
}
