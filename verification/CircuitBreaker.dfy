/** The rolling-window limiter on AUTO decisions: a slice of timestamps, evicted lazily. */
module CircuitBreakers {
  import opened EventLog
  import opened Stores

  /** What `evict` leaves: the slice without its longest prefix of timestamps before the cutoff. */
  function Evicted(ts: seq<int>, cutoff: int): seq<int> {
    if ts != [] && ts[0] < cutoff then Evicted(ts[1..], cutoff) else ts
  }

  lemma {:induction false} EvictedIsSuffix(ts: seq<int>, cutoff: int)
    ensures var kept := Evicted(ts, cutoff);
            && |kept| <= |ts| && ts == ts[..|ts| - |kept|] + kept
            && (forall i :: 0 <= i < |ts| - |kept| ==> ts[i] < cutoff)
            && (kept != [] ==> kept[0] >= cutoff)
  {
    if ts != [] && ts[0] < cutoff {
      EvictedIsSuffix(ts[1..], cutoff);
    }
  }

  /** On a sorted slice, eviction keeps exactly the timestamps inside the window. */
  lemma EvictedIsWindow(ts: seq<int>, cutoff: int)
    requires Sorted(ts)
    ensures forall i :: 0 <= i < |ts| ==> (ts[i] >= cutoff <==> i >= |ts| - |Evicted(ts, cutoff)|)
    ensures |Evicted(ts, cutoff)| == CountAbove(ts, cutoff - 1)
  {
    hide Evicted, CountAbove;
    EvictedIsSuffix(ts, cutoff);
    var kept := Evicted(ts, cutoff);
    var dropped := ts[..|ts| - |kept|];
    forall i | |dropped| <= i < |ts|
      ensures ts[i] >= cutoff && kept[i - |dropped|] == ts[i]
    {
      assert ts[|dropped|] == kept[0] && ts[|dropped|] <= ts[i];
    }
    CountAboveConcat(dropped, kept, cutoff - 1);
    NoneAbove(dropped, cutoff - 1);
    assert forall i :: 0 <= i < |kept| ==> kept[i] == ts[i + |dropped|];
    AllAbove(kept, cutoff - 1);
  }

  /** On any slice, sorted or not, eviction loses no timestamp above a limit at or past the cutoff. */
  lemma EvictedKeepsCount(ts: seq<int>, cutoff: int, limit: int)
    requires limit >= cutoff - 1
    ensures CountAbove(Evicted(ts, cutoff), limit) == CountAbove(ts, limit)
  {
    EvictedIsSuffix(ts, cutoff);
    var kept := Evicted(ts, cutoff);
    var dropped := ts[..|ts| - |kept|];
    CountAboveConcat(dropped, kept, limit);
    NoneAbove(dropped, limit);
  }

  datatype BreakerConfig = BreakerConfig(maxActionsPerWindow: int, windowSeconds: int)

  class CircuitBreaker {
    var timestamps: seq<int>
    const max: int
    const window: int
    var store: Store?

    constructor (cfg: BreakerConfig)
      ensures timestamps == [] && store == null
      ensures max == (if cfg.maxActionsPerWindow <= 0 then 5 else cfg.maxActionsPerWindow)
      ensures window == (if cfg.windowSeconds <= 0 then 300_000 else cfg.windowSeconds * 1000)
      ensures max > 0 && window > 0
    {
      timestamps := [];
      store := null;
      max := if cfg.maxActionsPerWindow <= 0 then 5 else cfg.maxActionsPerWindow;
      window := if cfg.windowSeconds <= 0 then 300_000 else cfg.windowSeconds * 1000;
    }

    /** Loads the persisted events after `now - window`; a failed query leaves the slice as it was. */
    method Hydrate(now: int, available: bool)
      requires store != null
      modifies this`timestamps
      ensures timestamps == old(timestamps) + if available then EventsSince(store.breakerEvents, now - window) else []
    {
      if available {
        var loaded := store.LoadCBEvents(now - window);
        timestamps := timestamps + loaded;
      }
    }

    /** The index loop of `evict`. */
    method Evict(now: int)
      modifies this`timestamps
      ensures timestamps == Evicted(old(timestamps), now - window)
    {
      var cutoff := now - window;
      var i := 0;
      while i < |timestamps| && timestamps[i] < cutoff
        invariant i <= |timestamps|
        invariant timestamps == old(timestamps)
        invariant Evicted(timestamps, cutoff) == Evicted(timestamps[i..], cutoff)
      {
        i := i + 1;
      }
      timestamps := timestamps[i..];
    }

    /** True exactly when at least `max` decisions lie in the closed window ending now. */
    method Tripped(now: int) returns (fired: bool)
      modifies this`timestamps
      ensures timestamps == Evicted(old(timestamps), now - window)
      ensures fired == (|timestamps| >= max)
      ensures Sorted(old(timestamps)) ==> fired == (CountAbove(old(timestamps), now - window - 1) >= max)
    {
      Evict(now);
      EvictedIsWindowIfSorted(old(timestamps), now - window);
      fired := |timestamps| >= max;
    }

    method Count(now: int) returns (n: nat)
      modifies this`timestamps
      ensures timestamps == Evicted(old(timestamps), now - window)
      ensures n == |timestamps|
      ensures Sorted(old(timestamps)) ==> n == CountAbove(old(timestamps), now - window - 1)
    {
      Evict(now);
      EvictedIsWindowIfSorted(old(timestamps), now - window);
      n := |timestamps|;
    }

    /** Appends the decision under the lock, then persists it with a second, later clock reading. */
    method Record(now: int, later: int)
      requires now <= later
      modifies this`timestamps, store
      ensures timestamps == old(timestamps) + [now]
      ensures Sorted(old(timestamps)) && (old(timestamps) != [] ==> old(timestamps)[|old(timestamps)| - 1] <= now) ==>
                Sorted(timestamps)
      ensures store != null ==> store.breakerEvents == old(store.breakerEvents) + [later]
      ensures store != null ==> store.incidents == old(store.incidents) && store.approvals == old(store.approvals)
    {
      timestamps := timestamps + [now];
      if store != null {
        store.RecordCBEvent(later);
      }
    }
  }

  lemma EvictedIsWindowIfSorted(ts: seq<int>, cutoff: int)
    ensures Sorted(ts) ==> |Evicted(ts, cutoff)| == CountAbove(ts, cutoff - 1)
  {
    if Sorted(ts) {
      EvictedIsWindow(ts, cutoff);
    }
  }
}
