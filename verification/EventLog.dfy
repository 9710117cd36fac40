/** Sorted logs of integer times, and counting in them. */
module EventLog {
  ghost predicate Sorted(s: seq<int>) {
    forall i, j :: 0 <= i < j < |s| ==> s[i] <= s[j]
  }

  /** How many elements lie strictly above the limit. */
  function CountAbove(s: seq<int>, limit: int): nat {
    if s == [] then 0 else CountAbove(s[..|s| - 1], limit) + if s[|s| - 1] > limit then 1 else 0
  }

  /** How many elements lie in the closed interval. */
  function CountIn(s: seq<int>, from: int, to: int): nat {
    if s == [] then 0 else CountIn(s[..|s| - 1], from, to) + if from <= s[|s| - 1] <= to then 1 else 0
  }

  function InsertSorted(s: seq<int>, x: int): seq<int> {
    if s == [] || s[|s| - 1] <= x then s + [x] else InsertSorted(s[..|s| - 1], x) + [s[|s| - 1]]
  }

  /** An interval shorter than `gap` holds at most `lag` elements. */
  ghost predicate Sparse(s: seq<int>, lag: nat, gap: int) {
    forall from, to :: to - from < gap ==> CountIn(s, from, to) <= lag
  }

  /** The elements at the indices to keep. */
  function Kept(s: seq<int>, keep: set<nat>): seq<int> {
    if s == [] then []
    else
      var n := |s| - 1;
      Kept(s[..n], keep) + if n in keep then [s[n]] else []
  }

  /** A number, for quantifiers over numbers. */
  ghost predicate Number(n: nat) { true }

  ghost function Range(from: nat, to: nat): set<nat> { set n: nat {:trigger Number(n)} | from <= n < to && Number(n) }

  /** The indices of the elements in the closed interval. */
  ghost function Within(s: seq<int>, from: int, to: int): set<nat> {
    set i: nat | i < |s| && from <= s[i] <= to
  }

  lemma AllAbove(s: seq<int>, limit: int)
    requires forall i :: 0 <= i < |s| ==> s[i] > limit
    ensures CountAbove(s, limit) == |s|
  {}

  lemma NoneAbove(s: seq<int>, limit: int)
    requires forall i :: 0 <= i < |s| ==> s[i] <= limit
    ensures CountAbove(s, limit) == 0
  {}

  lemma CountAboveAppend(s: seq<int>, x: int, limit: int)
    ensures CountAbove(s + [x], limit) == CountAbove(s, limit) + if x > limit then 1 else 0
  {
    assert (s + [x])[..|s|] == s;
  }

  lemma {:induction false} CountAboveConcat(s: seq<int>, t: seq<int>, limit: int)
    ensures CountAbove(s + t, limit) == CountAbove(s, limit) + CountAbove(t, limit)
  {
    if t == [] {
      assert s + t == s;
    } else {
      assert s + t == s + t[..|t| - 1] + [t[|t| - 1]];
      CountAboveAppend(s + t[..|t| - 1], t[|t| - 1], limit);
      CountAboveConcat(s, t[..|t| - 1], limit);
    }
  }

  lemma CountAboveAtMostLength(s: seq<int>, limit: int)
    ensures CountAbove(s, limit) <= |s|
  {}

  lemma CountAboveAntitone(s: seq<int>, low: int, high: int)
    requires low <= high
    ensures CountAbove(s, high) <= CountAbove(s, low)
  {}

  lemma {:induction false} InsertSortedFits(s: seq<int>, x: int)
    requires Sorted(s)
    ensures |InsertSorted(s, x)| == |s| + 1 && Sorted(InsertSorted(s, x))
    ensures InsertSorted(s, x)[|s|] == if s == [] || s[|s| - 1] <= x then x else s[|s| - 1]
  {
    if s != [] && s[|s| - 1] > x {
      InsertSortedFits(s[..|s| - 1], x);
    }
  }

  lemma {:induction false} InsertSortedCounts(s: seq<int>, x: int, limit: int)
    ensures CountAbove(InsertSorted(s, x), limit) == CountAbove(s, limit) + if x > limit then 1 else 0
  {
    if s == [] || s[|s| - 1] <= x {
      CountAboveAppend(s, x, limit);
    } else {
      InsertSortedCounts(s[..|s| - 1], x, limit);
      CountAboveAppend(InsertSorted(s[..|s| - 1], x), s[|s| - 1], limit);
    }
  }

  lemma CountInIsAbove(s: seq<int>, from: int, to: int)
    requires forall i :: 0 <= i < |s| ==> s[i] <= to
    ensures CountIn(s, from, to) == CountAbove(s, from - 1)
  {}

  lemma CountInAppend(s: seq<int>, x: int, from: int, to: int)
    ensures CountIn(s + [x], from, to) == CountIn(s, from, to) + if from <= x <= to then 1 else 0
  {
    assert (s + [x])[..|s|] == s;
  }

  lemma CountInAtMostAbove(s: seq<int>, from: int, to: int, limit: int)
    requires limit < from
    ensures CountIn(s, from, to) <= CountAbove(s, limit)
  {}

  /** A newest element, no older than any, is crowded only by those that are near. */
  lemma AppendSparse(s: seq<int>, x: int, lag: nat, gap: int)
    requires Sparse(s, lag, gap) && CountAbove(s + [x], x - gap) <= lag
    ensures Sparse(s + [x], lag, gap)
  {
    hide CountIn, CountAbove;
    forall from, to | to - from < gap
      ensures CountIn(s + [x], from, to) <= lag
    {
      CountInAppend(s, x, from, to);
      if from <= x <= to {
        CountInAtMostAbove(s + [x], from, to, x - gap);
      }
    }
  }

  // Parts of a log.

  lemma {:induction false} RangeCount(from: nat, to: nat)
    ensures |Range(from, to)| == if from <= to then to - from else 0
  {
    if from < to {
      RangeCount(from, to - 1);
      assert Range(from, to) == Range(from, to - 1) + {to - 1};
    } else {
      assert Range(from, to) == {};
    }
  }

  lemma KeptLast(s: seq<int>, keep: set<nat>)
    requires s != []
    ensures var front, n := s[..|s| - 1], |s| - 1;
            Kept(s, keep) == if n in keep then Kept(front, keep) + [s[n]] else Kept(front, keep)
  {}

  lemma {:induction false} KeptSame(s: seq<int>, k1: set<nat>, k2: set<nat>)
    requires forall i: nat :: i < |s| ==> (i in k1 <==> i in k2)
    ensures Kept(s, k1) == Kept(s, k2)
  {
    if s != [] {
      KeptSame(s[..|s| - 1], k1, k2);
    }
  }

  lemma KeptAppend(s: seq<int>, x: int, keep: set<nat>)
    ensures Kept(s + [x], keep) == Kept(s, keep) + if |s| in keep then [x] else []
    ensures Kept(s + [x], keep + {|s|}) == Kept(s, keep) + [x]
  {
    assert (s + [x])[..|s|] == s;
    KeptSame(s, keep, keep + {|s|});
  }

  lemma {:induction false} KeptAtMost(s: seq<int>, keep: set<nat>, top: int)
    requires forall i :: 0 <= i < |s| ==> s[i] <= top
    ensures forall i :: 0 <= i < |Kept(s, keep)| ==> Kept(s, keep)[i] <= top
  {
    if s != [] {
      KeptAtMost(s[..|s| - 1], keep, top);
    }
  }

  /** What is kept here is kept there or lies below the limit. */
  lemma {:induction false} KeptAbove(s: seq<int>, k1: set<nat>, k2: set<nat>, limit: int)
    requires forall i <- k1 :: i < |s| ==> i in k2 || s[i] <= limit
    ensures CountAbove(Kept(s, k1), limit) <= CountAbove(Kept(s, k2), limit)
  {
    hide CountAbove;
    if s != [] {
      var front, n := s[..|s| - 1], |s| - 1;
      KeptAbove(front, k1, k2, limit);
      KeptLast(s, k1);
      KeptLast(s, k2);
      CountAboveAppend(Kept(front, k1), s[n], limit);
      CountAboveAppend(Kept(front, k2), s[n], limit);
    }
  }

  lemma {:induction false} KeptOneMore(s: seq<int>, keep: set<nat>, k: nat, limit: int)
    requires k < |s|
    ensures CountAbove(Kept(s, keep + {k}), limit) <= CountAbove(Kept(s, keep), limit) + if s[k] > limit then 1 else 0
  {
    hide CountAbove;
    var front, n := s[..|s| - 1], |s| - 1;
    if k < n {
      KeptOneMore(front, keep, k, limit);
    } else {
      KeptSame(front, keep, keep + {k});
    }
    KeptLast(s, keep + {k});
    KeptLast(s, keep);
    CountAboveAppend(Kept(front, keep + {k}), s[n], limit);
    CountAboveAppend(Kept(front, keep), s[n], limit);
  }

  /** Counting in a part of the log counts indices. */
  lemma {:induction false} CountKept(s: seq<int>, keep: set<nat>, from: int, to: int)
    ensures CountIn(Kept(s, keep), from, to) == |Within(s, from, to) * keep|
  {
    hide CountIn;
    if s == [] {
      CountInNothing(from, to);
      assert Within(s, from, to) * keep == {};
    } else {
      var front, n := s[..|s| - 1], |s| - 1;
      CountKept(front, keep, from, to);
      KeptLast(s, keep);
      CountInAppend(Kept(front, keep), s[n], from, to);
      assert Within(s, from, to) == Within(front, from, to) + if from <= s[n] <= to then {n} else {};
      if from <= s[n] <= to && n in keep {
        assert Within(s, from, to) * keep == Within(front, from, to) * keep + {n};
      } else {
        assert Within(s, from, to) * keep == Within(front, from, to) * keep;
      }
    }
  }

  lemma CountInNothing(from: int, to: int)
    ensures CountIn([], from, to) == 0
  {}

  lemma {:induction false} KeptAll(s: seq<int>, keep: set<nat>)
    requires forall i: nat :: i < |s| ==> i in keep
    ensures Kept(s, keep) == s
  {
    if s != [] {
      KeptAll(s[..|s| - 1], keep);
    }
  }

  /** An interval holds what was kept of it and what was not. */
  lemma CountSplits(s: seq<int>, keep: set<nat>, from: int, to: int)
    ensures CountIn(s, from, to) == CountIn(Kept(s, keep), from, to) + |Within(s, from, to) - keep|
  {
    hide CountIn, Kept;
    var all := Range(0, |s|);
    var here := Within(s, from, to);
    KeptAll(s, all);
    CountKept(s, all, from, to);
    CountKept(s, keep, from, to);
    assert here * all == here;
    assert here == here * keep + (here - keep);
  }

  /** Keeping less leaves a sparse part sparse, for any shorter gap. */
  lemma SparseShrinks(s: seq<int>, k1: set<nat>, k2: set<nat>, lag: nat, gap: int, gap': int)
    requires k1 <= k2 && gap' <= gap && Sparse(Kept(s, k2), lag, gap)
    ensures Sparse(Kept(s, k1), lag, gap')
  {
    hide CountIn, Kept;
    forall from, to | to - from < gap'
      ensures CountIn(Kept(s, k1), from, to) <= lag
    {
      CountKept(s, k1, from, to);
      CountKept(s, k2, from, to);
      Subset(Within(s, from, to) * k1, Within(s, from, to) * k2);
    }
  }

  lemma Subset(small: set<nat>, large: set<nat>)
    requires small <= large
    ensures |small| <= |large|
  {
    assert large == small + (large - small);
  }
}
