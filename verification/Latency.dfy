/** Latency matrices, and the search for the subset of nodes with the lowest mean latency. */
module Latency {
  import opened Options

  const MS := 1_000_000
  /** Largest 64-bit duration: "no subset yet". */
  const SENTINEL := 0x7FFF_FFFF_FFFF_FFFF

  const DEFAULT_LOCATION := "default"

  const LOCATIONS: seq<string> := ["node-1", "node-2", "node-3", "node-4", "node-5", "node-6", "node-7"]

  const LATENCIES: seq<seq<int>> := [
    [0, 5 * MS, 10 * MS, 15 * MS, 20 * MS, 25 * MS, 30 * MS],
    [5 * MS, 0, 5 * MS, 10 * MS, 15 * MS, 20 * MS, 25 * MS],
    [10 * MS, 5 * MS, 0, 5 * MS, 10 * MS, 15 * MS, 20 * MS],
    [15 * MS, 10 * MS, 5 * MS, 0, 5 * MS, 10 * MS, 15 * MS],
    [20 * MS, 15 * MS, 10 * MS, 5 * MS, 0, 5 * MS, 10 * MS],
    [25 * MS, 20 * MS, 15 * MS, 10 * MS, 5 * MS, 0, 5 * MS],
    [30 * MS, 25 * MS, 20 * MS, 15 * MS, 10 * MS, 5 * MS, 0]]

  /** Integer division that rounds towards zero. */
  function TruncDiv(a: int, b: int): int
    requires b > 0
  {
    if a >= 0 then a / b else -(-a / b)
  }

  // ---- Means -----------------------------------------------------------------------------------

  /** A square matrix, and indices into it. */
  predicate Square(lm: seq<seq<int>>) {
    forall i :: 0 <= i < |lm| ==> |lm[i]| == |lm|
  }

  predicate Within(lm: seq<seq<int>>, indices: seq<nat>) {
    Square(lm) && forall a :: 0 <= a < |indices| ==> indices[a] < |lm|
  }

  /** Row i of the submatrix up to column m, without the diagonal. */
  function RowSum(lm: seq<seq<int>>, indices: seq<nat>, i: nat, m: nat): int
    requires Within(lm, indices) && i < |lm| && m <= |indices|
  {
    if m == 0 then 0
    else RowSum(lm, indices, i, m - 1) + if indices[m - 1] != i then lm[i][indices[m - 1]] else 0
  }

  /** The first m rows of the submatrix. */
  function Total(lm: seq<seq<int>>, indices: seq<nat>, m: nat): int
    requires Within(lm, indices) && m <= |indices|
  {
    if m == 0 then 0 else Total(lm, indices, m - 1) + RowSum(lm, indices, indices[m - 1], |indices|)
  }

  lemma PairsArePositive(k: nat)
    requires k >= 2
    ensures k * k - k > 0
  {
    assert k * k == k * (k - 1) + k;
  }

  /** Mean off-diagonal latency of a subset, rounded towards zero; 0 for fewer than two indices. */
  function SubsetMean(lm: seq<seq<int>>, indices: seq<nat>): int
    requires Within(lm, indices)
  {
    var k := |indices|;
    if k < 2 then 0
    else
      PairsArePositive(k);
      TruncDiv(Total(lm, indices, k), k * k - k)
  }

  method ComputeSubsetMean(lm: seq<seq<int>>, indices: seq<nat>) returns (mean: int)
    requires Within(lm, indices)
    ensures mean == SubsetMean(lm, indices)
  {
    var k := |indices|;
    if k < 2 {
      return 0;
    }
    var total := 0;
    for a := 0 to k
      invariant total == Total(lm, indices, a)
    {
      var i := indices[a];
      for b := 0 to k
        invariant total == Total(lm, indices, a) + RowSum(lm, indices, i, b)
      {
        if i != indices[b] {
          total := total + lm[i][indices[b]];
        }
      }
    }
    PairsArePositive(k);
    return TruncDiv(total, k * k - k);
  }

  // ---- Enumeration -----------------------------------------------------------------------------

  /** Index subsets that start with `prefix` and go on at `start` or later, in the order of the search. */
  function Combos(prefix: seq<nat>, start: nat, n: nat, k: nat): seq<seq<nat>>
    decreases n + 1 - start
  {
    if |prefix| == k then [prefix]
    else if |prefix| > k || start + (k - |prefix|) > n then []
    else Combos(prefix + [start], start + 1, n, k) + Combos(prefix, start + 1, n, k)
  }

  predicate Increasing(s: seq<nat>) {
    forall i, j :: 0 <= i < j < |s| ==> s[i] < s[j]
  }

  /** A k-subset of 0..n-1, written in increasing order. */
  predicate IsSubset(s: seq<nat>, n: nat, k: nat) {
    |s| == k && Increasing(s) && forall i :: 0 <= i < |s| ==> s[i] < n
  }

  /** The first difference decides. */
  ghost predicate LexLess(a: seq<nat>, b: seq<nat>) {
    exists p :: LexAt(a, b, p)
  }

  ghost predicate LexAt(a: seq<nat>, b: seq<nat>, p: nat) {
    p < |a| && p < |b| && a[..p] == b[..p] && a[p] < b[p]
  }

  ghost predicate InOrder(list: seq<seq<nat>>) {
    forall x, y :: 0 <= x < y < |list| ==> LexLess(list[x], list[y])
  }

  ghost predicate Continues(s: seq<nat>, prefix: seq<nat>, start: nat) {
    prefix <= s && (|prefix| < |s| ==> s[|prefix|] >= start)
  }

  ghost predicate Below(prefix: seq<nat>, start: nat) {
    forall i :: 0 <= i < |prefix| ==> prefix[i] < start
  }

  /** The enumeration holds exactly the k-subsets that continue the prefix. */
  lemma {:induction false} CombosAreTheSubsets(prefix: seq<nat>, start: nat, n: nat, k: nat, s: seq<nat>)
    requires Increasing(prefix) && Below(prefix, start) && |prefix| <= k && start <= n
    ensures s in Combos(prefix, start, n, k) <==> IsSubset(s, n, k) && Continues(s, prefix, start)
    decreases n + 1 - start
  {
    if |prefix| == k {
      assert IsSubset(s, n, k) && Continues(s, prefix, start) ==> s == prefix;
    } else if start + (k - |prefix|) > n {
      if IsSubset(s, n, k) && Continues(s, prefix, start) {
        SubsetsNeedRoom(s, |prefix|, |s| - 1);
        assert false;
      }
    } else {
      CombosAreTheSubsets(prefix + [start], start + 1, n, k, s);
      CombosAreTheSubsets(prefix, start + 1, n, k, s);
      if IsSubset(s, n, k) && Continues(s, prefix, start) {
        assert s[|prefix|] == start ==> prefix + [start] <= s;
      }
      if Continues(s, prefix + [start], start + 1) {
        assert prefix <= prefix + [start] <= s && s[|prefix|] == (prefix + [start])[|prefix|];
      }
    }
  }

  /** Later elements of an increasing list are at least as far apart as their positions. */
  lemma {:induction false} SubsetsNeedRoom(s: seq<nat>, i: nat, j: nat)
    requires Increasing(s) && i <= j < |s|
    ensures s[j] >= s[i] + (j - i)
    decreases j
  {
    if i < j {
      SubsetsNeedRoom(s, i, j - 1);
    }
  }

  /** The enumeration is in strict lexicographic order, so it visits nothing twice. */
  lemma {:induction false} CombosAreOrdered(prefix: seq<nat>, start: nat, n: nat, k: nat)
    requires Increasing(prefix) && Below(prefix, start) && |prefix| <= k && start <= n
    ensures InOrder(Combos(prefix, start, n, k))
    decreases n + 1 - start
  {
    if |prefix| < k && start + (k - |prefix|) <= n {
      var taken, passed := Combos(prefix + [start], start + 1, n, k), Combos(prefix, start + 1, n, k);
      CombosAreOrdered(prefix + [start], start + 1, n, k);
      CombosAreOrdered(prefix, start + 1, n, k);
      forall x, y | 0 <= x < |taken| && 0 <= y < |passed|
        ensures LexLess(taken[x], passed[y])
      {
        TakenFirst(prefix, start, n, k, taken[x], passed[y]);
      }
      OrderedParts(taken, passed);
    }
  }

  lemma TakenFirst(prefix: seq<nat>, start: nat, n: nat, k: nat, a: seq<nat>, b: seq<nat>)
    requires Increasing(prefix) && Below(prefix, start) && |prefix| < k && start < n
    requires a in Combos(prefix + [start], start + 1, n, k) && b in Combos(prefix, start + 1, n, k)
    ensures LexLess(a, b)
  {
    CombosAreTheSubsets(prefix + [start], start + 1, n, k, a);
    CombosAreTheSubsets(prefix, start + 1, n, k, b);
    TakenBeforePassed(prefix, start, a, b);
  }

  lemma TakenBeforePassed(prefix: seq<nat>, start: nat, a: seq<nat>, b: seq<nat>)
    requires Continues(a, prefix + [start], start + 1) && Continues(b, prefix, start + 1) && |prefix| < |b|
    ensures LexLess(a, b)
  {
    assert a[..|prefix| + 1] == prefix + [start];
    assert a[..|prefix|] == a[..|prefix| + 1][..|prefix|] == prefix == b[..|prefix|];
    assert a[|prefix|] == (prefix + [start])[|prefix|];
    assert LexAt(a, b, |prefix|);
  }

  lemma OrderedParts(xs: seq<seq<nat>>, ys: seq<seq<nat>>)
    requires InOrder(xs) && InOrder(ys)
    requires forall x, y :: 0 <= x < |xs| && 0 <= y < |ys| ==> LexLess(xs[x], ys[y])
    ensures InOrder(xs + ys)
  {
  }

  // ---- The best so far -------------------------------------------------------------------------

  /** A subset and its mean; no subset stands with the sentinel. */
  datatype Best = Best(mean: int, subset: seq<nat>)

  function Better(lm: seq<seq<int>>, best: Best, s: seq<nat>): Best
    requires Within(lm, s)
  {
    if SubsetMean(lm, s) < best.mean then Best(SubsetMean(lm, s), s) else best
  }

  predicate AllWithin(lm: seq<seq<int>>, list: seq<seq<nat>>) {
    forall x :: 0 <= x < |list| ==> Within(lm, list[x])
  }

  /** The best after a list of subsets was tried in order. */
  function BestOf(lm: seq<seq<int>>, best: Best, list: seq<seq<nat>>): Best
    requires AllWithin(lm, list)
  {
    if list == [] then best else Better(lm, BestOf(lm, best, list[..|list| - 1]), list[|list| - 1])
  }

  lemma {:induction false} BestOfParts(lm: seq<seq<int>>, best: Best, xs: seq<seq<nat>>, ys: seq<seq<nat>>)
    requires AllWithin(lm, xs) && AllWithin(lm, ys)
    ensures AllWithin(lm, xs + ys) && BestOf(lm, best, xs + ys) == BestOf(lm, BestOf(lm, best, xs), ys)
  {
    if ys == [] {
      assert xs + ys == xs;
    } else {
      var last := |ys| - 1;
      BestOfParts(lm, best, xs, ys[..last]);
      assert (xs + ys)[..|xs + ys| - 1] == xs + ys[..last];
    }
  }

  /** The result is the first subset in the list that reaches the least mean, if any is below the sentinel. */
  lemma {:induction false} BestOfIsFirstLeast(lm: seq<seq<int>>, list: seq<seq<nat>>)
    requires AllWithin(lm, list)
    ensures var best := BestOf(lm, Best(SENTINEL, []), list);
            && (forall x :: 0 <= x < |list| ==> best.mean <= SubsetMean(lm, list[x]))
            && best.mean <= SENTINEL
            && (best.mean < SENTINEL ==>
                  exists x :: FirstWith(lm, list, x, best))
            && (best.mean == SENTINEL ==> best.subset == [])
  {
    if list != [] {
      var last := |list| - 1;
      BestOfIsFirstLeast(lm, list[..last]);
      var before, best := BestOf(lm, Best(SENTINEL, []), list[..last]), BestOf(lm, Best(SENTINEL, []), list);
      forall x | 0 <= x < |list|
        ensures best.mean <= SubsetMean(lm, list[x])
      {
        assert x < last ==> list[..last][x] == list[x];
      }
      if best != before {
        forall y | 0 <= y < last
          ensures SubsetMean(lm, list[y]) > best.mean
        {
          assert list[..last][y] == list[y];
        }
        assert FirstWith(lm, list, last, best);
      } else if best.mean < SENTINEL {
        var x :| FirstWith(lm, list[..last], x, before);
        assert forall y :: 0 <= y < x ==> list[..last][y] == list[y];
        assert FirstWith(lm, list, x, best);
      }
    }
  }

  ghost predicate FirstWith(lm: seq<seq<int>>, list: seq<seq<nat>>, x: nat, best: Best)
    requires AllWithin(lm, list)
  {
    && x < |list| && best == Best(SubsetMean(lm, list[x]), list[x])
    && forall y :: 0 <= y < x ==> SubsetMean(lm, list[y]) > best.mean
  }

  lemma CombosWithin(lm: seq<seq<int>>, prefix: seq<nat>, start: nat, k: nat)
    requires Square(lm) && Increasing(prefix) && Below(prefix, start) && |prefix| <= k && start <= |lm|
    ensures AllWithin(lm, Combos(prefix, start, |lm|, k))
  {
    var list := Combos(prefix, start, |lm|, k);
    forall x | 0 <= x < |list|
      ensures Within(lm, list[x])
    {
      CombosAreTheSubsets(prefix, start, |lm|, k, list[x]);
      assert list[x] in list;
    }
  }

  /** What the search returns for 1 <= k <= n. */
  function BestSubset(lm: seq<seq<int>>, k: nat): Best
    requires Square(lm)
  {
    CombosWithin(lm, [], 0, k);
    BestOf(lm, Best(SENTINEL, []), Combos([], 0, |lm|, k))
  }

  // ---- The search ------------------------------------------------------------------------------

  /** The recursive search, over one shared buffer. */
  class Search {
    const lm: seq<seq<int>>
    const k: nat
    const subset: array<nat>
    var bestMean: int
    var bestSubset: seq<nat>

    constructor (lm: seq<seq<int>>, k: nat)
      ensures this.lm == lm && this.k == k && fresh(subset) && subset.Length == k
      ensures bestMean == SENTINEL && bestSubset == []
    {
      this.lm, this.k := lm, k;
      subset := new nat[k];
      bestMean, bestSubset := SENTINEL, [];
    }

    /** A complete subset in the buffer. */
    method Visit()
      requires Within(lm, subset[..])
      modifies this
      ensures Best(bestMean, bestSubset) == Better(lm, old(Best(bestMean, bestSubset)), subset[..])
    {
      var mean := ComputeSubsetMean(lm, subset[..]);
      if mean < bestMean {
        bestMean := mean;
        bestSubset := subset[..];
      }
    }

    ghost predicate Ready(prefix: seq<nat>, start: nat)
      reads this, subset
    {
      && Square(lm) && subset.Length == k && |prefix| <= k && start <= |lm|
      && subset[..|prefix|] == prefix && Increasing(prefix) && Below(prefix, start)
    }

    /** The best once every subset that continues `prefix` at `start` was tried. */
    ghost function Tried(before: Best, prefix: seq<nat>, start: nat): Best
      reads this
      requires AllWithin(lm, Combos(prefix, start, |lm|, k))
    {
      BestOf(lm, before, Combos(prefix, start, |lm|, k))
    }

    method Enumerate(start: nat, depth: nat)
      requires depth <= subset.Length && Ready(subset[..depth], start)
      modifies this, subset
      ensures subset[..depth] == old(subset[..depth])
      ensures AllWithin(lm, Combos(old(subset[..depth]), start, |lm|, k))
      ensures Best(bestMean, bestSubset) == Tried(old(Best(bestMean, bestSubset)), old(subset[..depth]), start)
      decreases k - depth, 1
    {
      ghost var prefix, before := subset[..depth], Best(bestMean, bestSubset);
      CombosWithin(lm, prefix, start, k);
      if depth == k {
        OnlyOne(lm, before, prefix, start, k);
        assert subset[..] == prefix;
        Visit();
        return;
      }
      var i := start;
      while i + (k - depth) <= |lm|
        invariant i <= |lm| && Ready(prefix, i)
        invariant AllWithin(lm, Combos(prefix, i, |lm|, k))
        invariant Tried(Best(bestMean, bestSubset), prefix, i) == Tried(before, prefix, start)
        decreases |lm| - i
      {
        Take(i, depth, prefix);
        i := i + 1;
      }
    }

    /** One round of the loop. */
    method Take(i: nat, depth: nat, ghost prefix: seq<nat>)
      requires Ready(prefix, i) && |prefix| == depth < k && i + (k - depth) <= |lm|
      requires AllWithin(lm, Combos(prefix, i, |lm|, k))
      modifies this, subset
      ensures Ready(prefix, i + 1) && AllWithin(lm, Combos(prefix, i + 1, |lm|, k))
      ensures Tried(Best(bestMean, bestSubset), prefix, i + 1) == Tried(old(Best(bestMean, bestSubset)), prefix, i)
      decreases k - depth, 0
    {
      OneMore(lm, Best(bestMean, bestSubset), prefix, i, k);
      subset[depth] := i;
      assert subset[..depth + 1] == prefix + [i];
      Enumerate(i + 1, depth + 1);
      assert subset[..depth] == subset[..depth + 1][..depth] == prefix;
    }
  }

  lemma OnlyOne(lm: seq<seq<int>>, best: Best, s: seq<nat>, start: nat, k: nat)
    requires |s| == k && Within(lm, s)
    ensures AllWithin(lm, Combos(s, start, |lm|, k)) && BestOf(lm, best, Combos(s, start, |lm|, k))
        == Better(lm, best, s)
  {
    assert Combos(s, start, |lm|, k) == [s] && [s][..0] == [];
  }

  /** One round of the loop: the subsets that take i next, then those that pass it over. */
  lemma OneMore(lm: seq<seq<int>>, best: Best, prefix: seq<nat>, i: nat, k: nat)
    requires Square(lm) && Increasing(prefix) && Below(prefix, i) && |prefix| < k && i + (k - |prefix|) <= |lm|
    ensures AllWithin(lm, Combos(prefix, i, |lm|, k)) && AllWithin(lm, Combos(prefix, i + 1, |lm|, k))
    ensures AllWithin(lm, Combos(prefix + [i], i + 1, |lm|, k))
    ensures BestOf(lm, best, Combos(prefix, i, |lm|, k))
         == BestOf(lm, BestOf(lm, best, Combos(prefix + [i], i + 1, |lm|, k)), Combos(prefix, i + 1, |lm|, k))
  {
    CombosWithin(lm, prefix, i + 1, k);
    CombosWithin(lm, prefix + [i], i + 1, k);
    BestOfParts(lm, best, Combos(prefix + [i], i + 1, |lm|, k), Combos(prefix, i + 1, |lm|, k));
  }

  /** The search over a matrix; a k outside 1..n is refused. */
  method FindBestSubset(lm: seq<seq<int>>, k: int) returns (r: Option<Best>)
    requires Square(lm)
    ensures r == if k <= 0 || k > |lm| then None else Some(BestSubset(lm, k))
  {
    if k <= 0 || k > |lm| {
      return None;
    }
    var search := new Search(lm, k);
    assert search.subset[..0] == [];
    search.Enumerate(0, 0);
    return Some(Best(search.bestMean, search.bestSubset));
  }

  /** Means that the sentinel cannot hide. */
  ghost predicate BelowSentinel(lm: seq<seq<int>>, k: nat)
    requires Square(lm)
  {
    forall s :: IsSubset(s, |lm|, k) ==> SubsetMean(lm, s) < SENTINEL
  }

  /** A list in strict order holds nothing twice. */
  lemma InOrderOnce(list: seq<seq<nat>>, x: nat, y: nat)
    requires InOrder(list) && x < y < |list|
    ensures list[x] != list[y]
  {
    assert LexLess(list[x], list[y]);
    var p :| LexAt(list[x], list[y], p);
  }

  /** The search visits every k-subset exactly once, in lexicographic order. */
  lemma EverySubsetOnce(n: nat, k: nat)
    ensures var list := Combos([], 0, n, k);
            && InOrder(list)
            && (forall s :: s in list <==> IsSubset(s, n, k))
            && (forall x, y :: 0 <= x < y < |list| ==> list[x] != list[y])
  {
    var list := Combos([], 0, n, k);
    CombosAreOrdered([], 0, n, k);
    forall s
      ensures s in list <==> IsSubset(s, n, k)
    {
      CombosAreTheSubsets([], 0, n, k, s);
    }
    forall x, y | 0 <= x < y < |list|
      ensures list[x] != list[y]
    {
      InOrderOnce(list, x, y);
    }
  }

  lemma BestIsVisited(lm: seq<seq<int>>, k: nat) returns (x: nat)
    requires Square(lm) && 1 <= k <= |lm| && BelowSentinel(lm, k)
    ensures AllWithin(lm, Combos([], 0, |lm|, k)) && FirstWith(lm, Combos([], 0, |lm|, k), x, BestSubset(lm, k))
  {
    var list := Combos([], 0, |lm|, k);
    CombosWithin(lm, [], 0, k);
    BestOfIsFirstLeast(lm, list);
    var some := seq(k, i => i);
    assert IsSubset(some, |lm|, k);
    CombosAreTheSubsets([], 0, |lm|, k, some);
    var y :| 0 <= y < |list| && list[y] == some;
    assert BestSubset(lm, k).mean <= SubsetMean(lm, list[y]);
    x :| FirstWith(lm, list, x, BestSubset(lm, k));
  }

  /** It returns a subset of least mean: the lexicographically first of those. */
  lemma BestSubsetIsOptimal(lm: seq<seq<int>>, k: nat, s: seq<nat>)
    requires Square(lm) && 1 <= k <= |lm| && BelowSentinel(lm, k) && IsSubset(s, |lm|, k)
    ensures var best := BestSubset(lm, k);
            && IsSubset(best.subset, |lm|, k) && best.mean == SubsetMean(lm, best.subset)
            && (best.mean < SubsetMean(lm, s)
                || (best.mean == SubsetMean(lm, s) && (s == best.subset || LexLess(best.subset, s))))
  {
    var list, best := Combos([], 0, |lm|, k), BestSubset(lm, k);
    EverySubsetOnce(|lm|, k);
    var x := BestIsVisited(lm, k);
    BestOfIsFirstLeast(lm, list);
    assert best.subset in list && s in list;
    var y :| 0 <= y < |list| && list[y] == s;
    assert best.mean <= SubsetMean(lm, list[y]);
  }
}
