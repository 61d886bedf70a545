/** What the means are means of: sums over pairs of different nodes, written without the order of a loop. */
module LatencySums {
  import opened Options
  import opened Latency
  import opened LatencyMatrix

  // ---- Sums over sets of pairs -----------------------------------------------------------------

  ghost predicate Inside(lm: seq<seq<int>>, pairs: set<(nat, nat)>) {
    Square(lm) && forall p :: p in pairs ==> p.0 < |lm| && p.1 < |lm|
  }

  /** The latencies of some pairs, added up in any order. */
  ghost function SumOver(lm: seq<seq<int>>, pairs: set<(nat, nat)>): int
    requires Inside(lm, pairs)
  {
    if pairs == {} then 0
    else
      var p :| p in pairs;
      lm[p.0][p.1] + SumOver(lm, pairs - {p})
  }

  lemma {:induction false} SumAdds(lm: seq<seq<int>>, pairs: set<(nat, nat)>, q: (nat, nat))
    requires Inside(lm, pairs + {q}) && q !in pairs
    ensures SumOver(lm, pairs + {q}) == SumOver(lm, pairs) + lm[q.0][q.1]
    decreases |pairs|
  {
    var more := pairs + {q};
    var p :| p in more && SumOver(lm, more) == lm[p.0][p.1] + SumOver(lm, more - {p});
    if p == q {
      assert more - {p} == pairs;
    } else {
      assert more - {p} == (pairs - {p}) + {q};
      SumAdds(lm, pairs - {p}, q);
      assert pairs == (pairs - {p}) + {p};
      SumAdds(lm, pairs - {p}, p);
    }
  }

  lemma {:induction false} SumJoins(lm: seq<seq<int>>, a: set<(nat, nat)>, b: set<(nat, nat)>)
    requires Inside(lm, a) && Inside(lm, b) && a !! b
    ensures SumOver(lm, a + b) == SumOver(lm, a) + SumOver(lm, b)
    decreases |b|
  {
    if b == {} {
      assert a + b == a;
    } else {
      var q :| q in b;
      SumJoins(lm, a, b - {q});
      assert a + b == (a + (b - {q})) + {q} && b == (b - {q}) + {q};
      SumAdds(lm, a + (b - {q}), q);
      SumAdds(lm, b - {q}, q);
    }
  }

  /** Ordered pairs of different members. */
  ghost function Pairs(nodes: set<nat>): set<(nat, nat)> {
    set i, j | i in nodes && j in nodes && i != j :: (i, j)
  }

  ghost function Nodes(s: seq<nat>): set<nat> {
    set i | i in s
  }

  // ---- The loops add up exactly these ----------------------------------------------------------

  ghost function RowPairs(s: seq<nat>, i: nat, m: nat): set<(nat, nat)>
    requires m <= |s|
  {
    set j | j in s[..m] && j != i :: (i, j)
  }

  lemma {:induction false} RowIsSum(lm: seq<seq<int>>, s: seq<nat>, i: nat, m: nat)
    requires Within(lm, s) && Increasing(s) && i < |lm| && m <= |s|
    ensures RowSum(lm, s, i, m) == SumOver(lm, RowPairs(s, i, m))
  {
    if m > 0 {
      RowIsSum(lm, s, i, m - 1);
      OneMoreColumn(lm, s, i, m - 1);
    }
  }

  lemma OneMoreColumn(lm: seq<seq<int>>, s: seq<nat>, i: nat, m: nat)
    requires Within(lm, s) && Increasing(s) && i < |lm| && m < |s|
    ensures SumOver(lm, RowPairs(s, i, m + 1)) == SumOver(lm, RowPairs(s, i, m)) + if s[m] != i then lm[i][s[m]] else 0
  {
    RowPairsGrow(s, i, m);
    if s[m] != i {
      SumAdds(lm, RowPairs(s, i, m), (i, s[m]));
    } else {
      assert RowPairs(s, i, m + 1) == RowPairs(s, i, m);
    }
  }

  lemma RowPairsGrow(s: seq<nat>, i: nat, m: nat)
    requires Increasing(s) && m < |s|
    ensures RowPairs(s, i, m + 1) == RowPairs(s, i, m) + if s[m] != i then {(i, s[m])} else {}
    ensures (i, s[m]) !in RowPairs(s, i, m)
  {
    assert s[..m + 1] == s[..m] + [s[m]];
  }

  ghost function FirstRows(s: seq<nat>, m: nat): set<(nat, nat)>
    requires m <= |s|
  {
    set i, j | i in s[..m] && j in s && j != i :: (i, j)
  }

  lemma {:induction false} TotalIsSum(lm: seq<seq<int>>, s: seq<nat>, m: nat)
    requires Within(lm, s) && Increasing(s) && m <= |s|
    ensures Total(lm, s, m) == SumOver(lm, FirstRows(s, m))
  {
    if m > 0 {
      TotalIsSum(lm, s, m - 1);
      var i := s[m - 1];
      RowIsSum(lm, s, i, |s|);
      assert s[..m] == s[..m - 1] + [i] && s[..|s|] == s;
      assert FirstRows(s, m) == FirstRows(s, m - 1) + RowPairs(s, i, |s|);
      SumJoins(lm, FirstRows(s, m - 1), RowPairs(s, i, |s|));
    }
  }

  /** The whole double loop: every ordered pair of different nodes once. */
  lemma TotalIsPairSum(lm: seq<seq<int>>, s: seq<nat>)
    requires Within(lm, s) && Increasing(s)
    ensures Inside(lm, Pairs(Nodes(s))) && Total(lm, s, |s|) == SumOver(lm, Pairs(Nodes(s)))
  {
    TotalIsSum(lm, s, |s|);
    assert s[..|s|] == s;
    assert FirstRows(s, |s|) == Pairs(Nodes(s));
  }

  // ---- Rounding --------------------------------------------------------------------------------

  function Abs(x: int): nat {
    if x < 0 then -x else x
  }

  /** q is a / b without its fraction: less than one b away from a, and not beyond a as seen from 0. */
  ghost predicate Rounds(a: int, b: int, q: int) {
    && Abs(a - q * b) < b && Abs(q * b) <= Abs(a)
    && (a > 0 ==> a - q * b >= 0) && (a < 0 ==> a - q * b <= 0)
  }

  /** The same, with the product named. */
  ghost predicate RoundsTo(a: int, b: int, p: int) {
    && Abs(a - p) < b && Abs(p) <= Abs(a)
    && (a > 0 ==> a - p >= 0) && (a < 0 ==> a - p <= 0)
  }

  lemma Divided(a: int, b: int) returns (q: int, p: int)
    requires a >= 0 && b > 0
    ensures q == a / b && p == q * b && RoundsTo(a, b, p)
  {
    q, p := a / b, a / b * b;
    var rest := a % b;
    assert a == p + rest && 0 <= rest < b;
    ProductNonNegative(q, b);
  }

  lemma ProductNonNegative(q: int, b: int)
    requires q >= 0 && b >= 0
    ensures q * b >= 0
  {
  }

  lemma Negated(q: int, b: int)
    ensures -q * b == -(q * b)
  {
  }

  lemma TruncDivRounds(a: int, b: int)
    requires b > 0
    ensures Rounds(a, b, TruncDiv(a, b))
  {
    if a >= 0 {
      var q, p := Divided(a, b);
      NamedProduct(a, b, q, p);
    } else {
      var q, p := Divided(-a, b);
      Negated(q, b);
      NamedProduct(a, b, -q, -p);
    }
  }

  lemma NamedProduct(a: int, b: int, q: int, p: int)
    requires RoundsTo(a, b, p) && p == q * b
    ensures Rounds(a, b, q)
  {
  }

  lemma StepUp(q: int, q': int, b: int)
    requires q < q' && b > 0
    ensures q' * b >= q * b + b
  {
    assert q' * b == (q' - q) * b + q * b;
    AtLeast(q' - q, b);
  }

  lemma AtLeast(d: int, b: int)
    requires d >= 1 && b > 0
    ensures d * b >= b
  {
  }

  /** There is only one such quotient. */
  lemma RoundedOnce(a: int, b: int, q: int, q': int)
    requires b > 0 && Rounds(a, b, q) && Rounds(a, b, q')
    ensures q == q'
  {
    if q < q' {
      StepUp(q, q', b);
    } else if q' < q {
      StepUp(q', q, b);
    }
  }

  lemma RoundedDown(a: int, b: int, q: int)
    requires b > 0 && a >= 0 && Rounds(a, b, q)
    ensures q >= 0 && q * b <= a < (q + 1) * b
  {
    StepUp(q, q + 1, b);
    if q < 0 {
      StepUp(q, 0, b);
    }
  }

  // ---- The means -------------------------------------------------------------------------------

  /** The mean of a subset of at least two nodes: the sum over its pairs by their number, rounded towards zero. */
  lemma SubsetMeanIsTheMean(lm: seq<seq<int>>, s: seq<nat>)
    requires Within(lm, s) && Increasing(s) && |s| >= 2
    ensures Inside(lm, Pairs(Nodes(s)))
    ensures Rounds(SumOver(lm, Pairs(Nodes(s))), |s| * (|s| - 1), SubsetMean(lm, s))
  {
    PairsArePositive(|s|);
    TotalIsPairSum(lm, s);
    CountOfPairs(|s|);
    TruncDivRounds(Total(lm, s, |s|), |s| * |s| - |s|);
  }

  lemma CountOfPairs(k: nat)
    ensures k * (k - 1) == k * k - k
  {
  }

  ghost function UpTo(n: nat): seq<nat> {
    seq(n, i => i)
  }

  /** The mean of a whole matrix, in the same terms. */
  lemma MeanIsTheMean(lm: seq<seq<int>>)
    requires Square(lm) && |lm| >= 2
    ensures
      var all := Nodes(UpTo(|lm|));
      && Inside(lm, Pairs(all)) && Mean(lm).Some?
      && Rounds(SumOver(lm, Pairs(all)), |lm| * (|lm| - 1), Mean(lm).value)
  {
    UpToIncreases(|lm|);
    MeanOfAll(lm, UpTo(|lm|));
  }

  lemma UpToIncreases(n: nat)
    ensures |UpTo(n)| == n && Increasing(UpTo(n)) && forall i :: 0 <= i < n ==> UpTo(n)[i] == i
  {
  }

  lemma MeanOfAll(lm: seq<seq<int>>, s: seq<nat>)
    requires Square(lm) && |lm| == |s| >= 2 && Increasing(s) && forall i :: 0 <= i < |s| ==> s[i] == i
    ensures Inside(lm, Pairs(Nodes(s))) && Mean(lm).Some?
    ensures Rounds(SumOver(lm, Pairs(Nodes(s))), |lm| * (|lm| - 1), Mean(lm).value)
  {
    SameMean(lm, lm, s);
    SubsetMeanIsTheMean(lm, s);
  }

  // ---- The search, on sums ---------------------------------------------------------------------

  ghost predicate NonNegative(lm: seq<seq<int>>) {
    forall a, b :: 0 <= a < |lm| && 0 <= b < |lm[a]| ==> lm[a][b] >= 0
  }

  /** No sum is so large that the sentinel would hide its mean. */
  ghost predicate SumsBelow(lm: seq<seq<int>>, k: nat)
    requires Square(lm)
  {
    forall s :: IsSubset(s, |lm|, k) ==> PairSum(lm, s) < SENTINEL * (k * (k - 1))
  }

  ghost function PairSum(lm: seq<seq<int>>, s: seq<nat>): int
    requires Within(lm, s)
  {
    SumOver(lm, Pairs(Nodes(s)))
  }

  lemma {:induction false} SumNonNegative(lm: seq<seq<int>>, pairs: set<(nat, nat)>)
    requires Inside(lm, pairs) && NonNegative(lm)
    ensures SumOver(lm, pairs) >= 0
    decreases |pairs|
  {
    if pairs != {} {
      var p :| p in pairs && SumOver(lm, pairs) == lm[p.0][p.1] + SumOver(lm, pairs - {p});
      SumNonNegative(lm, pairs - {p});
    }
  }

  /** The mean and the sum of one subset of non-negative latencies. */
  lemma MeanBounds(lm: seq<seq<int>>, s: seq<nat>, k: nat)
    requires Square(lm) && NonNegative(lm) && IsSubset(s, |lm|, k) && k >= 2
    ensures
      var count, m := k * (k - 1), SubsetMean(lm, s);
      m >= 0 && m * count <= PairSum(lm, s) < (m + 1) * count
  {
    SubsetMeanIsTheMean(lm, s);
    SumNonNegative(lm, Pairs(Nodes(s)));
    AtLeast(k - 1, k);
    RoundedDown(PairSum(lm, s), k * (k - 1), SubsetMean(lm, s));
  }

  /**
   * For non-negative latencies and 2 <= k <= n: the subset returned has the mean returned, and no other k-subset has a
   * sum over its pairs that is lower by what rounding can tell.
   */
  lemma BestSubsetOnSums(lm: seq<seq<int>>, k: nat, s: seq<nat>)
    requires Square(lm) && NonNegative(lm) && 2 <= k <= |lm| && SumsBelow(lm, k) && IsSubset(s, |lm|, k)
    ensures
      var best, count := BestSubset(lm, k), k * (k - 1);
      && IsSubset(best.subset, |lm|, k)
      && best.mean * count <= PairSum(lm, best.subset) < (best.mean + 1) * count
      && PairSum(lm, s) >= best.mean * count
  {
    SumsKeepMeans(lm, k);
    BestSubsetIsOptimal(lm, k, s);
    var best := BestSubset(lm, k);
    MeanBounds(lm, best.subset, k);
    NoLowerSum(lm, s, k, best.mean);
  }

  lemma NoLowerSum(lm: seq<seq<int>>, s: seq<nat>, k: nat, m: int)
    requires Square(lm) && NonNegative(lm) && IsSubset(s, |lm|, k) && k >= 2 && m <= SubsetMean(lm, s)
    ensures PairSum(lm, s) >= m * (k * (k - 1))
  {
    MeanBounds(lm, s, k);
    AtLeast(k - 1, k);
    Ordered(m, SubsetMean(lm, s), k * (k - 1));
  }

  lemma Ordered(m: int, m': int, count: int)
    requires m <= m' && count >= 0
    ensures m * count <= m' * count
  {
  }

  lemma SumsKeepMeans(lm: seq<seq<int>>, k: nat)
    requires Square(lm) && NonNegative(lm) && k >= 2 && SumsBelow(lm, k)
    ensures BelowSentinel(lm, k)
  {
    forall s | IsSubset(s, |lm|, k)
      ensures SubsetMean(lm, s) < SENTINEL
    {
      MeanBounds(lm, s, k);
      if SubsetMean(lm, s) >= SENTINEL {
        Ordered(SENTINEL, SubsetMean(lm, s), k * (k - 1));
      }
    }
  }

  // ---- The matrix of a list of names -----------------------------------------------------------

  lemma {:induction false} IndexFromFinds(loc: string, i: nat)
    requires i <= |LOCATIONS|
    ensures
      var r := IndexFrom(loc, i);
      && (r.Some? ==> i <= r.value < |LOCATIONS| && LOCATIONS[r.value] == loc)
      && (r.None? ==> forall j :: i <= j < |LOCATIONS| ==> LOCATIONS[j] != loc)
    decreases |LOCATIONS| - i
  {
    if i < |LOCATIONS| && LOCATIONS[i] != loc {
      IndexFromFinds(loc, i + 1);
    }
  }

  /** Names up to position i are known, and none is the default one. */
  ghost predicate KnownUpTo(locs: seq<string>, i: nat)
    requires i <= |locs|
  {
    forall j :: 0 <= j < i ==> locs[j] in LOCATIONS && locs[j] != DEFAULT_LOCATION
  }

  /** The first name that stops the reading, if any. */
  ghost predicate StopsAt(locs: seq<string>, i: nat) {
    i < |locs| && KnownUpTo(locs, i) && (locs[i] !in LOCATIONS || locs[i] == DEFAULT_LOCATION)
  }

  lemma KnownSoFar(locs: seq<string>)
    requires locs != []
    ensures
      var last := |locs| - 1;
      && (KnownUpTo(locs[..last], last) <==> KnownUpTo(locs, last))
      && (KnownUpTo(locs, |locs|) <==>
            KnownUpTo(locs, last) && locs[last] in LOCATIONS && locs[last] != DEFAULT_LOCATION)
  {
    var init := locs[..|locs| - 1];
    assert forall j :: 0 <= j < |init| ==> init[j] == locs[j];
  }

  lemma StillStops(locs: seq<string>, i: nat)
    requires locs != [] && StopsAt(locs[..|locs| - 1], i)
    ensures StopsAt(locs, i) && locs[i] == locs[..|locs| - 1][i] && !KnownUpTo(locs, |locs| - 1)
  {
    var init := locs[..|locs| - 1];
    assert forall j :: 0 <= j < |init| ==> init[j] == locs[j];
  }

  lemma {:induction false} ScanIsExact(locs: seq<string>)
    ensures ScanOf(locs).Indices? <==> KnownUpTo(locs, |locs|)
    ensures !ScanOf(locs).Indices? ==>
              exists i: nat :: StopsAt(locs, i) && (ScanOf(locs).Default? <==> locs[i] == DEFAULT_LOCATION)
  {
    if locs != [] {
      var last := |locs| - 1;
      ScanIsExact(locs[..last]);
      IndexFromFinds(locs[last], 0);
      KnownSoFar(locs);
      if !ScanOf(locs[..last]).Indices? {
        var i: nat :| StopsAt(locs[..last], i)
            && (ScanOf(locs[..last]).Default? <==> locs[..last][i] == DEFAULT_LOCATION);
        StillStops(locs, i);
      } else if !ScanOf(locs).Indices? {
        assert StopsAt(locs, last);
      }
    }
  }

  /** Distance of two known names, in steps of 5 ms. */
  ghost predicate AtDistance(a: string, b: string, latency: int) {
    exists i, j ::
      && 0 <= i < |LOCATIONS| && 0 <= j < |LOCATIONS| && LOCATIONS[i] == a && LOCATIONS[j] == b
      && latency == 5 * MS * Abs(i - j)
  }

  /**
   * Any list of names: the first one that is the default or unknown decides between a disabled matrix and giving up;
   * with none, entry (a, b) is 5 ms for every step between the two names in the list of locations.
   */
  lemma MatrixIsExact(locs: seq<string>)
    ensures forall i: nat :: StopsAt(locs, i) ==>
              MatrixFrom(locs) == if locs[i] == DEFAULT_LOCATION then Some(DISABLED) else None
    ensures KnownUpTo(locs, |locs|) ==>
              && MatrixFrom(locs).Some? && MatrixFrom(locs).value.locs == locs
              && (MatrixFrom(locs).value.enabled <==> locs != [])
              && var lm := MatrixFrom(locs).value.lm;
                 |lm| == |locs| && forall a, b :: 0 <= a < |locs| && 0 <= b < |locs| ==>
                   |lm[a]| == |locs| && AtDistance(locs[a], locs[b], lm[a][b])
  {
    forall i: nat | StopsAt(locs, i)
      ensures MatrixFrom(locs) == if locs[i] == DEFAULT_LOCATION then Some(DISABLED) else None
    {
      StoppedScan(locs, i);
    }
    if KnownUpTo(locs, |locs|) {
      ScanIsExact(locs);
      forall a, b | 0 <= a < |locs| && 0 <= b < |locs|
        ensures AtDistance(locs[a], locs[b], TableOf(ScanOf(locs).idx)[a][b])
      {
        TableIsExact(locs, a, b);
      }
    }
  }

  lemma StoppedScan(locs: seq<string>, i: nat)
    requires StopsAt(locs, i)
    ensures ScanOf(locs) == if locs[i] == DEFAULT_LOCATION then Default else Unknown
  {
    ScanIsExact(locs);
    var j: nat :| StopsAt(locs, j) && (ScanOf(locs).Default? <==> locs[j] == DEFAULT_LOCATION);
    if i < j {
      assert false;
    } else if j < i {
      assert false;
    }
  }

  lemma TableIsExact(locs: seq<string>, a: nat, b: nat)
    requires ScanOf(locs).Indices? && a < |locs| && b < |locs|
    ensures AtDistance(locs[a], locs[b], TableOf(ScanOf(locs).idx)[a][b])
  {
    IndexFromFinds(locs[a], 0);
    IndexFromFinds(locs[b], 0);
    var i: int, j: int := ScanOf(locs).idx[a], ScanOf(locs).idx[b];
    StepsApart(i, j);
    assert LOCATIONS[i] == locs[a] && LOCATIONS[j] == locs[b];
  }

  lemma StepsApart(i: nat, j: nat)
    requires i < |LOCATIONS| && j < |LOCATIONS|
    ensures Between(i, j) == 5 * MS * Abs(i as int - j)
  {
    LatencyTable(i, j);
  }
}
