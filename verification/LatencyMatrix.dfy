/** Latency matrices of chosen locations, and the matrix of the best subset. */
module LatencyMatrix {
  import opened Options
  import opened Latency

  datatype Matrix = Matrix(enabled: bool, lm: seq<seq<int>>, locs: seq<string>)

  const DISABLED := Matrix(false, [], [])

  /** Position of a name in the location list, counted from i. */
  function IndexFrom(loc: string, i: nat): (r: Option<nat>)
    ensures r.Some? ==> i <= r.value < |LOCATIONS|
    decreases |LOCATIONS| - i
  {
    if i >= |LOCATIONS| then None else if LOCATIONS[i] == loc then Some(i) else IndexFrom(loc, i + 1)
  }

  function IndexOf(loc: string): (r: Option<nat>)
    ensures r.Some? ==> r.value < |LOCATIONS|
  {
    IndexFrom(loc, 0)
  }

  /** Reading location names in order stops at the first default one or the first unknown one. */
  datatype Scan = Indices(idx: seq<nat>) | Default | Unknown

  function ScanOf(locs: seq<string>): (r: Scan)
    ensures r.Indices? ==> |r.idx| == |locs| && forall i :: 0 <= i < |locs| ==> IndexOf(locs[i]) == Some(r.idx[i])
  {
    if locs == [] then Indices([])
    else
      var before := ScanOf(locs[..|locs| - 1]);
      var loc := locs[|locs| - 1];
      if !before.Indices? then before
      else if loc == DEFAULT_LOCATION then Default
      else if IndexOf(loc).None? then Unknown
      else Indices(before.idx + [IndexOf(loc).value])
  }

  lemma LatencyTable(i: nat, j: nat)
    requires i < |LOCATIONS| && j < |LOCATIONS|
    ensures |LATENCIES| == |LOCATIONS| && |LATENCIES[i]| == |LOCATIONS|
    ensures LATENCIES[i][j] == 5 * MS * (if i <= j then j - i else i - j)
    ensures LATENCIES[i][j] == LATENCIES[j][i] && 0 <= LATENCIES[i][j] <= 30 * MS
  {
  }

  predicate Known(idx: seq<nat>) {
    forall i :: 0 <= i < |idx| ==> idx[i] < |LOCATIONS|
  }

  function Between(i: nat, j: nat): int
    requires i < |LOCATIONS| && j < |LOCATIONS|
  {
    LatencyTable(i, j);
    LATENCIES[i][j]
  }

  function RowOf(idx: seq<nat>, i: nat): seq<int>
    requires Known(idx)
    requires i < |LOCATIONS|
  {
    seq(|idx|, j requires 0 <= j < |idx| => Between(i, idx[j]))
  }

  function TableOf(idx: seq<nat>): seq<seq<int>>
    requires Known(idx)
  {
    seq(|idx|, i requires 0 <= i < |idx| => RowOf(idx, idx[i]))
  }

  /** The matrix of a list of locations; None where an unknown location makes the program give up. */
  function MatrixFrom(locs: seq<string>): Option<Matrix> {
    match ScanOf(locs)
    case Default => Some(DISABLED)
    case Unknown => None
    case Indices(idx) => Some(Matrix(locs != [], TableOf(idx), locs))
  }

  lemma {:induction false} ScanStops(locs: seq<string>, i: nat)
    requires i <= |locs| && !ScanOf(locs[..i]).Indices?
    ensures ScanOf(locs) == ScanOf(locs[..i])
    decreases |locs| - i
  {
    if i < |locs| {
      assert locs[..i + 1][..i] == locs[..i];
      ScanStops(locs, i + 1);
    } else {
      assert locs[..i] == locs;
    }
  }

  method ReadLocations(locs: seq<string>) returns (r: Scan)
    ensures r == ScanOf(locs)
  {
    var idx: seq<nat> := [];
    for i := 0 to |locs|
      invariant ScanOf(locs[..i]) == Indices(idx)
    {
      assert locs[..i + 1][..i] == locs[..i];
      if locs[i] == DEFAULT_LOCATION {
        ScanStops(locs, i + 1);
        return Default;
      }
      var found := IndexOf(locs[i]);
      if found.None? {
        ScanStops(locs, i + 1);
        return Unknown;
      }
      idx := idx + [found.value];
    }
    assert locs[..|locs|] == locs;
    return Indices(idx);
  }

  method FillTable(idx: seq<nat>) returns (lm: seq<seq<int>>)
    requires Known(idx)
    ensures lm == TableOf(idx)
  {
    lm := [];
    for i := 0 to |idx|
      invariant |lm| == i && forall a :: 0 <= a < i ==> lm[a] == RowOf(idx, idx[a])
    {
      var row: seq<int> := [];
      for j := 0 to |idx|
        invariant |row| == j && forall b :: 0 <= b < j ==> row[b] == Between(idx[i], idx[b])
      {
        row := row + [Between(idx[i], idx[j])];
      }
      assert row == RowOf(idx, idx[i]);
      lm := lm + [row];
    }
  }

  method BuildMatrix(locs: seq<string>) returns (r: Option<Matrix>)
    ensures r == MatrixFrom(locs)
  {
    var scan := ReadLocations(locs);
    match scan {
      case Default => return Some(DISABLED);
      case Unknown => return None;
      case Indices(idx) =>
        var lm := FillTable(idx);
        return Some(Matrix(|locs| > 0, lm, locs));
    }
  }

  // ---- Mean ------------------------------------------------------------------------------------

  /** Row i up to column m, without the diagonal. */
  function OffRow(lm: seq<seq<int>>, i: nat, m: nat): int
    requires Square(lm) && i < |lm| && m <= |lm|
  {
    if m == 0 then 0 else OffRow(lm, i, m - 1) + if m - 1 != i then lm[i][m - 1] else 0
  }

  function OffDiagonal(lm: seq<seq<int>>, m: nat): int
    requires Square(lm) && m <= |lm|
  {
    if m == 0 then 0 else OffDiagonal(lm, m - 1) + OffRow(lm, m - 1, |lm|)
  }

  /** Mean off-diagonal latency; None for one row, where the program divides by zero. */
  function Mean(lm: seq<seq<int>>): Option<int>
    requires Square(lm)
  {
    if |lm| == 0 then Some(0)
    else if |lm| == 1 then None
    else
      PairsArePositive(|lm|);
      Some(TruncDiv(OffDiagonal(lm, |lm|), |lm| * |lm| - |lm|))
  }

  method ComputeMean(lm: seq<seq<int>>) returns (mean: Option<int>)
    requires Square(lm)
    ensures mean == Mean(lm)
  {
    var rows := |lm|;
    if rows == 0 {
      return Some(0);
    }
    var total := 0;
    for i := 0 to rows
      invariant total == OffDiagonal(lm, i)
    {
      for j := 0 to rows
        invariant total == OffDiagonal(lm, i) + OffRow(lm, i, j)
      {
        if i == j {
          continue;
        }
        total := total + lm[i][j];
      }
    }
    if rows * rows - rows == 0 {
      assert rows == 1 by {
        if rows >= 2 {
          PairsArePositive(rows);
        }
      }
      return None;
    }
    PairsArePositive(rows);
    return Some(TruncDiv(total, rows * rows - rows));
  }

  // ---- The best submatrix ----------------------------------------------------------------------

  /** Elements of a list at the given positions. */
  function Pick<T>(xs: seq<T>, indices: seq<nat>): seq<T>
    requires forall i :: 0 <= i < |indices| ==> indices[i] < |xs|
  {
    seq(|indices|, i requires 0 <= i < |indices| => xs[indices[i]])
  }

  /** Matrices as the program makes them. */
  predicate Made(m: Matrix) {
    MatrixFrom(m.locs) == Some(m)
  }

  lemma MadeShape(m: Matrix) returns (idx: seq<nat>)
    requires Made(m)
    ensures ScanOf(m.locs) == Indices(idx) && Square(m.lm) && |m.lm| == |m.locs| == |idx| && m.lm == TableOf(idx)
    ensures forall i, j :: 0 <= i < |idx| && 0 <= j < |idx| ==> m.lm[i][j] == Between(idx[i], idx[j])
    ensures m.enabled == (m.locs != [])
  {
    idx := ScanOf(m.locs).idx;
    forall i, j | 0 <= i < |idx| && 0 <= j < |idx|
      ensures m.lm[i][j] == Between(idx[i], idx[j])
    {
      assert m.lm[i] == RowOf(idx, idx[i]);
    }
  }

  lemma MadeIsSquare(m: Matrix)
    requires Made(m)
    ensures Square(m.lm) && |m.lm| == |m.locs|
  {
    var idx := MadeShape(m);
  }

  lemma BestWithin(lm: seq<seq<int>>, k: nat)
    requires Square(lm)
    ensures Within(lm, BestSubset(lm, k).subset)
  {
    CombosWithin(lm, [], 0, k);
    BestOfIsFirstLeast(lm, Combos([], 0, |lm|, k));
  }

  /** The matrix of the best k locations; None for a k out of range. */
  function BestMatrix(m: Matrix, k: int): Option<Matrix>
    requires Made(m)
  {
    MadeIsSquare(m);
    if k <= 0 || k > |m.lm| then None
    else
      BestWithin(m.lm, k);
      MatrixFrom(Pick(m.locs, BestSubset(m.lm, k).subset))
  }

  method BestSubsetMatrix(m: Matrix, k: int) returns (r: Option<Matrix>)
    requires Made(m)
    ensures r == BestMatrix(m, k)
  {
    MadeIsSquare(m);
    var best := FindBestSubset(m.lm, k);
    if best.None? {
      return None;
    }
    BestWithin(m.lm, k);
    var indices := best.value.subset;
    var locs: seq<string> := [];
    for i := 0 to |indices|
      invariant locs == Pick(m.locs, indices)[..i]
    {
      locs := locs + [m.locs[indices[i]]];
    }
    assert locs == Pick(m.locs, indices);
    r := BuildMatrix(locs);
  }

  // ---- Means of made matrices stay far below the sentinel ---------------------------------------

  lemma {:induction false} RowSumBound(lm: seq<seq<int>>, indices: seq<nat>, i: nat, m: nat, bound: nat)
    requires Within(lm, indices) && i < |lm| && m <= |indices|
    requires forall a, b :: 0 <= a < |lm| && 0 <= b < |lm| ==> 0 <= lm[a][b] <= bound
    ensures 0 <= RowSum(lm, indices, i, m) <= m * bound
  {
    if m > 0 {
      RowSumBound(lm, indices, i, m - 1, bound);
      assert m * bound == (m - 1) * bound + bound;
    }
  }

  lemma {:induction false} TotalBound(lm: seq<seq<int>>, indices: seq<nat>, m: nat, bound: nat)
    requires Within(lm, indices) && m <= |indices|
    requires forall a, b :: 0 <= a < |lm| && 0 <= b < |lm| ==> 0 <= lm[a][b] <= bound
    ensures 0 <= Total(lm, indices, m) <= m * (|indices| * bound)
  {
    if m > 0 {
      TotalBound(lm, indices, m - 1, bound);
      RowSumBound(lm, indices, indices[m - 1], |indices|, bound);
      var row := |indices| * bound;
      assert m * row == (m - 1) * row + row;
    }
  }

  lemma QuotientBound(a: nat, b: nat, c: nat)
    requires b > 0 && a <= c * b
    ensures a / b <= c
  {
    var q := a / b;
    assert a >= q * b;
    MulAbove(q, c, b);
  }

  lemma MulAbove(q: nat, c: nat, b: nat)
    ensures q > c ==> q * b >= c * b + b
  {
    if q > c {
      assert q * b == (q - c) * b + c * b;
      assert (q - c) * b == (q - c - 1) * b + b;
    }
  }

  lemma ManyPairs(k: nat, bound: nat)
    requires k >= 2
    ensures k * (k * bound) <= (2 * bound) * (k * k - k)
  {
    assert k * k >= 2 * k;
    var p := k * k;
    assert k * (k * bound) == p * bound;
    assert (2 * bound) * (p - k) == bound * (2 * p - 2 * k);
    assert bound * (2 * p - 2 * k) == bound * p + bound * (p - 2 * k);
    assert bound * (p - 2 * k) >= 0;
  }

  lemma MeanBelowSentinel(m: Matrix, s: seq<nat>)
    requires Made(m) && Within(m.lm, s)
    ensures SubsetMean(m.lm, s) < SENTINEL
  {
    var idx := MadeShape(m);
    var bound := 30 * MS;
    forall a, b | 0 <= a < |m.lm| && 0 <= b < |m.lm|
      ensures 0 <= m.lm[a][b] <= bound
    {
      LatencyTable(idx[a], idx[b]);
    }
    MeanBound(m.lm, s, bound);
  }

  lemma MeanBound(lm: seq<seq<int>>, s: seq<nat>, bound: nat)
    requires Within(lm, s) && 2 * bound < SENTINEL
    requires forall a, b :: 0 <= a < |lm| && 0 <= b < |lm| ==> 0 <= lm[a][b] <= bound
    ensures SubsetMean(lm, s) < SENTINEL
  {
    var k := |s|;
    if k >= 2 {
      TotalBound(lm, s, k, bound);
      PairsArePositive(k);
      ManyPairs(k, bound);
      QuotientBound(Total(lm, s, k), k * k - k, 2 * bound);
    }
  }

  // ---- The submatrix keeps the mean ------------------------------------------------------------

  /** Scanning picked names finds the picked positions. */
  lemma {:induction false} ScanOfPick(locs: seq<string>, idx: seq<nat>, s: seq<nat>)
    requires ScanOf(locs) == Indices(idx) && forall i :: 0 <= i < |s| ==> s[i] < |locs|
    ensures ScanOf(Pick(locs, s)) == Indices(Pick(idx, s))
  {
    if s != [] {
      var last := |s| - 1;
      ScanOfPick(locs, idx, s[..last]);
      PickOneMore(locs, s);
      PickOneMore(idx, s);
      NamesAreNotDefault(locs, s[last]);
      ScanOneMore(Pick(locs, s), Pick(idx, s[..last]), idx[s[last]]);
    }
  }

  lemma PickOneMore<T>(xs: seq<T>, s: seq<nat>)
    requires s != [] && forall i :: 0 <= i < |s| ==> s[i] < |xs|
    ensures
      var last := |s| - 1;
      Pick(xs, s) == Pick(xs, s[..last]) + [xs[s[last]]] && Pick(xs, s)[..last] == Pick(xs, s[..last])
  {
  }

  lemma ScanOneMore(locs: seq<string>, before: seq<nat>, i: nat)
    requires locs != [] && ScanOf(locs[..|locs| - 1]) == Indices(before)
    requires locs[|locs| - 1] != DEFAULT_LOCATION && IndexOf(locs[|locs| - 1]) == Some(i)
    ensures ScanOf(locs) == Indices(before + [i])
  {
  }

  lemma {:induction false} NamesAreNotDefault(locs: seq<string>, i: nat)
    requires ScanOf(locs).Indices? && i < |locs|
    ensures locs[i] != DEFAULT_LOCATION
  {
    if i < |locs| - 1 {
      NamesAreNotDefault(locs[..|locs| - 1], i);
    }
  }

  lemma {:induction false} SameRow(lm: seq<seq<int>>, sub: seq<seq<int>>, s: seq<nat>, i: nat, m: nat)
    requires Within(lm, s) && Increasing(s) && Square(sub) && |sub| == |s| && i < |s| && m <= |s|
    requires forall a, b :: 0 <= a < |s| && 0 <= b < |s| ==> sub[a][b] == lm[s[a]][s[b]]
    ensures OffRow(sub, i, m) == RowSum(lm, s, s[i], m)
  {
    if m > 0 {
      SameRow(lm, sub, s, i, m - 1);
      assert (s[m - 1] != s[i]) == (m - 1 != i);
    }
  }

  lemma {:induction false} SameTotal(lm: seq<seq<int>>, sub: seq<seq<int>>, s: seq<nat>, m: nat)
    requires Within(lm, s) && Increasing(s) && Square(sub) && |sub| == |s| && m <= |s|
    requires forall a, b :: 0 <= a < |s| && 0 <= b < |s| ==> sub[a][b] == lm[s[a]][s[b]]
    ensures OffDiagonal(sub, m) == Total(lm, s, m)
  {
    if m > 0 {
      SameTotal(lm, sub, s, m - 1);
      SameRow(lm, sub, s, m - 1, |s|);
    }
  }

  /**
   * For a matrix the program made and 2 <= k <= n: the best submatrix exists, is the one of an optimal subset, and
   * its own mean is the mean that made the subset best.
   */
  lemma BestMatrixHasTheBestMean(m: Matrix, k: nat)
    requires Made(m) && 2 <= k <= |m.locs|
    ensures Square(m.lm) && |m.lm| == |m.locs| && BelowSentinel(m.lm, k)
    ensures var r, best := BestMatrix(m, k), BestSubset(m.lm, k);
            && r.Some? && Made(r.value) && r.value.enabled && IsSubset(best.subset, |m.lm|, k)
            && r.value.locs == Pick(m.locs, best.subset)
            && Square(r.value.lm) && Mean(r.value.lm) == Some(best.mean)
  {
    var idx := MadeShape(m);
    forall s | IsSubset(s, |m.lm|, k)
      ensures SubsetMean(m.lm, s) < SENTINEL
    {
      MeanBelowSentinel(m, s);
    }
    var best := BestSubset(m.lm, k);
    var x := BestIsVisited(m.lm, k);
    var s := best.subset;
    CombosAreTheSubsets([], 0, |m.lm|, k, s);
    assert s in Combos([], 0, |m.lm|, k);
    ScanOfPick(m.locs, idx, s);
    PickedMatrix(m, s);
  }

  lemma SameMean(lm: seq<seq<int>>, sub: seq<seq<int>>, s: seq<nat>)
    requires Within(lm, s) && Increasing(s) && Square(sub) && |sub| == |s| >= 2
    requires forall a, b :: 0 <= a < |s| && 0 <= b < |s| ==> sub[a][b] == lm[s[a]][s[b]]
    ensures Mean(sub) == Some(SubsetMean(lm, s))
  {
    SameTotal(lm, sub, s, |s|);
  }

  lemma PickedMatrix(m: Matrix, s: seq<nat>)
    requires Made(m) && IsSubset(s, |m.locs|, |s|) && |s| >= 2
    ensures Within(m.lm, s) && |m.lm| == |m.locs|
    ensures var r := MatrixFrom(Pick(m.locs, s));
            && r.Some? && Made(r.value) && r.value.enabled && r.value.locs == Pick(m.locs, s)
            && Square(r.value.lm) && Mean(r.value.lm) == Some(SubsetMean(m.lm, s))
  {
    var idx := MadeShape(m);
    ScanOfPick(m.locs, idx, s);
    var r := MatrixFrom(Pick(m.locs, s)).value;
    var picked := MadeShape(r);
    assert picked == Pick(idx, s);
    SameMean(m.lm, r.lm, s);
  }
}
