/** Clusters, quorums and the counting arguments every protocol rests on. */
module Quorum {

  /** Replicas are numbered 1..n. */
  function Cluster(n: nat): (ids: set<nat>)
    ensures forall i :: i in ids <==> 1 <= i <= n
  {
    if n == 0 then {} else Cluster(n - 1) + {n}
  }

  lemma {:induction false} ClusterSize(n: nat)
    ensures |Cluster(n)| == n
  {
    if n > 0 {
      ClusterSize(n - 1);
    }
  }

  lemma {:induction false} SubsetSize<T>(a: set<T>, b: set<T>)
    requires a <= b
    ensures |a| <= |b|
  {
    assert b == a + (b - a);
    assert |b| == |a| + |b - a|;
  }

  /** Two subsets of one universe share at least |a| + |b| - |u| members. */
  lemma Overlap<T>(a: set<T>, b: set<T>, u: set<T>)
    requires a <= u && b <= u
    ensures |a * b| >= |a| + |b| - |u|
  {
    assert |a + b| + |a * b| == |a| + |b|;
    SubsetSize(a + b, u);
  }

  /** Removing at most |b| members. */
  lemma DifferenceSize<T>(a: set<T>, b: set<T>)
    ensures |a - b| >= |a| - |b|
  {
    assert a == (a - b) + (a * b);
    assert |a| == |a - b| + |a * b|;
    SubsetSize(a * b, b);
  }

  /** Among n = 3f+1 replicas with at most f faulty ones, two sets of 2f+1 share a correct replica. */
  lemma CorrectWitness(a: set<nat>, b: set<nat>, faulty: set<nat>, n: nat, f: nat) returns (i: nat)
    requires n == 3 * f + 1 && |faulty| <= f
    requires a <= Cluster(n) && b <= Cluster(n)
    requires |a| >= 2 * f + 1 && |b| >= 2 * f + 1
    ensures i in a && i in b && i !in faulty
  {
    ClusterSize(n);
    Overlap(a, b, Cluster(n));
    DifferenceSize(a * b, faulty);
    assert a * b - faulty != {};
    i :| i in a * b - faulty;
  }

  /** Two strict majorities of the same cluster intersect. */
  lemma MajorityWitness(a: set<nat>, b: set<nat>, n: nat) returns (i: nat)
    requires a <= Cluster(n) && b <= Cluster(n)
    requires |a| >= n / 2 + 1 && |b| >= n / 2 + 1
    ensures i in a && i in b
  {
    ClusterSize(n);
    Overlap(a, b, Cluster(n));
    assert a * b != {};
    i :| i in a * b;
  }
}
