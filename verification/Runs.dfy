/** Runs of any system, given by its initial states and its steps. */
module Runs {

  ghost predicate IsTrace<S(!new)>(init: S -> bool, next: (S, S) -> bool, trace: seq<S>) {
    && trace != [] && init(trace[0])
    && forall k :: 0 <= k < |trace| - 1 ==> next(trace[k], trace[k + 1])
  }

  lemma Starts<S(!new)>(init: S -> bool, next: (S, S) -> bool, s: S)
    requires init(s)
    ensures IsTrace(init, next, [s])
  {
  }

  lemma Extends<S(!new)>(init: S -> bool, next: (S, S) -> bool, trace: seq<S>, s: S)
    requires IsTrace(init, next, trace) && next(trace[|trace| - 1], s)
    ensures IsTrace(init, next, trace + [s])
  {
    var longer := trace + [s];
    forall k | 0 <= k < |longer| - 1
      ensures next(longer[k], longer[k + 1])
    {
      assert longer[k] == trace[k];
      assert k < |trace| - 1 ==> longer[k + 1] == trace[k + 1];
    }
  }

  /** Reachable in k steps. */
  ghost predicate ReachableIn<S(!new)>(init: S -> bool, next: (S, S) -> bool, s: S, k: nat)
    decreases k, 1
  {
    if k == 0 then init(s) else Follows(init, next, s, k)
  }

  ghost predicate Follows<S(!new)>(init: S -> bool, next: (S, S) -> bool, s: S, k: nat)
    requires k > 0
    decreases k, 0
  {
    exists before: S :: ReachableIn(init, next, before, k - 1) && next(before, s)
  }

  ghost predicate Reachable<S(!new)>(init: S -> bool, next: (S, S) -> bool, s: S) {
    exists k: nat :: ReachableIn(init, next, s, k)
  }

  lemma InitReachable<S(!new)>(init: S -> bool, next: (S, S) -> bool, s: S)
    requires init(s)
    ensures Reachable(init, next, s)
  {
    assert ReachableIn(init, next, s, 0);
  }

  lemma NextReachable<S(!new)>(init: S -> bool, next: (S, S) -> bool, s: S, s': S)
    requires Reachable(init, next, s) && next(s, s')
    ensures Reachable(init, next, s')
  {
    var k: nat :| ReachableIn(init, next, s, k);
    assert Follows(init, next, s', k + 1);
    assert ReachableIn(init, next, s', k + 1);
  }

  /** A reachable state ends a run. */
  lemma TraceTo<S(!new)>(init: S -> bool, next: (S, S) -> bool, s: S) returns (trace: seq<S>)
    requires Reachable(init, next, s)
    ensures IsTrace(init, next, trace) && trace[|trace| - 1] == s
  {
    var k: nat :| ReachableIn(init, next, s, k);
    trace := TraceOfLength(init, next, s, k);
  }

  lemma {:induction false} TraceOfLength<S(!new)>(init: S -> bool, next: (S, S) -> bool, s: S, k: nat)
    returns (trace: seq<S>)
    requires ReachableIn(init, next, s, k)
    ensures IsTrace(init, next, trace) && trace[|trace| - 1] == s
    decreases k
  {
    if k == 0 {
      trace := [s];
    } else {
      assert Follows(init, next, s, k);
      var before: S :| ReachableIn(init, next, before, k - 1) && next(before, s);
      var shorter := TraceOfLength(init, next, before, k - 1);
      trace := shorter + [s];
      Extends(init, next, shorter, s);
    }
  }
}
