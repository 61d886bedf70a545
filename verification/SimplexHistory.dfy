/** Runs of a Simplex node together with the steps that were taken. */
module SimplexHistory {
  import opened SimplexProcess

  ghost predicate StepsFrom(trace: seq<Process>, steps: seq<Step>, k: nat, liars: set<nat>)
    requires k < |steps| < |trace|
  {
    Enabled(trace[k], steps[k], liars) && trace[k + 1] == After(trace[k], steps[k])
  }

  /** A run and what happened in it: steps[k] leads from state k to the next one. */
  ghost predicate IsHistory(trace: seq<Process>, steps: seq<Step>, liars: set<nat>) {
    && |trace| == |steps| + 1 && Init(trace[0])
    && forall k :: 0 <= k < |steps| ==> StepsFrom(trace, steps, k, liars)
  }

  /** Every run has a history. */
  lemma {:induction false} RunHasHistory(trace: seq<Process>, liars: set<nat>) returns (steps: seq<Step>)
    requires IsRun(trace, liars)
    ensures IsHistory(trace, steps, liars)
  {
    steps := HistoryUpTo(trace, liars, |trace| - 1);
    assert trace[..|trace|] == trace;
  }

  lemma {:induction false} HistoryUpTo(trace: seq<Process>, liars: set<nat>, k: nat) returns (steps: seq<Step>)
    requires IsRun(trace, liars) && k < |trace|
    ensures IsHistory(trace[..k + 1], steps, liars)
  {
    steps := [];
    if k > 0 {
      var before := HistoryUpTo(trace, liars, k - 1);
      RunSteps(trace, liars, k);
      var step :| Enabled(trace[k - 1], step, liars) && trace[k] == After(trace[k - 1], step);
      steps := before + [step];
      HistoryGrows(trace, before, step, k, liars);
    }
  }

  lemma HistoryGrows(trace: seq<Process>, before: seq<Step>, step: Step, k: nat, liars: set<nat>)
    requires 0 < k < |trace| && IsHistory(trace[..k], before, liars)
    requires Enabled(trace[k - 1], step, liars) && trace[k] == After(trace[k - 1], step)
    ensures IsHistory(trace[..k + 1], before + [step], liars)
  {
    var steps, longer := before + [step], trace[..k + 1];
    forall j | 0 <= j < |steps|
      ensures StepsFrom(longer, steps, j, liars)
    {
      StepGrows(trace, before, step, k, j, liars);
    }
  }

  lemma StepGrows(trace: seq<Process>, before: seq<Step>, step: Step, k: nat, j: nat, liars: set<nat>)
    requires j < k < |trace| && |before| == k - 1
    requires if j < k - 1 then StepsFrom(trace[..k], before, j, liars)
             else Enabled(trace[j], step, liars) && trace[k] == After(trace[j], step)
    ensures StepsFrom(trace[..k + 1], before + [step], j, liars)
  {
    var steps, longer := before + [step], trace[..k + 1];
    assert longer[j] == trace[j] && longer[j + 1] == trace[j + 1];
    if j < k - 1 {
      assert trace[..k][j] == trace[j] && trace[..k][j + 1] == trace[j + 1] && steps[j] == before[j];
    }
  }

  /** What a history adds to a run is only the names of the steps. */
  lemma HistoryKeepsInv(trace: seq<Process>, steps: seq<Step>, liars: set<nat>, k: nat)
    requires IsRun(trace, liars) && IsHistory(trace, steps, liars) && k < |steps|
    ensures Inv(trace[k], liars) && Inv(trace[k + 1], liars)
    ensures Enabled(trace[k], steps[k], liars) && trace[k + 1] == After(trace[k], steps[k])
  {
    RunKeepsInv(trace, liars, k, k + 1);
    assert StepsFrom(trace, steps, k, liars);
  }
}
