/** The membership size behind the quorum of a height: out of reach of a reconfiguration only once it is recorded. */
module SimplexSizes {
  import opened SimplexProcess
  import opened SimplexMembership

  ghost predicate StartsAtOne(p: Process, p': Process) {
    !p.started && p'.started && p.node.height == 1
  }

  ghost predicate StartsAt(trace: seq<Process>, j: nat)
    requires j + 1 < |trace|
  {
    StartsAtOne(trace[j], trace[j + 1])
  }

  /** Start has run before height 1 was left. */
  ghost predicate StartedInTime(trace: seq<Process>, k: nat)
    requires k < |trace|
  {
    exists j: nat :: j < k && StartsAt(trace, j)
  }

  lemma StepRecords(p: Process, step: Step, liars: set<nat>)
    requires Inv(p, liars) && Enabled(p, step, liars)
    ensures 1 in After(p, step).node.heightN <==> 1 in p.node.heightN || StartsAtOne(p, After(p, step))
  {
    var p' := After(p, step);
    if step.Run? && TakesEffect(p, step.task) {
      AdvanceEnters(p.node, step.task.height, step.task.nota);
      assert p'.started == p.started;
    } else if step.Start? && p.node.height == 1 {
      assert 1 in p'.node.heightN && p'.started;
    } else {
      StepIsQuiet(p, step);
      assert step.Start? ==> p.node.height > 1;
      assert !step.Start? ==> p'.started == p.started;
    }
  }

  lemma RunStepRecords(trace: seq<Process>, liars: set<nat>, k: nat)
    requires IsRun(trace, liars) && 0 < k < |trace| && Inv(trace[k - 1], liars)
    ensures 1 in trace[k].node.heightN <==> 1 in trace[k - 1].node.heightN || StartsAt(trace, k - 1)
  {
    RunSteps(trace, liars, k);
    NextRecords(trace[k - 1], trace[k], liars);
  }

  lemma NextRecords(p: Process, p': Process, liars: set<nat>)
    requires Inv(p, liars) && Next(p, p', liars)
    ensures 1 in p'.node.heightN <==> 1 in p.node.heightN || StartsAtOne(p, p')
  {
    var step :| Enabled(p, step, liars) && p' == After(p, step);
    StepRecords(p, step, liars);
  }

  lemma OneMore(trace: seq<Process>, k: nat)
    requires 0 < k < |trace|
    ensures StartedInTime(trace, k) <==> StartedInTime(trace, k - 1) || StartsAt(trace, k - 1)
  {
    if StartedInTime(trace, k - 1) {
      var j: nat :| j < k - 1 && StartsAt(trace, j);
    }
  }

  lemma {:induction false} FirstHeightRecorded(trace: seq<Process>, liars: set<nat>, k: nat)
    requires IsRun(trace, liars) && k < |trace|
    ensures 1 in trace[k].node.heightN <==> StartedInTime(trace, k)
  {
    if k > 0 {
      FirstHeightRecorded(trace, liars, k - 1);
      RunKeepsInv(trace, liars, k - 1, k - 1);
      RunStepRecords(trace, liars, k);
      OneMore(trace, k);
    }
  }

  lemma {:induction false} LaterHeightsRecorded(trace: seq<Process>, liars: set<nat>, k: nat, h: nat)
    requires IsRun(trace, liars) && k < |trace| && h != 1
    ensures h in trace[k].node.heightN <==> 2 <= h <= trace[k].node.height
  {
    if k > 0 {
      LaterHeightsRecorded(trace, liars, k - 1, h);
      RunKeepsInv(trace, liars, k - 1, k - 1);
      RunStepKeepsInv(trace, liars, k);
    }
  }

  lemma RecordedPositive(trace: seq<Process>, liars: set<nat>, k: nat, h: nat)
    requires IsRun(trace, liars) && k < |trace| && h in trace[k].node.heightN
    ensures trace[k].node.heightN[h] > 0
  {
    RunFollows(trace, liars, k);
    assert FewLiars(trace[0], liars);
    ReplayAligns(trace[0].node.group, Blocks(trace[k].applied[..h - 1]));
  }

  /**
   * Under every interleaving: recorded are the heights entered, from 2 to the current one, and height 1 if and only if
   * Start ran before it was left. The size of a recorded height stays for ever; a height without a record has the size
   * of the members of the day.
   */
  lemma SizeOfHeight(trace: seq<Process>, liars: set<nat>, j: nat, k: nat, h: nat)
    requires IsRun(trace, liars) && j <= k < |trace|
    ensures h in trace[k].node.heightN
       <==> 2 <= h <= trace[k].node.height || (h == 1 && StartedInTime(trace, k))
    ensures h in trace[j].node.heightN ==> trace[k].node.SizeAt(h) == trace[j].node.SizeAt(h)
    ensures h !in trace[k].node.heightN ==> trace[k].node.SizeAt(h) == trace[k].node.group.n
  {
    RunKeepsInv(trace, liars, j, k);
    if h == 1 {
      FirstHeightRecorded(trace, liars, k);
    } else {
      LaterHeightsRecorded(trace, liars, k, h);
    }
    if h in trace[j].node.heightN {
      RecordedPositive(trace, liars, j, h);
    }
  }
}
