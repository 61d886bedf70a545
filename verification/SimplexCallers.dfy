/** Which callers of a node wait and which are released, told from the steps of a run alone. */
module SimplexCallers {
  import opened SimplexTypes
  import opened SimplexNode
  import opened SimplexProcess
  import opened SimplexHistory
  import opened SimplexTransactions

  // ---- What the steps say ----------------------------------------------------------------------

  predicate Signals(step: Step, tx: string) {
    step.Run? && step.task.SignalTxs? && tx in step.task.txs
  }

  /** A step that ends the wait of a transaction's caller: a newer caller, a cancellation, or the signal. */
  predicate EndsWait(step: Step, tx: string) {
    (step.Register? && step.tx == tx) || (step.Cancel? && step.tx == tx) || Signals(step, tx)
  }

  /** The caller of step i still waits after k steps. */
  ghost predicate WaitsSince(steps: seq<Step>, i: nat, k: nat, tx: string, channel: nat)
    requires k <= |steps|
  {
    && i < k && steps[i] == Register(tx, channel)
    && forall j :: i < j < k ==> !EndsWait(steps[j], tx)
  }

  ghost predicate Waits(steps: seq<Step>, k: nat, tx: string, channel: nat)
    requires k <= |steps|
  {
    exists i: nat :: WaitsSince(steps, i, k, tx, channel)
  }

  ghost predicate ReleasedBy(steps: seq<Step>, j: nat, tx: string, channel: nat)
    requires j < |steps|
  {
    Signals(steps[j], tx) && Waits(steps, j, tx, channel)
  }

  ghost predicate Released(steps: seq<Step>, k: nat, channel: nat)
    requires k <= |steps|
  {
    exists j: nat, tx :: j < k && ReleasedBy(steps, j, tx, channel)
  }

  ghost predicate Signalled(steps: seq<Step>, k: nat, tx: string)
    requires k <= |steps|
  {
    exists j :: 0 <= j < k && Signals(steps[j], tx)
  }

  // ---- One more step ---------------------------------------------------------------------------

  lemma WaitsGrows(steps: seq<Step>, k: nat, tx: string, channel: nat)
    requires k < |steps|
    ensures Waits(steps, k + 1, tx, channel) <==>
              steps[k] == Register(tx, channel) || (Waits(steps, k, tx, channel) && !EndsWait(steps[k], tx))
  {
    if steps[k] == Register(tx, channel) {
      assert WaitsSince(steps, k, k + 1, tx, channel);
    }
    if Waits(steps, k, tx, channel) && !EndsWait(steps[k], tx) {
      var i: nat :| WaitsSince(steps, i, k, tx, channel);
      assert WaitsSince(steps, i, k + 1, tx, channel);
    }
    if Waits(steps, k + 1, tx, channel) && steps[k] != Register(tx, channel) {
      var i: nat :| WaitsSince(steps, i, k + 1, tx, channel);
      assert WaitsSince(steps, i, k, tx, channel);
    }
  }

  lemma ReleasedGrows(steps: seq<Step>, k: nat, channel: nat)
    requires k < |steps|
    ensures Released(steps, k + 1, channel) <==>
              Released(steps, k, channel) || exists tx :: ReleasedBy(steps, k, tx, channel)
  {
    if tx :| ReleasedBy(steps, k, tx, channel) {
      assert k < k + 1 && ReleasedBy(steps, k, tx, channel);
    }
  }

  lemma SignalledGrows(steps: seq<Step>, k: nat, tx: string)
    requires k < |steps|
    ensures Signalled(steps, k + 1, tx) <==> Signalled(steps, k, tx) || Signals(steps[k], tx)
  {
  }

  // ---- The node says the same ------------------------------------------------------------------

  /** The caller registered for the transaction listens on the channel. */
  predicate WaitsOn(t: TxState, tx: string, channel: nat) {
    tx in t.waiting && t.waiting[tx] == channel
  }

  ghost predicate WaitingIs(t: TxState, steps: seq<Step>, k: nat)
    requires k <= |steps|
  {
    forall tx, c :: WaitsOn(t, tx, c) <==> Waits(steps, k, tx, c)
  }

  ghost predicate ClosedIs(t: TxState, steps: seq<Step>, k: nat)
    requires k <= |steps|
  {
    forall c :: c in t.closed <==> Released(steps, k, c)
  }

  ghost predicate DoneIs(t: TxState, steps: seq<Step>, k: nat)
    requires k <= |steps|
  {
    forall tx :: tx in t.done <==> Signalled(steps, k, tx)
  }

  ghost predicate SameCallers(t: TxState, t': TxState) {
    t'.waiting == t.waiting && t'.closed == t.closed && t'.done == t.done
  }

  predicate ConcernsCallers(step: Step) {
    step.Register? || step.Cancel? || (step.Run? && step.task.SignalTxs?)
  }

  /** Every other step leaves the callers alone. */
  lemma OtherStepsKeepCallers(p: Process, step: Step)
    requires !ConcernsCallers(step)
    ensures SameCallers(p.node.txs, After(p, step).node.txs)
  {
    match step
    case Count(v) => VoteConfirms(p.node, v);
    case Finalize(h, from) => FinalizeConfirms(p.node, h, from);
    case Notarize(h, nota) => NotarizeConfirms(p.node, h, nota);
    case Start => StartSameForWaiters(p.node);
    case Propose(m) => ProposeSameForWaiters(p.node, m);
    case Run(task) => AdvanceSameForWaiters(p.node, task.height, task.nota);
    case TimeOut(h) => TimeOutKeepsCallers(p.node, h);
    case Add(tx) => assert After(p, step).node.txs == p.node.txs.Add(tx);
  }

  lemma TimeOutKeepsCallers(nd: Node, h: nat)
    ensures nd.TimeOut(h).node.txs == nd.txs
  {
  }

  lemma QuietKeepsAll(t: TxState, t': TxState, steps: seq<Step>, k: nat)
    requires k < |steps| && SameCallers(t, t') && !ConcernsCallers(steps[k])
    requires WaitingIs(t, steps, k) && ClosedIs(t, steps, k) && DoneIs(t, steps, k)
    ensures WaitingIs(t', steps, k + 1) && ClosedIs(t', steps, k + 1) && DoneIs(t', steps, k + 1)
  {
    forall tx, c
      ensures WaitsOn(t', tx, c) <==> Waits(steps, k + 1, tx, c)
    {
      WaitsGrows(steps, k, tx, c);
    }
    ClosedStays(t, t', steps, k);
    DoneStays(t, t', steps, k);
  }

  lemma ClosedStays(t: TxState, t': TxState, steps: seq<Step>, k: nat)
    requires k < |steps| && t'.closed == t.closed && forall tx :: !Signals(steps[k], tx)
    requires ClosedIs(t, steps, k)
    ensures ClosedIs(t', steps, k + 1)
  {
    forall c
      ensures c in t'.closed <==> Released(steps, k + 1, c)
    {
      ReleasedGrows(steps, k, c);
    }
  }

  lemma DoneStays(t: TxState, t': TxState, steps: seq<Step>, k: nat)
    requires k < |steps| && t'.done == t.done && forall tx :: !Signals(steps[k], tx)
    requires DoneIs(t, steps, k)
    ensures DoneIs(t', steps, k + 1)
  {
    forall tx
      ensures tx in t'.done <==> Signalled(steps, k + 1, tx)
    {
      SignalledGrows(steps, k, tx);
    }
  }

  lemma RegisterIsSeen(t: TxState, steps: seq<Step>, k: nat)
    requires k < |steps| && steps[k].Register?
    requires WaitingIs(t, steps, k) && ClosedIs(t, steps, k) && DoneIs(t, steps, k)
    ensures
      var t' := t.Register(steps[k].tx, steps[k].channel);
      WaitingIs(t', steps, k + 1) && ClosedIs(t', steps, k + 1) && DoneIs(t', steps, k + 1)
  {
    var t' := t.Register(steps[k].tx, steps[k].channel);
    forall tx, c
      ensures WaitsOn(t', tx, c) <==> Waits(steps, k + 1, tx, c)
    {
      WaitsGrows(steps, k, tx, c);
    }
    ClosedStays(t, t', steps, k);
    DoneStays(t, t', steps, k);
  }

  lemma CancelIsSeen(t: TxState, steps: seq<Step>, k: nat)
    requires k < |steps| && steps[k].Cancel?
    requires WaitingIs(t, steps, k) && ClosedIs(t, steps, k) && DoneIs(t, steps, k)
    ensures
      var t' := t.Cancel(steps[k].tx);
      WaitingIs(t', steps, k + 1) && ClosedIs(t', steps, k + 1) && DoneIs(t', steps, k + 1)
  {
    var t' := t.Cancel(steps[k].tx);
    forall tx, c
      ensures WaitsOn(t', tx, c) <==> Waits(steps, k + 1, tx, c)
    {
      WaitsGrows(steps, k, tx, c);
    }
    ClosedStays(t, t', steps, k);
    DoneStays(t, t', steps, k);
  }

  lemma SignalClosesExactly(t: TxState, txs: seq<string>, c: nat)
    ensures c in t.Signal(txs).closed <==>
              c in t.closed || exists tx :: tx in txs && WaitsOn(t, tx, c)
  {
  }

  lemma SignalClosesWaiters(t: TxState, steps: seq<Step>, k: nat, c: nat)
    requires k < |steps| && steps[k].Run? && steps[k].task.SignalTxs?
    requires WaitingIs(t, steps, k) && ClosedIs(t, steps, k)
    ensures c in t.Signal(steps[k].task.txs).closed <==> Released(steps, k + 1, c)
  {
    var txs := steps[k].task.txs;
    SignalClosesExactly(t, txs, c);
    ReleasedGrows(steps, k, c);
    if tx :| tx in txs && WaitsOn(t, tx, c) {
      assert Waits(steps, k, tx, c) && ReleasedBy(steps, k, tx, c);
    }
    if tx :| ReleasedBy(steps, k, tx, c) {
      assert Waits(steps, k, tx, c) && WaitsOn(t, tx, c) && tx in txs;
    }
  }

  lemma SignalIsSeen(t: TxState, steps: seq<Step>, k: nat)
    requires k < |steps| && steps[k].Run? && steps[k].task.SignalTxs?
    requires WaitingIs(t, steps, k) && ClosedIs(t, steps, k) && DoneIs(t, steps, k)
    ensures
      var t' := t.Signal(steps[k].task.txs);
      WaitingIs(t', steps, k + 1) && ClosedIs(t', steps, k + 1) && DoneIs(t', steps, k + 1)
  {
    var t' := t.Signal(steps[k].task.txs);
    forall tx, c
      ensures WaitsOn(t', tx, c) <==> Waits(steps, k + 1, tx, c)
    {
      WaitsGrows(steps, k, tx, c);
    }
    forall c
      ensures c in t'.closed <==> Released(steps, k + 1, c)
    {
      SignalClosesWaiters(t, steps, k, c);
    }
    forall tx
      ensures tx in t'.done <==> Signalled(steps, k + 1, tx)
    {
      SignalledGrows(steps, k, tx);
    }
  }

  ghost function Called(t: TxState, step: Step): TxState
    requires ConcernsCallers(step)
  {
    if step.Register? then t.Register(step.tx, step.channel)
    else if step.Cancel? then t.Cancel(step.tx)
    else t.Signal(step.task.txs)
  }

  lemma CallerStepIsSeen(t: TxState, steps: seq<Step>, k: nat)
    requires k < |steps| && ConcernsCallers(steps[k])
    requires WaitingIs(t, steps, k) && ClosedIs(t, steps, k) && DoneIs(t, steps, k)
    ensures
      var t' := Called(t, steps[k]);
      WaitingIs(t', steps, k + 1) && ClosedIs(t', steps, k + 1) && DoneIs(t', steps, k + 1)
  {
    if steps[k].Register? {
      RegisterIsSeen(t, steps, k);
    } else if steps[k].Cancel? {
      CancelIsSeen(t, steps, k);
    } else {
      SignalIsSeen(t, steps, k);
    }
  }

  lemma CallerSteps(p: Process, step: Step)
    requires ConcernsCallers(step)
    ensures After(p, step).node.txs == Called(p.node.txs, step)
  {
  }

  lemma StepIsSeen(p: Process, steps: seq<Step>, k: nat)
    requires k < |steps|
    requires WaitingIs(p.node.txs, steps, k) && ClosedIs(p.node.txs, steps, k) && DoneIs(p.node.txs, steps, k)
    ensures
      var t' := After(p, steps[k]).node.txs;
      WaitingIs(t', steps, k + 1) && ClosedIs(t', steps, k + 1) && DoneIs(t', steps, k + 1)
  {
    var t, step := p.node.txs, steps[k];
    if !ConcernsCallers(step) {
      OtherStepsKeepCallers(p, step);
      QuietKeepsAll(t, After(p, step).node.txs, steps, k);
    } else {
      CallerSteps(p, step);
      CallerStepIsSeen(t, steps, k);
    }
  }

  /**
   * Over every history a caller waits if and only if it registered and neither a newer caller of the transaction nor a
   * cancellation nor a signal came since; a channel is closed if and only if some signal named the transaction its
   * caller was then waiting for; and a transaction counts as finalized if and only if some signal named it.
   */
  lemma {:induction false} CallersAreExact(trace: seq<Process>, steps: seq<Step>, liars: set<nat>, k: nat)
    requires IsHistory(trace, steps, liars) && k <= |steps|
    ensures
      var t := trace[k].node.txs;
      WaitingIs(t, steps, k) && ClosedIs(t, steps, k) && DoneIs(t, steps, k)
  {
    if k == 0 {
      NobodyCalls(trace[0], steps);
    } else {
      CallersAreExact(trace, steps, liars, k - 1);
      RunStepIsSeen(trace, steps, liars, k - 1);
    }
  }

  lemma NobodyCalls(p: Process, steps: seq<Step>)
    requires Init(p)
    ensures WaitingIs(p.node.txs, steps, 0) && ClosedIs(p.node.txs, steps, 0) && DoneIs(p.node.txs, steps, 0)
  {
  }

  lemma RunStepIsSeen(trace: seq<Process>, steps: seq<Step>, liars: set<nat>, k: nat)
    requires IsHistory(trace, steps, liars) && k < |steps|
    requires
      var t := trace[k].node.txs;
      WaitingIs(t, steps, k) && ClosedIs(t, steps, k) && DoneIs(t, steps, k)
    ensures
      var t := trace[k + 1].node.txs;
      WaitingIs(t, steps, k + 1) && ClosedIs(t, steps, k + 1) && DoneIs(t, steps, k + 1)
  {
    assert StepsFrom(trace, steps, k, liars);
    StepIsSeen(trace[k], steps, k);
  }
}
