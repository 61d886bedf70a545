/** What it takes to finalize a height: two thirds of its members, and a certificate. */
module SimplexFinality {
  import opened Options
  import opened SimplexTypes
  import opened SimplexNode
  import opened SimplexProcess
  import opened SimplexHistory
  import opened SimplexMembership
  import T = SimplexTransactions

  // ---- Who was counted -------------------------------------------------------------------------

  /** A finalize message that the node counts: both are members, and the height is still open. */
  ghost predicate Counts(nd: Node, step: Step, h: nat) {
    && step.Finalize? && step.height == h && h !in nd.finalized
    && nd.id in nd.group.members && step.from in nd.group.members
  }

  ghost predicate CountsAt(trace: seq<Process>, steps: seq<Step>, j: nat, h: nat)
    requires j < |steps| < |trace|
  {
    Counts(trace[j].node, steps[j], h)
  }

  /** The members whose finalize message for the height was counted in the first k steps. */
  ghost function Counted(trace: seq<Process>, steps: seq<Step>, k: nat, h: nat): set<nat>
    requires k <= |steps| < |trace|
  {
    set j | 0 <= j < k && CountsAt(trace, steps, j, h) :: steps[j].from
  }

  lemma TryFinalizeCountsNobody(nd: Node, h: nat)
    ensures nd.TryFinalize(h).0.finalizes == nd.finalizes
  {
  }

  lemma CertifyCountsNobody(nd: Node, h: nat, nota: Notarization)
    ensures nd.Certify(h, nota).node.finalizes == nd.finalizes
  {
    TryFinalizeCountsNobody(nd.(notarized := nd.notarized[h := nota]), h);
  }

  lemma FinalizeCounts(nd: Node, h: nat, from: nat)
    ensures
      var nd', step := nd.HandleFinalize(h, from).node, Step.Finalize(h, from);
      forall k :: nd'.Finalizers(k) == nd.Finalizers(k) + if Counts(nd, step, k) then {from} else {}
  {
    TryFinalizeCountsNobody(nd.(finalizes := nd.finalizes[h := nd.Finalizers(h) + {from}]), h);
  }

  lemma AdvanceCountsNobody(nd: Node, h: nat, nota: Notarization)
    ensures nd.Advance(h, nota).node.finalizes == nd.finalizes
  {
    if nd.height == h {
      AdvanceEnters(nd, h, nota);
      EnterCountsNobody(nd.Entering(h, nota), h + 1);
    }
  }

  lemma EnterCountsNobody(nd: Node, h: nat)
    ensures nd.EnterIteration(h).node.finalizes == nd.finalizes
  {
  }

  lemma VoteCountsNobody(nd: Node, v: Vote)
    ensures nd.HandleVote(v).node.finalizes == nd.finalizes
  {
    VoteCertifies(nd, v);
    if nd.HandleVote(v).tasks != [] {
      CertifyCountsNobody(nd.WithVote(v), v.height, Notarization(v.block, nd.VotesFor(v.height, v.block.ID()) + [v]));
    }
  }

  lemma NotarizationCountsNobody(nd: Node, h: nat, nota: Notarization)
    ensures nd.ApplyNotarization(h, nota).node.finalizes == nd.finalizes
  {
    if h == nd.height && h !in nd.notarized {
      var padded := Pad(nd.chain, h);
      CertifyCountsNobody(nd.(chain := if |padded| + 1 == h then padded + [Some(nota)] else padded), h, nota);
    }
  }

  /** The steps that have nothing to do with finalizing. */
  lemma OtherStepsCountNobody(p: Process, step: Step)
    requires step.TimeOut? || step.Propose? || step.Add? || step.Register? || step.Cancel?
    ensures
      var nd, nd' := p.node, After(p, step).node;
      nd'.finalizes == nd.finalizes && nd'.finalized == nd.finalized && nd'.notarized == nd.notarized
  {
    match step
    case TimeOut(h) => TimeOutOnlyFires(p.node, h);
    case Propose(m) => ProposeTouches(p.node, m);
    case Add(tx) => assert After(p, step).node == p.node.(txs := p.node.txs.Add(tx));
    case Register(tx, channel) => assert After(p, step).node == p.node.(txs := p.node.txs.Register(tx, channel));
    case Cancel(tx) => assert After(p, step).node == p.node.(txs := p.node.txs.Cancel(tx));
  }

  lemma TimeOutOnlyFires(nd: Node, h: nat)
    ensures nd.TimeOut(h).node == nd.(timerFired := nd.TimeOut(h).node.timerFired)
  {
  }

  lemma RunCountsNobody(p: Process, task: Task)
    ensures After(p, Run(task)).node.finalizes == p.node.finalizes
  {
    match task
    case Advance(h, nota) => AdvanceCountsNobody(p.node, h, nota);
    case SignalTxs(txs) => assert After(p, Run(task)).node == p.node.(txs := p.node.txs.Signal(txs));
  }

  lemma StartCountsNobody(p: Process)
    ensures After(p, Start).node.finalizes == p.node.finalizes
  {
    EnterCountsNobody(p.node, 1);
  }

  lemma MessageCounts(p: Process, step: Step)
    requires step.Count? || step.Notarize?
    ensures After(p, step).node.finalizes == p.node.finalizes
  {
    match step
    case Count(v) => VoteCountsNobody(p.node, v);
    case Notarize(k, nota) => NotarizationCountsNobody(p.node, k, nota);
  }

  lemma FinalizeStepCounts(p: Process, k: nat, from: nat, h: nat)
    ensures
      var step := Step.Finalize(k, from);
      After(p, step).node.Finalizers(h) == p.node.Finalizers(h) + if Counts(p.node, step, h) then {from} else {}
  {
    FinalizeCounts(p.node, k, from);
  }

  /** Nothing but a finalize message counts anybody. */
  lemma StepCounts(p: Process, step: Step, h: nat)
    ensures After(p, step).node.Finalizers(h)
         == p.node.Finalizers(h) + if Counts(p.node, step, h) then {step.from} else {}
  {
    match step
    case Finalize(k, from) => FinalizeStepCounts(p, k, from, h);
    case Count(_) => MessageCounts(p, step);
    case Notarize(_, _) => MessageCounts(p, step);
    case Run(task) => RunCountsNobody(p, task);
    case Start => StartCountsNobody(p);
    case _ => OtherStepsCountNobody(p, step);
  }

  /** Over any history the node's record is exactly the set of members it counted. */
  lemma {:induction false} RecordIsCounted(trace: seq<Process>, steps: seq<Step>, liars: set<nat>, k: nat, h: nat)
    requires IsHistory(trace, steps, liars) && k <= |steps|
    ensures trace[k].node.Finalizers(h) == Counted(trace, steps, k, h)
  {
    if k > 0 {
      RecordIsCounted(trace, steps, liars, k - 1, h);
      assert StepsFrom(trace, steps, k - 1, liars);
      StepCounts(trace[k - 1], steps[k - 1], h);
      CountedGrows(trace, steps, k - 1, h);
    }
  }

  lemma CountedGrows(trace: seq<Process>, steps: seq<Step>, k: nat, h: nat)
    requires k < |steps| < |trace|
    ensures Counted(trace, steps, k + 1, h)
         == Counted(trace, steps, k, h) + if Counts(trace[k].node, steps[k], h) then {steps[k].from} else {}
  {
    assert CountsAt(trace, steps, k, h) <==> Counts(trace[k].node, steps[k], h);
  }

  // ---- When a height becomes final -------------------------------------------------------------

  /** The membership size recorded for the height, or the one of the day where none is. */
  function SizeFor(nd: Node, h: nat): nat {
    if h in nd.heightN && nd.heightN[h] != 0 then nd.heightN[h] else nd.group.n
  }

  /** Two thirds have been counted, and the certificate is there. */
  ghost predicate Backed(nd: Node, h: nat) {
    h in nd.notarized && 3 * |nd.Finalizers(h)| >= 2 * SizeFor(nd, h)
  }

  /** A step after which the node looks again: it counts a finalize message, or records the certificate. */
  ghost predicate LooksAgain(nd: Node, nd': Node, step: Step, h: nat) {
    (step.Finalize? && Counts(nd, step, h)) || (h !in nd.notarized && h in nd'.notarized)
  }

  ghost predicate FinalizesExactly(nd: Node, nd': Node, looks: bool, h: nat) {
    h in nd'.finalized <==> h in nd.finalized || (looks && Backed(nd', h))
  }

  lemma ConfirmsOnly(nd: Node, h: nat, b: Block)
    ensures
      var nd' := nd.Confirm(h, b).0;
      && nd'.finalized == nd.finalized + {h} && nd'.notarized == nd.notarized && nd'.finalizes == nd.finalizes
      && nd'.heightN == nd.heightN && nd'.group == nd.group
  {
    if b.IsDummy() {
      assert nd.Confirm(h, b).0 == nd.(finalized := nd.finalized + {h}, txs := nd.txs.Rescue(h));
    }
  }

  lemma TryFinalizesExactly(nd: Node, h: nat, k: nat)
    ensures
      var nd' := nd.TryFinalize(h).0;
      && FinalizesExactly(nd, nd', k == h, k) && nd'.notarized == nd.notarized
      && nd'.Finalizers(k) == nd.Finalizers(k) && SizeFor(nd', k) == SizeFor(nd, k)
  {
    assert nd.CanFinalize(h) <==> h !in nd.finalized && Backed(nd, h);
    if nd.CanFinalize(h) {
      ConfirmsOnly(nd, h, nd.notarized[h].block);
    }
  }

  lemma CertifiesExactly(nd: Node, h: nat, nota: Notarization, k: nat)
    requires h !in nd.notarized
    ensures
      var nd' := nd.Certify(h, nota).node;
      FinalizesExactly(nd, nd', k !in nd.notarized && k in nd'.notarized, k)
  {
    TryFinalizesExactly(nd.(notarized := nd.notarized[h := nota]), h, k);
  }

  lemma FinalizeFinalizesExactly(nd: Node, k: nat, from: nat, h: nat)
    ensures
      var nd', step := nd.HandleFinalize(k, from).node, Step.Finalize(k, from);
      FinalizesExactly(nd, nd', Counts(nd, step, h), h) && nd'.notarized == nd.notarized
  {
    TryFinalizesExactly(nd.(finalizes := nd.finalizes[k := nd.Finalizers(k) + {from}]), k, h);
  }

  lemma VoteFinalizesExactly(nd: Node, v: Vote, h: nat)
    ensures var nd' := nd.HandleVote(v).node; FinalizesExactly(nd, nd', h !in nd.notarized && h in nd'.notarized, h)
  {
    VoteCertifies(nd, v);
    if nd.HandleVote(v).tasks != [] {
      T.CertifiesOnce(nd, v);
      CertifiesExactly(nd.WithVote(v), v.height, Notarization(v.block, nd.VotesFor(v.height, v.block.ID()) + [v]), h);
    } else {
      T.QuietVote(nd, v);
    }
  }

  lemma NotarizationFinalizesExactly(nd: Node, k: nat, nota: Notarization, h: nat)
    ensures
      var nd' := nd.ApplyNotarization(k, nota).node;
      FinalizesExactly(nd, nd', h !in nd.notarized && h in nd'.notarized, h)
  {
    if k == nd.height && k !in nd.notarized {
      var padded := Pad(nd.chain, k);
      CertifiesExactly(nd.(chain := if |padded| + 1 == k then padded + [Some(nota)] else padded), k, nota, h);
    } else {
      T.QuietNotarization(nd, k, nota);
    }
  }

  lemma StartFinalizesNothing(p: Process)
    ensures After(p, Start).node.finalized == p.node.finalized && After(p, Start).node.notarized == p.node.notarized
  {
    T.EnterFinalizesNothing(p.node, 1);
  }

  lemma MessageFinalizesExactly(p: Process, step: Step, h: nat)
    requires step.Count? || step.Notarize? || step.Finalize?
    ensures
      var nd, nd' := p.node, After(p, step).node;
      FinalizesExactly(nd, nd', LooksAgain(nd, nd', step, h), h)
  {
    match step
    case Finalize(k, from) => FinalizeFinalizesExactly(p.node, k, from, h);
    case Count(v) => VoteFinalizesExactly(p.node, v, h);
    case Notarize(k, nota) => NotarizationFinalizesExactly(p.node, k, nota, h);
  }

  /** One step, any node and height: both directions. */
  lemma StepFinalizesExactly(p: Process, step: Step, h: nat)
    ensures
      var nd, nd' := p.node, After(p, step).node;
      FinalizesExactly(nd, nd', LooksAgain(nd, nd', step, h), h)
  {
    match step
    case Run(task) => T.TasksFinalizeNothing(p, task);
    case Start => StartFinalizesNothing(p);
    case Finalize(_, _) => MessageFinalizesExactly(p, step, h);
    case Count(_) => MessageFinalizesExactly(p, step, h);
    case Notarize(_, _) => MessageFinalizesExactly(p, step, h);
    case _ => OtherStepsCountNobody(p, step);
  }

  ghost predicate TwoThirdsCounted(trace: seq<Process>, steps: seq<Step>, k: nat, h: nat)
    requires k <= |steps| < |trace|
  {
    h in trace[k].node.notarized && 3 * |Counted(trace, steps, k, h)| >= 2 * SizeFor(trace[k].node, h)
  }

  /**
   * Every step of every run: a height is final after it if and only if it was before, or the step counted a finalize
   * message for it or recorded its certificate, the certificate is there, and distinct members, each one when it was
   * counted, that sent finalize messages for it make up two thirds of the size that counts.
   */
  lemma FinalizedExactly(trace: seq<Process>, steps: seq<Step>, liars: set<nat>, k: nat, h: nat)
    requires IsHistory(trace, steps, liars) && k < |steps|
    ensures
      var nd, nd' := trace[k].node, trace[k + 1].node;
      h in nd'.finalized <==>
        h in nd.finalized || (LooksAgain(nd, nd', steps[k], h) && TwoThirdsCounted(trace, steps, k + 1, h))
  {
    assert StepsFrom(trace, steps, k, liars);
    StepFinalizesExactly(trace[k], steps[k], h);
    BackedIsCounted(trace, steps, liars, k + 1, h);
  }

  lemma BackedIsCounted(trace: seq<Process>, steps: seq<Step>, liars: set<nat>, k: nat, h: nat)
    requires IsHistory(trace, steps, liars) && k <= |steps|
    ensures Backed(trace[k].node, h) <==> TwoThirdsCounted(trace, steps, k, h)
  {
    RecordIsCounted(trace, steps, liars, k, h);
  }

  ghost predicate BecameFinal(trace: seq<Process>, steps: seq<Step>, j: nat, h: nat)
    requires |steps| < |trace|
  {
    && j < |steps| && h !in trace[j].node.finalized && h in trace[j + 1].node.finalized
    && TwoThirdsCounted(trace, steps, j + 1, h)
  }

  /** So behind every final height there is a moment at which it had its two thirds and its certificate. */
  lemma {:induction false} FinalHadBacking(trace: seq<Process>, steps: seq<Step>, liars: set<nat>, k: nat, h: nat)
    returns (j: nat)
    requires IsHistory(trace, steps, liars) && k <= |steps| && h in trace[k].node.finalized
    ensures j < k && BecameFinal(trace, steps, j, h)
  {
    if k > 0 {
      if h in trace[k - 1].node.finalized {
        j := FinalHadBacking(trace, steps, liars, k - 1, h);
      } else {
        j := k - 1;
        FinalizedExactly(trace, steps, liars, k - 1, h);
      }
    }
  }
}
