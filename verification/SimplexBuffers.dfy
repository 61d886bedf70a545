/** Messages for heights not entered yet: kept in order, and handed back when the height is entered. */
module SimplexBuffers {
  import opened Options
  import opened SimplexTypes
  import opened SimplexNode
  import opened SimplexProcess
  import opened SimplexHistory
  import opened SimplexVoting
  import M = SimplexMembership
  import T = SimplexTransactions

  // ---- What arrived ----------------------------------------------------------------------------

  ghost function ProposalsFor(steps: seq<Step>, k: nat, h: nat): seq<Proposal>
    requires k <= |steps|
  {
    if k == 0 then []
    else
      var before, step := ProposalsFor(steps, k - 1, h), steps[k - 1];
      if step.Propose? && step.proposal.height == h then before + [step.proposal] else before
  }

  ghost function VotesFor(steps: seq<Step>, k: nat, h: nat): seq<Vote>
    requires k <= |steps|
  {
    if k == 0 then []
    else
      var before, step := VotesFor(steps, k - 1, h), steps[k - 1];
      if step.Count? && step.vote.height == h then before + [step.vote] else before
  }

  ghost function CertificatesFor(steps: seq<Step>, k: nat, h: nat): seq<Notarization>
    requires k <= |steps|
  {
    if k == 0 then []
    else
      var before, step := CertificatesFor(steps, k - 1, h), steps[k - 1];
      if step.Notarize? && step.height == h then before + [step.nota] else before
  }

  // ---- What is kept ----------------------------------------------------------------------------

  /** All votes for the height in the order of arrival, the first proposal and the first certificate. */
  ghost predicate Keeps(b: Buffers, h: nat, ms: seq<Proposal>, vs: seq<Vote>, notas: seq<Notarization>) {
    && (if ms == [] then h !in b.proposals else h in b.proposals && b.proposals[h] == ms[0])
    && b.VotesAt(h) == vs
    && (if notas == [] then h !in b.notarizations else h in b.notarizations && b.notarizations[h] == notas[0])
  }

  ghost predicate KeepsArrived(trace: seq<Process>, steps: seq<Step>, k: nat, h: nat)
    requires k <= |steps| < |trace|
  {
    if h > trace[k].node.height
    then Keeps(trace[k].node.buffers, h, ProposalsFor(steps, k, h), VotesFor(steps, k, h), CertificatesFor(steps, k, h))
    else Keeps(trace[k].node.buffers, h, [], [], [])
  }

  /** The effect of a step on the buffers. */
  ghost function Buffering(nd: Node, step: Step): Buffers {
    match step
    case Propose(m) => if m.height > nd.height then nd.buffers.KeepProposal(m) else nd.buffers
    case Count(v) => if v.height > nd.height then nd.buffers.KeepVote(v) else nd.buffers
    case Notarize(h, nota) => if h > nd.height then nd.buffers.KeepNotarization(h, nota) else nd.buffers
    case _ => nd.buffers
  }

  lemma TryFinalizeBuffersNothing(nd: Node, h: nat)
    ensures nd.TryFinalize(h).0.buffers == nd.buffers
  {
  }

  lemma CertifyBuffersNothing(nd: Node, h: nat, nota: Notarization)
    ensures nd.Certify(h, nota).node.buffers == nd.buffers
  {
    TryFinalizeBuffersNothing(nd.(notarized := nd.notarized[h := nota]), h);
  }

  lemma VoteBuffers(nd: Node, v: Vote)
    ensures nd.HandleVote(v).node.buffers == Buffering(nd, Count(v))
  {
    M.VoteCertifies(nd, v);
    if nd.HandleVote(v).tasks != [] {
      CertifyBuffersNothing(nd.WithVote(v), v.height, Notarization(v.block, nd.VotesFor(v.height, v.block.ID()) + [v]));
    }
  }

  lemma NotarizationBuffers(nd: Node, h: nat, nota: Notarization)
    ensures nd.ApplyNotarization(h, nota).node.buffers == Buffering(nd, Notarize(h, nota))
  {
    if h == nd.height && h !in nd.notarized {
      var padded := Pad(nd.chain, h);
      CertifyBuffersNothing(nd.(chain := if |padded| + 1 == h then padded + [Some(nota)] else padded), h, nota);
    }
  }

  lemma FinalizeBuffersNothing(nd: Node, h: nat, from: nat)
    ensures nd.HandleFinalize(h, from).node.buffers == nd.buffers
  {
    TryFinalizeBuffersNothing(nd.(finalizes := nd.finalizes[h := nd.Finalizers(h) + {from}]), h);
  }

  lemma AdvanceReleases(nd: Node, h: nat, nota: Notarization)
    ensures nd.Advance(h, nota).node.buffers == if h == nd.height then nd.buffers.Release(h + 1) else nd.buffers
    ensures nd.Advance(h, nota).spawned == if h == nd.height then nd.buffers.Released(h + 1) else []
  {
    if h == nd.height {
      M.AdvanceEnters(nd, h, nota);
      EnterReleases(nd.Entering(h, nota), h + 1);
    }
  }

  lemma EnterReleases(nd: Node, h: nat)
    ensures nd.EnterIteration(h).node.buffers == nd.buffers.Release(h)
    ensures nd.EnterIteration(h).spawned == nd.buffers.Released(h)
  {
  }

  lemma RunReleases(p: Process, task: Task)
    ensures After(p, Run(task)).node.buffers
         == if TakesEffect(p, task) then p.node.buffers.Release(p.node.height + 1) else p.node.buffers
  {
    match task
    case Advance(h, nota) => AdvanceReleases(p.node, h, nota);
    case SignalTxs(txs) => assert After(p, Run(task)).node == p.node.(txs := p.node.txs.Signal(txs));
  }

  lemma StartReleases(p: Process)
    ensures After(p, Start).node.buffers == if p.node.height > 1 then p.node.buffers else p.node.buffers.Release(1)
  {
    EnterReleases(p.node, 1);
  }

  lemma MessageBuffers(p: Process, step: Step)
    requires !step.Run? && !step.Start?
    ensures After(p, step).node.buffers == Buffering(p.node, step)
  {
    match step
    case Count(v) => VoteBuffers(p.node, v);
    case Notarize(h, nota) => NotarizationBuffers(p.node, h, nota);
    case Finalize(h, from) => FinalizeBuffersNothing(p.node, h, from);
    case _ =>
  }

  // ---- Over a whole run ------------------------------------------------------------------------

  lemma ReleaseKeeps(b: Buffers, r: nat, h: nat, ms: seq<Proposal>, vs: seq<Vote>, notas: seq<Notarization>)
    requires Keeps(b, h, ms, vs, notas)
    ensures if h == r then Keeps(b.Release(r), h, [], [], []) else Keeps(b.Release(r), h, ms, vs, notas)
  {
  }

  /** A message for a height above is kept; nothing else changes what is kept for a height above. */
  lemma MessageKeeps(nd: Node, step: Step, h: nat, ms: seq<Proposal>, vs: seq<Vote>, notas: seq<Notarization>)
    requires !step.Run? && !step.Start? && Keeps(nd.buffers, h, ms, vs, notas)
    ensures
      var b, above := Buffering(nd, step), h > nd.height;
      Keeps(b, h,
            if above && step.Propose? && step.proposal.height == h then ms + [step.proposal] else ms,
            if above && step.Count? && step.vote.height == h then vs + [step.vote] else vs,
            if above && step.Notarize? && step.height == h then notas + [step.nota] else notas)
  {
  }

  lemma {:induction false} KeepsExactly(trace: seq<Process>, steps: seq<Step>, liars: set<nat>, k: nat, h: nat)
    requires IsRun(trace, liars) && IsHistory(trace, steps, liars) && k <= |steps|
    ensures KeepsArrived(trace, steps, k, h)
  {
    if k > 0 {
      KeepsExactly(trace, steps, liars, k - 1, h);
      RunStepKeepsExactly(trace, steps, liars, k - 1, h);
    }
  }

  lemma RunStepKeepsExactly(trace: seq<Process>, steps: seq<Step>, liars: set<nat>, k: nat, h: nat)
    requires IsRun(trace, liars) && IsHistory(trace, steps, liars) && k < |steps| && KeepsArrived(trace, steps, k, h)
    ensures KeepsArrived(trace, steps, k + 1, h)
  {
    HistoryKeepsInv(trace, steps, liars, k);
    StepKeepsExactly(trace, steps, k, h, liars);
  }

  lemma StepKeepsExactly(trace: seq<Process>, steps: seq<Step>, k: nat, h: nat, liars: set<nat>)
    requires k < |steps| < |trace| && KeepsArrived(trace, steps, k, h) && Inv(trace[k], liars)
    requires Enabled(trace[k], steps[k], liars) && trace[k + 1] == After(trace[k], steps[k])
    ensures KeepsArrived(trace, steps, k + 1, h)
  {
    var p, step := trace[k], steps[k];
    var above := h > p.node.height;
    var ms := if above then ProposalsFor(steps, k, h) else [];
    var vs := if above then VotesFor(steps, k, h) else [];
    var notas := if above then CertificatesFor(steps, k, h) else [];
    HeightMoves(p, step, liars);
    match step
    case Run(task) =>
      RunReleases(p, task);
      ReleaseKeeps(p.node.buffers, p.node.height + 1, h, ms, vs, notas);
    case Start =>
      StartReleases(p);
      ReleaseKeeps(p.node.buffers, 1, h, ms, vs, notas);
    case _ =>
      MessageBuffers(p, step);
      MessageKeeps(p.node, step, h, ms, vs, notas);
  }

  /** Only an advance that takes effect changes the height. */
  lemma HeightMoves(p: Process, step: Step, liars: set<nat>)
    requires p.node.height >= 1
    ensures After(p, step).node.height == if Leaves(p, step, p.node.height) then p.node.height + 1 else p.node.height
  {
    if Leaves(p, step, p.node.height) {
      M.AdvanceEnters(p.node, step.task.height, step.task.nota);
    } else if !(step.Start? && p.node.height == 1) {
      M.StepIsQuiet(p, step);
    }
  }

  ghost function Spawned(p: Process, step: Step): seq<Spawn> {
    match step
    case Start => p.node.Start().spawned
    case Run(task) => p.node.RunTask(task).spawned
    case _ => []
  }

  /** What is handed back to the handlers: the first proposal, every vote in order, the first certificate. */
  ghost function HandedBack(h: nat, ms: seq<Proposal>, vs: seq<Vote>, notas: seq<Notarization>): seq<Spawn> {
    (if ms == [] then [] else [Redeliver(ms[0])])
    + Recounts(vs)
    + if notas == [] then [] else [Reapply(h, notas[0])]
  }

  lemma ReleasedIsHandedBack(b: Buffers, h: nat, ms: seq<Proposal>, vs: seq<Vote>, notas: seq<Notarization>)
    requires Keeps(b, h, ms, vs, notas)
    ensures b.Released(h) == HandedBack(h, ms, vs, notas)
  {
  }

  /**
   * Every step of every run: whatever arrived for a height before it was entered is handed back when it is, of
   * proposals and certificates the first one, of votes all in the order of arrival; nothing is handed back otherwise.
   */
  lemma HandsBackExactly(trace: seq<Process>, steps: seq<Step>, liars: set<nat>, k: nat)
    requires IsRun(trace, liars) && IsHistory(trace, steps, liars) && k < |steps|
    ensures
      var p, h := trace[k], trace[k].node.height + 1;
      Spawned(p, steps[k])
      == if Leaves(p, steps[k], p.node.height)
         then HandedBack(h, ProposalsFor(steps, k, h), VotesFor(steps, k, h), CertificatesFor(steps, k, h))
         else []
  {
    var p, step, h := trace[k], steps[k], trace[k].node.height + 1;
    HistoryKeepsInv(trace, steps, liars, k);
    if Leaves(p, step, p.node.height) {
      KeepsExactly(trace, steps, liars, k, h);
      LeavingHandsBack(p, step, h, ProposalsFor(steps, k, h), VotesFor(steps, k, h), CertificatesFor(steps, k, h));
    } else {
      KeepsExactly(trace, steps, liars, k, 1);
      StayingHandsBackNothing(p, step);
    }
  }

  lemma LeavingHandsBack(p: Process, step: Step, h: nat, ms: seq<Proposal>, vs: seq<Vote>, notas: seq<Notarization>)
    requires Leaves(p, step, p.node.height) && h == p.node.height + 1 && Keeps(p.node.buffers, h, ms, vs, notas)
    ensures Spawned(p, step) == HandedBack(h, ms, vs, notas)
  {
    var task := step.task;
    AdvanceReleases(p.node, task.height, task.nota);
    assert Spawned(p, step) == p.node.Advance(task.height, task.nota).spawned;
    ReleasedIsHandedBack(p.node.buffers, h, ms, vs, notas);
  }

  lemma StayingHandsBackNothing(p: Process, step: Step)
    requires !Leaves(p, step, p.node.height) && p.node.height >= 1
    requires p.node.height == 1 ==> Keeps(p.node.buffers, 1, [], [], [])
    ensures Spawned(p, step) == []
  {
    if step.Start? && p.node.height == 1 {
      EnterReleases(p.node, 1);
      ReleasedIsHandedBack(p.node.buffers, 1, [], [], []);
    } else if step.Run? && step.task.Advance? {
      AdvanceReleases(p.node, step.task.height, step.task.nota);
    }
  }
}
