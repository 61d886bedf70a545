/** What a Simplex node sends: votes for the leader's block on its own chain, and its own proposals when it leads. */
module SimplexVoting {
  import opened Options
  import opened SimplexReconfigTx
  import opened SimplexTypes
  import opened SimplexNode
  import opened SimplexProcess
  import opened SimplexHistory
  import opened SimplexMembership

  // ---- Leader and parent, written out ----------------------------------------------------------

  /** The member that the draw for the height picks. */
  ghost predicate IsLeader(nd: Node, h: nat, i: nat) {
    && nd.group.members != []
    && i == nd.group.members[nd.hashing.draw(h) % |nd.group.members|]
  }

  /** The text of a block under the chain hash. */
  ghost function HashedText(b: Block): string {
    Format(b.Height()) + "|" + b.ParentHash() + "|" + Join(b.Txs()) + "|"
  }

  /** The name by which a new block refers to the chain: its last entry only. */
  ghost predicate PointsTo(nd: Node, parent: string) {
    if nd.chain == [] then parent == "genesis"
    else
      var last := nd.chain[|nd.chain| - 1];
      last.Some? && parent == nd.hashing.sum(HashedText(last.value.block))
  }

  lemma ChainHashPoints(nd: Node, parent: string)
    requires ChainOk(nd.chain)
    ensures PointsTo(nd, parent) <==> parent == ChainHash(nd.hashing, nd.chain)
  {
    if nd.chain != [] {
      var b := nd.chain[|nd.chain| - 1].value.block;
      assert b.Text() + "|" == HashedText(b);
    }
  }

  // ---- Votes -----------------------------------------------------------------------------------

  /** The node is a member that has not voted at its height, and the proposal is its leader's, on its own chain. */
  ghost predicate MayVote(nd: Node, m: Proposal) {
    && nd.id in nd.group.members && m.height == nd.height && m.height !in nd.voted
    && IsLeader(nd, m.height, m.leader)
    && m.block.Block? && m.block.number == m.height && PointsTo(nd, m.block.parent)
  }

  lemma VotableExactly(nd: Node, m: Proposal)
    requires nd.height >= 1 && ChainOk(nd.chain)
    ensures MayVote(nd, m) <==> m.height == nd.height && nd.Votable(m)
  {
    ChainHashPoints(nd, m.block.ParentHash());
  }

  /** The whole answer to a proposal: one vote and a mark, a place in the buffer, or nothing. */
  lemma ProposalIsAnswered(nd: Node, m: Proposal)
    requires nd.height >= 1 && ChainOk(nd.chain)
    ensures
      var r := nd.HandlePropose(m);
      && r.sends == (if MayVote(nd, m) then [Voted(Vote(m.height, m.block, nd.id))] else [])
      && r.node.voted == (if MayVote(nd, m) then nd.voted + {m.height} else nd.voted)
      && r.node == nd.(voted := r.node.voted, buffers := r.node.buffers)
      && (m.height <= nd.height ==> r.node.buffers == nd.buffers)
  {
    VotableExactly(nd, m);
  }

  // ---- Everything that goes out ----------------------------------------------------------------

  ghost function Sends(p: Process, step: Step): seq<Send> {
    match step
    case Start => p.node.Start().sends
    case TimeOut(h) => p.node.TimeOut(h).sends
    case Propose(m) => p.node.HandlePropose(m).sends
    case Count(v) => p.node.HandleVote(v).sends
    case Finalize(h, from) => p.node.HandleFinalize(h, from).sends
    case Notarize(h, nota) => p.node.ApplyNotarization(h, nota).sends
    case Run(task) => p.node.RunTask(task).sends
    case _ => []
  }

  /** The timer of the current height fires for the first time. */
  ghost predicate TimesOut(nd: Node, step: Step) {
    step.TimeOut? && step.height == nd.height && !nd.timerFired
  }

  lemma HandlersSendNothing(p: Process, step: Step)
    requires step.Count? || step.Finalize? || step.Notarize?
    ensures Sends(p, step) == []
  {
    match step
    case Count(v) => VoteSendsNothing(p.node, v);
    case Finalize(h, from) =>
    case Notarize(h, nota) => NotarizationSendsNothing(p.node, h, nota);
  }

  lemma VoteSendsNothing(nd: Node, v: Vote)
    ensures nd.HandleVote(v).sends == []
  {
    VoteCertifies(nd, v);
  }

  lemma NotarizationSendsNothing(nd: Node, h: nat, nota: Notarization)
    ensures nd.ApplyNotarization(h, nota).sends == []
  {
  }

  // ---- Proposals and announcements -------------------------------------------------------------

  /** The height that a step enters: the first one with Start, or the next one by an advance that takes effect. */
  ghost predicate Enters(p: Process, step: Step, h: nat) {
    || (step.Start? && p.node.height == 1 == h)
    || (step.Run? && TakesEffect(p, step.task) && h == p.node.height + 1)
  }

  /** The proposal of a leader: everything in the pool that is not final yet, on the end of the own chain. */
  ghost predicate Proposes(nd: Node, txs: TxState, h: nat, m: Proposal) {
    && nd.id in nd.group.members && IsLeader(nd, h, nd.id)
    && m.height == h && m.leader == nd.id
    && m.block.Block? && m.block.number == h && PointsTo(nd, m.block.parent)
    && m.block.content == Without(txs.pool, txs.done)
  }

  lemma ProposingIsExact(nd: Node, h: nat, m: Proposal)
    requires ChainOk(nd.chain)
    ensures Proposed(m) in nd.Proposing(h) <==> Proposes(nd, nd.txs, h, m)
  {
    ChainHashPoints(nd, m.block.ParentHash());
    assert nd.Leads(h) <==> nd.id in nd.group.members && IsLeader(nd, h, nd.id);
  }

  lemma EnteredNode(nd: Node, h: nat)
    ensures
      var nd' := nd.EnterIteration(h).node;
      nd'.id == nd.id && nd'.hashing == nd.hashing && nd'.group == nd.group && nd'.chain == nd.chain && nd'.height == h
  {
  }

  /** The group and the chain of the height being entered decide. */
  lemma SameProposes(nd: Node, nd': Node, txs: TxState, h: nat, m: Proposal)
    requires nd'.id == nd.id && nd'.hashing == nd.hashing && nd'.group == nd.group && nd'.chain == nd.chain
    ensures Proposes(nd', txs, h, m) <==> Proposes(nd, txs, h, m)
  {
  }

  /** Some proposals, the finalize message of one height, one certificate, no other of these, and no vote. */
  ghost predicate SendsThese(sends: seq<Send>, proposals: seq<Send>, h: nat, i: nat, nota: Notarization) {
    && (forall m :: Proposed(m) in sends <==> Proposed(m) in proposals)
    && (forall k, j :: Finalized(k, j) in sends <==> k == h && j == i)
    && (forall c :: Chain(c) in sends <==> c == [Some(nota)])
    && (forall v :: Voted(v) !in sends)
  }

  lemma OneOfThree(first: seq<Send>, last: seq<Send>, h: nat, i: nat, nota: Notarization)
    requires forall x :: x in first ==> x.Proposed?
    requires forall x :: x in last ==> x.ChainTo?
    ensures SendsThese(first + [Finalized(h, i), Chain([Some(nota)])] + last, first, h, i, nota)
  {
    var middle := [Finalized(h, i), Chain([Some(nota)])];
    assert middle[0] in middle && middle[1] in middle;
    assert forall x :: x in first + middle + last <==> x in first || x in middle || x in last;
  }

  lemma ProposingSends(nd: Node, h: nat)
    ensures forall x :: x in nd.Proposing(h) ==> x.Proposed?
  {
  }

  lemma CatchingUpSends(nd: Node, nota: Notarization)
    ensures forall x :: x in nd.CatchingUp(nd.height, nota) ==> x.ChainTo?
  {
  }

  lemma AdvanceSendsInOrder(nd: Node, nota: Notarization)
    ensures nd.Advance(nd.height, nota).sends
         == nd.Entering(nd.height, nota).Proposing(nd.height + 1) + [Finalized(nd.height, nd.id), Chain([Some(nota)])]
            + nd.CatchingUp(nd.height, nota)
  {
  }

  /** What an advance that takes effect sends. */
  lemma AdvanceSends(nd: Node, nota: Notarization, first: seq<Send>, last: seq<Send>)
    requires first == nd.Entering(nd.height, nota).Proposing(nd.height + 1) && last == nd.CatchingUp(nd.height, nota)
    ensures SendsThese(nd.Advance(nd.height, nota).sends, first, nd.height, nd.id, nota)
  {
    ProposingSends(nd.Entering(nd.height, nota), nd.height + 1);
    CatchingUpSends(nd, nota);
    AdvanceSendsInOrder(nd, nota);
    OneOfThree(first, last, nd.height, nd.id, nota);
  }

  /** An advance takes effect. */
  ghost predicate Leaves(p: Process, step: Step, h: nat) {
    step.Run? && TakesEffect(p, step.task) && h == p.node.height
  }

  ghost predicate Announces(sends: seq<Send>, p: Process, step: Step, nd': Node) {
    && (forall m :: Proposed(m) in sends <==> Enters(p, step, m.height) && Proposes(nd', p.node.txs, m.height, m))
    && (forall h, i :: Finalized(h, i) in sends <==> Leaves(p, step, h) && i == p.node.id)
    && (forall c :: Chain(c) in sends <==> Leaves(p, step, p.node.height) && c == [Some(step.task.nota)])
  }

  lemma AdvanceAnnounces(p: Process, nota: Notarization, liars: set<nat>)
    requires Inv(p, liars) && nota.block.Height() == p.node.height
    ensures
      var step := Run(Task.Advance(p.node.height, nota));
      Announces(Sends(p, step), p, step, After(p, step).node)
  {
    var h, nd := p.node.height, p.node;
    var mid := nd.Entering(h, nota);
    AdvanceEnters(nd, h, nota);
    EnteringKeepsShape(nd, nota, liars);
    var nd', step := mid.EnterIteration(h + 1).node, Run(Task.Advance(h, nota));
    AdvanceSends(nd, nota, mid.Proposing(h + 1), nd.CatchingUp(h, nota));
    EntryProposes(mid, nd', h + 1);
    TheseAreAnnounced(nd.Advance(h, nota).sends, mid.Proposing(h + 1), p, step, nd');
  }

  lemma TheseAreAnnounced(sends: seq<Send>, proposals: seq<Send>, p: Process, step: Step, nd': Node)
    requires Leaves(p, step, p.node.height)
    requires SendsThese(sends, proposals, p.node.height, p.node.id, step.task.nota)
    requires forall m :: Proposed(m) in proposals
               <==> m.height == p.node.height + 1 && Proposes(nd', p.node.txs, m.height, m)
    ensures Announces(sends, p, step, nd')
  {
  }

  lemma EntryProposes(nd: Node, nd': Node, h: nat)
    requires ChainOk(nd.chain) && nd' == nd.EnterIteration(h).node
    ensures forall m :: Proposed(m) in nd.Proposing(h) <==> m.height == h && Proposes(nd', nd.txs, m.height, m)
  {
    EnteredNode(nd, h);
    forall m
      ensures Proposed(m) in nd.Proposing(h) <==> m.height == h && Proposes(nd', nd.txs, m.height, m)
    {
      ProposingIsExact(nd, h, m);
      SameProposes(nd, nd', nd.txs, h, m);
    }
  }

  lemma StartAnnounces(p: Process)
    requires p.node.height >= 1 && ChainOk(p.node.chain)
    ensures Announces(Sends(p, Start), p, Start, After(p, Start).node)
  {
    if p.node.height == 1 {
      EntryProposes(p.node, p.node.EnterIteration(1).node, 1);
      assert Sends(p, Start) == p.node.Proposing(1);
      ProposingSends(p.node, 1);
    }
  }

  lemma VotesAnnounceNothing(sends: seq<Send>, p: Process, step: Step, nd': Node)
    requires !step.Start? && !Leaves(p, step, p.node.height) && forall x :: x in sends ==> x.Voted?
    ensures Announces(sends, p, step, nd')
  {
  }

  lemma SendsOnlyVotes(p: Process, step: Step)
    requires !step.Start? && !Leaves(p, step, p.node.height)
    ensures forall x :: x in Sends(p, step) ==> x.Voted?
  {
    match step
    case Propose(m) => ProposalSendsVotes(p.node, m);
    case TimeOut(h) => TimeOutSends(p.node, h);
    case Run(task) => RunSendsNothing(p.node, task);
    case Count(_) => HandlersSendNothing(p, step);
    case Finalize(_, _) => HandlersSendNothing(p, step);
    case Notarize(_, _) => HandlersSendNothing(p, step);
    case _ =>
  }

  lemma ProposalSendsVotes(nd: Node, m: Proposal)
    ensures forall x :: x in nd.HandlePropose(m).sends ==> x.Voted?
  {
    assert nd.HandlePropose(m).sends == [] || nd.HandlePropose(m).sends == [Voted(Vote(m.height, m.block, nd.id))];
  }

  lemma RunSendsNothing(nd: Node, task: Task)
    requires task.Advance? ==> task.height != nd.height
    ensures nd.RunTask(task).sends == []
  {
  }

  /**
   * Every step of every run: a proposal goes out exactly on entering a height that the node leads, with the group and
   * the chain it enters it with, and a finalize message and the certificate exactly for the height being left.
   */
  lemma AnnouncementsAreExact(trace: seq<Process>, steps: seq<Step>, liars: set<nat>, k: nat)
    requires IsRun(trace, liars) && IsHistory(trace, steps, liars) && k < |steps|
    ensures Announces(Sends(trace[k], steps[k]), trace[k], steps[k], trace[k + 1].node)
  {
    HistoryKeepsInv(trace, steps, liars, k);
    if steps[k].Start? {
      StartAnnounces(trace[k]);
    } else if Leaves(trace[k], steps[k], trace[k].node.height) {
      AdvanceAnnounces(trace[k], steps[k].task.nota, liars);
    } else {
      SendsOnlyVotes(trace[k], steps[k]);
      VotesAnnounceNothing(Sends(trace[k], steps[k]), trace[k], steps[k], trace[k + 1].node);
    }
  }

  // ---- Votes that go out -----------------------------------------------------------------------

  lemma TimeOutSends(nd: Node, h: nat)
    ensures nd.TimeOut(h).sends
         == if h == nd.height && !nd.timerFired then [Voted(Vote(h, Block(h, "", []), nd.id))] else []
  {
  }

  /**
   * Every step of every run: a vote goes out exactly on a proposal of the leader for the current height, from a member
   * that has not voted there, for a block of that height on the end of the own chain; or when the timer fires, for the
   * timeout block.
   */
  lemma VotesAreExact(trace: seq<Process>, steps: seq<Step>, liars: set<nat>, k: nat, v: Vote)
    requires IsRun(trace, liars) && IsHistory(trace, steps, liars) && k < |steps|
    ensures
      var nd, step := trace[k].node, steps[k];
      Voted(v) in Sends(trace[k], step) <==>
        || (step.Propose? && MayVote(nd, step.proposal) && v == Vote(nd.height, step.proposal.block, nd.id))
        || (TimesOut(nd, step) && v == Vote(nd.height, Block(nd.height, "", []), nd.id))
  {
    HistoryKeepsInv(trace, steps, liars, k);
    VotesOfStep(trace[k], steps[k], v);
  }

  lemma VotesOfStep(p: Process, step: Step, v: Vote)
    requires p.node.height >= 1 && ChainOk(p.node.chain)
    ensures
      var nd := p.node;
      Voted(v) in Sends(p, step) <==>
        || (step.Propose? && MayVote(nd, step.proposal) && v == Vote(nd.height, step.proposal.block, nd.id))
        || (TimesOut(nd, step) && v == Vote(nd.height, Block(nd.height, "", []), nd.id))
  {
    if step.Propose? {
      ProposalIsAnswered(p.node, step.proposal);
    } else if step.TimeOut? {
      TimeOutSends(p.node, step.height);
    } else {
      OthersSendNoVotes(p, step);
    }
  }

  lemma OthersSendNoVotes(p: Process, step: Step)
    requires !step.Propose? && !step.TimeOut?
    ensures forall v :: Voted(v) !in Sends(p, step)
  {
    match step
    case Start => ProposingSends(p.node, 1);
    case Run(task) => RunSendsNoVotes(p.node, task);
    case Count(_) => HandlersSendNothing(p, step);
    case Finalize(_, _) => HandlersSendNothing(p, step);
    case Notarize(_, _) => HandlersSendNothing(p, step);
    case _ =>
  }

  lemma RunSendsNoVotes(nd: Node, task: Task)
    ensures forall v :: Voted(v) !in nd.RunTask(task).sends
  {
    if task.Advance? && task.height == nd.height {
      AdvanceSends(nd, task.nota, nd.Entering(nd.height, task.nota).Proposing(nd.height + 1),
                   nd.CatchingUp(nd.height, task.nota));
    } else {
      RunSendsNothing(nd, task);
    }
  }
}
