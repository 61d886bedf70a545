/** What it takes to certify a block: votes of two thirds of the members, each counted once. */
module SimplexCertifying {
  import opened Options
  import opened SimplexTypes
  import opened SimplexNode
  import opened SimplexProcess
  import opened SimplexHistory
  import opened SimplexMembership

  // ---- Who was counted -------------------------------------------------------------------------

  /** A vote on block identifier `bid` that the node looks at: for its own height, both are members. */
  ghost predicate Looks(nd: Node, step: Step, h: nat, bid: string) {
    && step.Count? && step.vote.height == h == nd.height && step.vote.block.ID() == bid
    && nd.id in nd.group.members && step.vote.voter in nd.group.members
  }

  ghost predicate LooksAt(trace: seq<Process>, steps: seq<Step>, j: nat, h: nat, bid: string)
    requires j < |steps| < |trace|
  {
    Looks(trace[j].node, steps[j], h, bid)
  }

  /** The members whose vote for that identifier was looked at in the first k steps. */
  ghost function Supporters(trace: seq<Process>, steps: seq<Step>, k: nat, h: nat, bid: string): set<nat>
    requires k <= |steps| < |trace|
  {
    set j | 0 <= j < k && LooksAt(trace, steps, j, h, bid) :: steps[j].vote.voter
  }

  lemma SupportersGrow(trace: seq<Process>, steps: seq<Step>, k: nat, h: nat, bid: string)
    requires k < |steps| < |trace|
    ensures Supporters(trace, steps, k + 1, h, bid)
         == Supporters(trace, steps, k, h, bid)
            + if Looks(trace[k].node, steps[k], h, bid) then {steps[k].vote.voter} else {}
  {
    assert LooksAt(trace, steps, k, h, bid) <==> Looks(trace[k].node, steps[k], h, bid);
  }

  // ---- The list of votes of one identifier -----------------------------------------------------

  ghost predicate OncePerVoter(list: seq<Vote>) {
    forall i, j :: 0 <= i < j < |list| ==> list[i].voter != list[j].voter
  }

  lemma VotersOfLonger(list: seq<Vote>, v: Vote)
    ensures Voters(list + [v]) == Voters(list) + {v.voter}
    ensures HasVoter(list, v.voter) <==> v.voter in Voters(list)
    ensures OncePerVoter(list) && v.voter !in Voters(list) ==> OncePerVoter(list + [v])
  {
    var longer := list + [v];
    assert longer[|list|] == v;
    forall x | x in Voters(list)
      ensures x in Voters(longer)
    {
      var i :| 0 <= i < |list| && list[i].voter == x;
      assert longer[i].voter == x;
    }
  }

  lemma FinalizingKeepsVotes(nd: Node, h: nat)
    ensures nd.TryFinalize(h).0.votes == nd.votes && nd.TryFinalize(h).0.notarized == nd.notarized
  {
    if nd.CanFinalize(h) {
      var b := nd.notarized[h].block;
      assert nd.Confirm(h, b).0.votes == nd.votes && nd.Confirm(h, b).0.notarized == nd.notarized;
    }
  }

  lemma CertifyKeepsVotes(nd: Node, h: nat, nota: Notarization)
    ensures
      var r := nd.Certify(h, nota);
      && r.node.votes == nd.votes && r.node.notarized == nd.notarized[h := nota] && Task.Advance(h, nota) in r.tasks
  {
    FinalizingKeepsVotes(nd.(notarized := nd.notarized[h := nota]), h);
  }

  lemma VotesForOther(nd: Node, v: Vote, h: nat, bid: string)
    ensures nd.WithVote(v).VotesFor(h, bid)
         == nd.VotesFor(h, bid) + if h == v.height && bid == v.block.ID() then [v] else []
  {
  }

  /** The vote joins the list of its block, unless its voter is there already. */
  ghost predicate Joins(nd: Node, v: Vote) {
    && Looks(nd, Count(v), v.height, v.block.ID())
    && v.voter !in Voters(nd.VotesFor(v.height, v.block.ID()))
  }

  /** The cases of a vote: it joins and completes a certificate, it only joins, or nothing is counted. */
  lemma VoteIsHandled(nd: Node, v: Vote)
    ensures
      var r, list := nd.HandleVote(v), nd.VotesFor(v.height, v.block.ID());
      var nota := Notarization(v.block, list + [v]);
      if !Joins(nd, v) then r.node.votes == nd.votes && r.node.notarized == nd.notarized && r.tasks == []
      else if 3 * (|list| + 1) >= 2 * nd.group.n && v.height !in nd.notarized then
        && r.node.votes == nd.WithVote(v).votes && r.node.notarized == nd.notarized[v.height := nota]
        && Task.Advance(v.height, nota) in r.tasks
      else r == Result(nd.WithVote(v), [], [], [])
  {
    var list := nd.VotesFor(v.height, v.block.ID());
    VotersOfLonger(list, v);
    if Joins(nd, v) {
      CertifyKeepsVotes(nd.WithVote(v), v.height, Notarization(v.block, list + [v]));
    }
  }

  lemma VoteJoins(nd: Node, v: Vote, h: nat, bid: string)
    ensures
      var nd' := nd.HandleVote(v).node;
      nd'.VotesFor(h, bid) == nd.VotesFor(h, bid)
                              + if Joins(nd, v) && h == v.height && bid == v.block.ID() then [v] else []
  {
    VotesForOther(nd, v, h, bid);
    VoteIsHandled(nd, v);
  }

  // ---- Other steps count nothing ---------------------------------------------------------------

  lemma NotarizationKeepsVotes(nd: Node, h: nat, nota: Notarization)
    ensures
      var nd' := nd.ApplyNotarization(h, nota).node;
      && nd'.votes == nd.votes
      && nd'.notarized == if h == nd.height && h !in nd.notarized then nd.notarized[h := nota] else nd.notarized
  {
    if h == nd.height && h !in nd.notarized {
      var padded := Pad(nd.chain, h);
      CertifyKeepsVotes(nd.(chain := if |padded| + 1 == h then padded + [Some(nota)] else padded), h, nota);
    }
  }

  lemma AdvanceKeepsVotes(nd: Node, h: nat, nota: Notarization)
    ensures
      var nd' := nd.Advance(h, nota).node;
      nd'.votes == nd.votes && nd'.notarized == nd.notarized
  {
    if nd.height == h {
      AdvanceEnters(nd, h, nota);
      EnterKeepsVotes(nd.Entering(h, nota), h + 1);
    }
  }

  lemma EnterKeepsVotes(nd: Node, h: nat)
    ensures
      var nd' := nd.EnterIteration(h).node;
      nd'.votes == nd.votes && nd'.notarized == nd.notarized
  {
  }

  lemma FinalizeKeepsVotes(nd: Node, h: nat, from: nat)
    ensures
      var nd' := nd.HandleFinalize(h, from).node;
      nd'.votes == nd.votes && nd'.notarized == nd.notarized
  {
    FinalizingKeepsVotes(nd.(finalizes := nd.finalizes[h := nd.Finalizers(h) + {from}]), h);
  }

  lemma RunKeepsVotes(p: Process, task: Task)
    ensures
      var nd' := After(p, Run(task)).node;
      nd'.votes == p.node.votes && nd'.notarized == p.node.notarized
  {
    match task
    case Advance(h, nota) => AdvanceKeepsVotes(p.node, h, nota);
    case SignalTxs(txs) => assert After(p, Run(task)).node == p.node.(txs := p.node.txs.Signal(txs));
  }

  lemma LocalStepKeepsVotes(p: Process, step: Step)
    requires step.TimeOut? || step.Propose? || step.Add? || step.Register? || step.Cancel?
    ensures
      var nd' := After(p, step).node;
      nd'.votes == p.node.votes && nd'.notarized == p.node.notarized
  {
    match step
    case TimeOut(h) => assert After(p, step).node == p.node.(timerFired := p.node.TimeOut(h).node.timerFired);
    case Propose(m) => ProposeTouches(p.node, m);
    case Add(tx) => assert After(p, step).node == p.node.(txs := p.node.txs.Add(tx));
    case Register(tx, channel) => assert After(p, step).node == p.node.(txs := p.node.txs.Register(tx, channel));
    case Cancel(tx) => assert After(p, step).node == p.node.(txs := p.node.txs.Cancel(tx));
  }

  lemma StartKeepsVotes(p: Process)
    ensures
      var nd' := After(p, Start).node;
      nd'.votes == p.node.votes && nd'.notarized == p.node.notarized
  {
    EnterKeepsVotes(p.node, 1);
  }

  lemma OtherStepKeepsVotes(p: Process, step: Step)
    requires !step.Count? && !step.Notarize?
    ensures
      var nd' := After(p, step).node;
      nd'.votes == p.node.votes && nd'.notarized == p.node.notarized
  {
    match step
    case Finalize(h, from) => FinalizeKeepsVotes(p.node, h, from);
    case Run(task) => RunKeepsVotes(p, task);
    case Start => StartKeepsVotes(p);
    case _ => LocalStepKeepsVotes(p, step);
  }

  lemma StepJoins(p: Process, step: Step, h: nat, bid: string)
    ensures
      var nd, nd' := p.node, After(p, step).node;
      nd'.VotesFor(h, bid)
        == nd.VotesFor(h, bid)
           + if step.Count? && Joins(nd, step.vote) && h == step.vote.height && bid == step.vote.block.ID()
             then [step.vote] else []
  {
    match step
    case Count(v) => VoteJoins(p.node, v, h, bid);
    case Notarize(k, nota) => NotarizationKeepsVotes(p.node, k, nota);
    case _ => OtherStepKeepsVotes(p, step);
  }

  // ---- The list says who was counted -----------------------------------------------------------

  lemma OneMoreSupporter(nd: Node, nd': Node, step: Step, h: nat, bid: string, before: set<nat>)
    requires Voters(nd.VotesFor(h, bid)) == before && OncePerVoter(nd.VotesFor(h, bid))
    requires
      nd'.VotesFor(h, bid)
        == nd.VotesFor(h, bid)
           + if step.Count? && Joins(nd, step.vote) && h == step.vote.height && bid == step.vote.block.ID()
             then [step.vote] else []
    ensures Voters(nd'.VotesFor(h, bid)) == before + if Looks(nd, step, h, bid) then {step.vote.voter} else {}
    ensures OncePerVoter(nd'.VotesFor(h, bid))
  {
    var list := nd.VotesFor(h, bid);
    assert list + [] == list;
    if Looks(nd, step, h, bid) {
      VotersOfLonger(list, step.vote);
      assert step.vote.voter in before ==> before + {step.vote.voter} == before;
    }
  }

  /** Over any history the votes kept for an identifier are one of every member that was looked at, and no other. */
  lemma {:induction false} ListIsSupporters(trace: seq<Process>, steps: seq<Step>, liars: set<nat>, k: nat, h: nat,
      bid: string)
    requires IsHistory(trace, steps, liars) && k <= |steps|
    ensures
      var list := trace[k].node.VotesFor(h, bid);
      Voters(list) == Supporters(trace, steps, k, h, bid) && OncePerVoter(list)
  {
    if k > 0 {
      ListIsSupporters(trace, steps, liars, k - 1, h, bid);
      RunStepCounts(trace, steps, liars, k - 1, h, bid);
    }
  }

  lemma RunStepCounts(trace: seq<Process>, steps: seq<Step>, liars: set<nat>, k: nat, h: nat, bid: string)
    requires IsHistory(trace, steps, liars) && k < |steps|
    requires
      var list := trace[k].node.VotesFor(h, bid);
      Voters(list) == Supporters(trace, steps, k, h, bid) && OncePerVoter(list)
    ensures
      var list := trace[k + 1].node.VotesFor(h, bid);
      Voters(list) == Supporters(trace, steps, k + 1, h, bid) && OncePerVoter(list)
  {
    assert StepsFrom(trace, steps, k, liars);
    StepJoins(trace[k], steps[k], h, bid);
    OneMoreSupporter(trace[k].node, trace[k + 1].node, steps[k], h, bid, Supporters(trace, steps, k, h, bid));
    SupportersGrow(trace, steps, k, h, bid);
  }

  // ---- When a block is certified ---------------------------------------------------------------

  /** What a counted vote certifies, and what it leaves to do. */
  lemma VoteCertifiesExactly(nd: Node, v: Vote)
    ensures
      var r, list := nd.HandleVote(v), nd.VotesFor(v.height, v.block.ID());
      if Joins(nd, v) && 3 * (|list| + 1) >= 2 * nd.group.n && v.height !in nd.notarized then
        r.node.notarized == nd.notarized[v.height := Notarization(v.block, list + [v])]
        && Task.Advance(v.height, Notarization(v.block, list + [v])) in r.tasks
      else r.node.notarized == nd.notarized && r.tasks == []
  {
    VoteIsHandled(nd, v);
  }

  /** Two thirds of the members of the day support the identifier. */
  ghost predicate TwoThirdsSupport(trace: seq<Process>, steps: seq<Step>, k: nat, v: Vote)
    requires k < |steps| < |trace|
  {
    3 * |Supporters(trace, steps, k + 1, v.height, v.block.ID())| >= 2 * trace[k].node.group.n
  }

  /** The step looks at a vote of a member that has not supported that identifier before. */
  ghost predicate NewSupport(trace: seq<Process>, steps: seq<Step>, k: nat, v: Vote)
    requires k < |steps| < |trace|
  {
    && LooksAt(trace, steps, k, v.height, v.block.ID()) && steps[k] == Count(v)
    && v.voter !in Supporters(trace, steps, k, v.height, v.block.ID())
  }

  lemma SupportCounted(trace: seq<Process>, steps: seq<Step>, liars: set<nat>, k: nat, v: Vote)
    requires IsHistory(trace, steps, liars) && k < |steps| && steps[k] == Count(v)
    ensures
      var nd, list := trace[k].node, trace[k].node.VotesFor(v.height, v.block.ID());
      && (Joins(nd, v) <==> NewSupport(trace, steps, k, v))
      && (Joins(nd, v) ==>
            && |list| + 1 == |Supporters(trace, steps, k + 1, v.height, v.block.ID())|
            && Voters(list + [v]) == Supporters(trace, steps, k + 1, v.height, v.block.ID())
            && OncePerVoter(list + [v]))
  {
    var h, bid := v.height, v.block.ID();
    ListIsSupporters(trace, steps, liars, k, h, bid);
    SupportersGrow(trace, steps, k, h, bid);
    VotersOfLonger(trace[k].node.VotesFor(h, bid), v);
    VotersCounted(trace[k].node.VotesFor(h, bid));
  }

  lemma CountedVoteCertifies(p: Process, v: Vote)
    ensures
      var nd, p', list := p.node, After(p, Count(v)), p.node.VotesFor(v.height, v.block.ID());
      var nota := Notarization(v.block, list + [v]);
      if Joins(nd, v) && 3 * (|list| + 1) >= 2 * nd.group.n && v.height !in nd.notarized then
        p'.node.notarized == nd.notarized[v.height := nota] && Task.Advance(v.height, nota) in p'.tasks
      else p'.node.notarized == nd.notarized && p'.tasks == p.tasks
  {
    VoteCertifiesExactly(p.node, v);
  }

  /**
   * Every step of every run: a vote certifies its block, and makes the node go on from that height, if and only if no
   * certificate was there and it is a new supporter's that makes two thirds of the members support the identifier.
   * The certificate is the vote's block with one vote of every supporter.
   */
  lemma CertifiedExactly(trace: seq<Process>, steps: seq<Step>, liars: set<nat>, k: nat, v: Vote)
    requires IsHistory(trace, steps, liars) && k < |steps| && steps[k] == Count(v)
    ensures
      var nd, nd', h := trace[k].node, trace[k + 1].node, v.height;
      if h !in nd.notarized && NewSupport(trace, steps, k, v) && TwoThirdsSupport(trace, steps, k, v) then
        && nd'.notarized.Keys == nd.notarized.Keys + {h}
        && nd'.notarized[h].block == v.block && OncePerVoter(nd'.notarized[h].votes)
        && Voters(nd'.notarized[h].votes) == Supporters(trace, steps, k + 1, h, v.block.ID())
        && Task.Advance(h, nd'.notarized[h]) in trace[k + 1].tasks
      else nd'.notarized == nd.notarized && trace[k + 1].tasks == trace[k].tasks
  {
    assert StepsFrom(trace, steps, k, liars);
    CountedVoteCertifies(trace[k], v);
    SupportCounted(trace, steps, liars, k, v);
  }

  /** Besides votes, only a certificate received for the node's own height is recorded, the first one of that height. */
  lemma RecordedExactly(trace: seq<Process>, steps: seq<Step>, liars: set<nat>, k: nat)
    requires IsHistory(trace, steps, liars) && k < |steps| && !steps[k].Count?
    ensures
      var nd, nd', step := trace[k].node, trace[k + 1].node, steps[k];
      nd'.notarized ==
        if step.Notarize? && step.height == nd.height && step.height !in nd.notarized
        then nd.notarized[step.height := step.nota] else nd.notarized
  {
    assert StepsFrom(trace, steps, k, liars);
    var step := steps[k];
    if step.Notarize? {
      NotarizationKeepsVotes(trace[k].node, step.height, step.nota);
    } else {
      OtherStepKeepsVotes(trace[k], step);
    }
  }
}
