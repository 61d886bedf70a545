/** What an iteration of a Simplex node leaves behind: its timer, its unsuccessful proposal, the nodes that catch up. */
module SimplexIterations {
  import opened SimplexReconfigTx
  import opened SimplexTypes
  import opened SimplexNode
  import opened SimplexProcess
  import opened SimplexHistory
  import opened SimplexMembership
  import V = SimplexVoting

  // ---- The timer -------------------------------------------------------------------------------

  /** The step enters a height. */
  ghost predicate Entering(p: Process, step: Step) {
    (step.Start? && p.node.height <= 1) || (step.Run? && TakesEffect(p, step.task))
  }

  ghost predicate EntersAt(trace: seq<Process>, steps: seq<Step>, j: nat)
    requires j < |steps| < |trace|
  {
    Entering(trace[j], steps[j])
  }

  /** In step i the timer of the height of that time fired, and no height was entered up to step k. */
  ghost predicate FiredSince(trace: seq<Process>, steps: seq<Step>, i: nat, k: nat)
    requires k <= |steps| < |trace|
  {
    && i < k && steps[i] == TimeOut(trace[i].node.height)
    && forall j :: i <= j < k ==> !EntersAt(trace, steps, j)
  }

  ghost predicate HasFired(trace: seq<Process>, steps: seq<Step>, k: nat)
    requires k <= |steps| < |trace|
  {
    exists i: nat :: FiredSince(trace, steps, i, k)
  }

  lemma HasFiredGrows(trace: seq<Process>, steps: seq<Step>, k: nat)
    requires k < |steps| < |trace|
    ensures HasFired(trace, steps, k + 1) <==>
              && !Entering(trace[k], steps[k])
              && (HasFired(trace, steps, k) || steps[k] == TimeOut(trace[k].node.height))
  {
    assert EntersAt(trace, steps, k) <==> Entering(trace[k], steps[k]);
    if !Entering(trace[k], steps[k]) {
      if HasFired(trace, steps, k) {
        var i: nat :| FiredSince(trace, steps, i, k);
        assert FiredSince(trace, steps, i, k + 1);
      } else if steps[k] == TimeOut(trace[k].node.height) {
        assert FiredSince(trace, steps, k, k + 1);
      }
    }
    if HasFired(trace, steps, k + 1) {
      var i: nat :| FiredSince(trace, steps, i, k + 1);
      assert i < k ==> FiredSince(trace, steps, i, k);
    }
  }

  lemma FinalizingKeepsTimer(nd: Node, h: nat)
    ensures nd.TryFinalize(h).0.timerFired == nd.timerFired
  {
    if nd.CanFinalize(h) {
      assert nd.Confirm(h, nd.notarized[h].block).0.timerFired == nd.timerFired;
    }
  }

  lemma CertifyKeepsTimer(nd: Node, h: nat, nota: Notarization)
    ensures nd.Certify(h, nota).node.timerFired == nd.timerFired
  {
    FinalizingKeepsTimer(nd.(notarized := nd.notarized[h := nota]), h);
  }

  lemma VoteKeepsTimer(nd: Node, v: Vote)
    ensures nd.HandleVote(v).node.timerFired == nd.timerFired
  {
    VoteCertifies(nd, v);
    if nd.HandleVote(v).tasks != [] {
      CertifyKeepsTimer(nd.WithVote(v), v.height, Notarization(v.block, nd.VotesFor(v.height, v.block.ID()) + [v]));
    }
  }

  lemma NotarizationKeepsTimer(nd: Node, h: nat, nota: Notarization)
    ensures nd.ApplyNotarization(h, nota).node.timerFired == nd.timerFired
  {
    if h == nd.height && h !in nd.notarized {
      var mid := nd.(chain := nd.ApplyNotarization(h, nota).node.chain);
      CertifyKeepsTimer(mid, h, nota);
    }
  }

  lemma FinalizeKeepsTimer(nd: Node, h: nat, from: nat)
    ensures nd.HandleFinalize(h, from).node.timerFired == nd.timerFired
  {
    FinalizingKeepsTimer(nd.(finalizes := nd.finalizes[h := nd.Finalizers(h) + {from}]), h);
  }

  lemma MessageKeepsTimer(p: Process, step: Step)
    requires step.Count? || step.Notarize? || step.Finalize? || step.Propose?
    ensures After(p, step).node.timerFired == p.node.timerFired
  {
    match step
    case Count(v) => VoteKeepsTimer(p.node, v);
    case Notarize(h, nota) => NotarizationKeepsTimer(p.node, h, nota);
    case Finalize(h, from) => FinalizeKeepsTimer(p.node, h, from);
    case Propose(m) => ProposeTouches(p.node, m);
  }

  lemma AdvanceSetsTimer(nd: Node, h: nat, nota: Notarization)
    ensures nd.Advance(h, nota).node.timerFired <==> nd.height != h && nd.timerFired
  {
    if nd.height == h {
      AdvanceEnters(nd, h, nota);
      EnterSetsTimer(nd.Entering(h, nota), h + 1);
    }
  }

  lemma EnterSetsTimer(nd: Node, h: nat)
    ensures !nd.EnterIteration(h).node.timerFired
  {
  }

  lemma RunSetsTimer(p: Process, task: Task)
    ensures After(p, Run(task)).node.timerFired <==> !TakesEffect(p, task) && p.node.timerFired
  {
    match task
    case Advance(h, nota) => AdvanceSetsTimer(p.node, h, nota);
    case SignalTxs(txs) => assert After(p, Run(task)).node == p.node.(txs := p.node.txs.Signal(txs));
  }

  lemma LocalStepSetsTimer(p: Process, step: Step)
    requires step.TimeOut? || step.Add? || step.Register? || step.Cancel?
    ensures After(p, step).node.timerFired <==> p.node.timerFired || step == TimeOut(p.node.height)
  {
    match step
    case TimeOut(h) => assert After(p, step).node == p.node.TimeOut(h).node;
    case Add(tx) => assert After(p, step).node == p.node.(txs := p.node.txs.Add(tx));
    case Register(tx, channel) => assert After(p, step).node == p.node.(txs := p.node.txs.Register(tx, channel));
    case Cancel(tx) => assert After(p, step).node == p.node.(txs := p.node.txs.Cancel(tx));
  }

  lemma StartSetsTimer(p: Process)
    ensures After(p, Start).node.timerFired <==> p.node.height > 1 && p.node.timerFired
  {
    EnterSetsTimer(p.node, 1);
  }

  lemma StepSetsTimer(p: Process, step: Step)
    ensures After(p, step).node.timerFired <==>
              !Entering(p, step) && (p.node.timerFired || step == TimeOut(p.node.height))
  {
    match step
    case Start => StartSetsTimer(p);
    case Run(task) => RunSetsTimer(p, task);
    case Count(_) => MessageKeepsTimer(p, step);
    case Notarize(_, _) => MessageKeepsTimer(p, step);
    case Finalize(_, _) => MessageKeepsTimer(p, step);
    case Propose(_) => MessageKeepsTimer(p, step);
    case _ => LocalStepSetsTimer(p, step);
  }

  /** The timer of the current height has fired if and only if it did since the height was entered. */
  lemma {:induction false} TimerIsExact(trace: seq<Process>, steps: seq<Step>, liars: set<nat>, k: nat)
    requires IsHistory(trace, steps, liars) && k <= |steps|
    ensures trace[k].node.timerFired <==> HasFired(trace, steps, k)
  {
    if k > 0 {
      TimerIsExact(trace, steps, liars, k - 1);
      assert StepsFrom(trace, steps, k - 1, liars);
      StepSetsTimer(trace[k - 1], steps[k - 1]);
      HasFiredGrows(trace, steps, k - 1);
    }
  }

  /** A timer that fires makes the node vote for the timeout block once in every height it enters, and never late. */
  lemma TimeoutsAreExact(trace: seq<Process>, steps: seq<Step>, liars: set<nat>, k: nat)
    requires IsHistory(trace, steps, liars) && k < |steps| && steps[k].TimeOut?
    ensures
      var nd, h := trace[k].node, steps[k].height;
      V.Sends(trace[k], steps[k]) ==
        if h == nd.height && !HasFired(trace, steps, k) then [Voted(Vote(h, Block(h, "", []), nd.id))] else []
  {
    TimerIsExact(trace, steps, liars, k);
    V.TimeOutSends(trace[k].node, steps[k].height);
  }

  // ---- A proposal that a timeout block overtakes ------------------------------------------------

  ghost function AddAll(t: TxState, txs: seq<string>): TxState {
    if txs == [] then t else AddAll(t, txs[..|txs| - 1]).Add(txs[|txs| - 1])
  }

  lemma {:induction false} AddedInOrder(t: TxState, txs: seq<string>)
    ensures AddAll(t, txs) == t.(pool := t.pool + txs)
  {
    if txs == [] {
      assert t.pool + txs == t.pool;
    } else {
      var before, last := txs[..|txs| - 1], txs[|txs| - 1];
      AddedInOrder(t, before);
      assert t.pool + txs == (t.pool + before) + [last];
    }
  }

  /** The proposal of height h is out, and since then only new transactions were added. */
  ghost predicate ProposedThenAdded(nd: Node, nd': Node, h: nat, txs: seq<string>) {
    nd'.txs == AddAll(nd.EnterIteration(h).node.txs, txs)
  }

  /**
   * When the timeout block of a height wins at its leader, the pool is what it would be without the proposal: what was
   * there, in its order and without what was final, and then what was added since. Nothing is left proposed.
   */
  lemma TimeoutUndoesTheProposal(nd: Node, nd': Node, h: nat, txs: seq<string>)
    requires nd.Leads(h) && h !in nd.txs.proposed && ProposedThenAdded(nd, nd', h, txs)
    requires nd'.CanFinalize(h) && nd'.notarized[h].block.IsDummy()
    ensures
      var final, after := nd'.TryFinalize(h).1, nd'.TryFinalize(h).0.txs;
      final == [] && after == nd.txs.(pool := Without(nd.txs.pool, nd.txs.done) + txs)
  {
    LeaderProposed(nd, nd', h, txs);
    assert nd'.TryFinalize(h) == nd'.Confirm(h, nd'.notarized[h].block);
    Unproposed(nd.txs, h, txs);
  }

  /** What the leader has proposed and received since. */
  ghost function Proposed(t: TxState, h: nat, txs: seq<string>): TxState {
    var mine := Without(t.pool, t.done);
    t.(pool := txs, proposed := if mine == [] then t.proposed else t.proposed[h := mine])
  }

  lemma LeaderProposed(nd: Node, nd': Node, h: nat, txs: seq<string>)
    requires nd.Leads(h) && ProposedThenAdded(nd, nd', h, txs)
    ensures nd'.txs == Proposed(nd.txs, h, txs)
  {
    assert nd.EnterIteration(h).node.txs == nd.txs.Drain(h).0;
    AddedInOrder(nd.txs.Drain(h).0, txs);
    assert [] + txs == txs;
  }

  lemma Unproposed(t: TxState, h: nat, txs: seq<string>)
    requires h !in t.proposed
    ensures Proposed(t, h, txs).Rescue(h) == t.(pool := Without(t.pool, t.done) + txs)
    ensures Proposed(t, h, txs).Settle(h) == t.(pool := txs)
  {
    var mine := Without(t.pool, t.done);
    assert t.proposed - {h} == t.proposed && t.proposed[h := mine] - {h} == t.proposed;
    assert [] + txs == txs;
  }

  /** When its own block wins instead, what it proposed is final and only what was added since is left in the pool. */
  lemma OwnBlockUsesTheProposal(nd: Node, nd': Node, h: nat, txs: seq<string>)
    requires nd.Leads(h) && h !in nd.txs.proposed && ProposedThenAdded(nd, nd', h, txs)
    requires nd'.CanFinalize(h) && nd'.notarized[h].block == nd.ProposalAt(h).block
    ensures
      var final, after := nd'.TryFinalize(h).1, nd'.TryFinalize(h).0.txs;
      nd'.notarized[h].block.IsDummy() || (final == Without(nd.txs.pool, nd.txs.done) && after == nd.txs.(pool := txs))
  {
    LeaderProposed(nd, nd', h, txs);
    assert nd'.TryFinalize(h) == nd'.Confirm(h, nd'.notarized[h].block);
    Unproposed(nd.txs, h, txs);
  }

  // ---- Who catches up --------------------------------------------------------------------------

  /** Some transaction of the block makes the node a member. */
  ghost predicate JoinsAt(g: Group, txs: seq<string>, i: nat, x: nat) {
    i < |txs| && x !in g.ApplyTxs(txs[..i]).members && x in g.ApplyTxs(txs[..i + 1]).members
  }

  ghost predicate JoinsIn(g: Group, txs: seq<string>, x: nat) {
    exists i: nat :: JoinsAt(g, txs, i, x)
  }

  lemma JoinsInLonger(g: Group, txs: seq<string>, x: nat)
    requires txs != []
    ensures JoinsIn(g, txs, x) <==> JoinsIn(g, txs[..|txs| - 1], x) || JoinsAt(g, txs, |txs| - 1, x)
  {
    var before := txs[..|txs| - 1];
    forall i: nat | i < |before|
      ensures JoinsAt(g, txs, i, x) <==> JoinsAt(g, before, i, x)
    {
      assert before[..i] == txs[..i] && before[..i + 1] == txs[..i + 1];
    }
    if JoinsIn(g, before, x) {
      var i: nat :| JoinsAt(g, before, i, x);
      assert JoinsAt(g, txs, i, x);
    }
    if JoinsIn(g, txs, x) {
      var i: nat :| JoinsAt(g, txs, i, x);
      assert i < |before| ==> JoinsAt(g, before, i, x);
    }
  }

  /** Whom one transaction makes a member. */
  lemma TxJoins(g: Group, tx: string, x: nat)
    ensures x in g.JoiningTx(tx) <==> x !in g.members && x in g.ApplyTx(tx).members
  {
    if Parse(tx).Members? {
      WithoutElements(Parse(tx).ids, Elements(g.members));
      assert x in g.Joining(Parse(tx).ids) <==> x in Elements(g.Joining(Parse(tx).ids));
    }
  }

  lemma {:induction false} JoiningIsExact(g: Group, txs: seq<string>, x: nat)
    ensures x in g.JoiningTxs(txs) <==> JoinsIn(g, txs, x)
  {
    if txs == [] {
    } else {
      var before, last := txs[..|txs| - 1], txs[|txs| - 1];
      JoiningIsExact(g, before, x);
      JoinsInLonger(g, txs, x);
      TxJoins(g.ApplyTxs(before), last, x);
      assert txs[..|txs|] == txs;
      JoiningGrows(g, txs, x);
    }
  }

  lemma JoiningGrows(g: Group, txs: seq<string>, x: nat)
    requires txs != []
    ensures
      var before, last := txs[..|txs| - 1], txs[|txs| - 1];
      x in g.JoiningTxs(txs) <==> x in g.JoiningTxs(before) || x in g.ApplyTxs(before).JoiningTx(last)
  {
    var before := txs[..|txs| - 1];
    var joined, joining := g.JoiningTxs(before), g.ApplyTxs(before).JoiningTx(txs[|txs| - 1]);
    WithoutElements(joining, Elements(joined));
    DedupDistinct(Without(joining, Elements(joined)));
    assert x in Without(joining, Elements(joined)) <==> x in Elements(Without(joining, Elements(joined)));
  }

  /** Nobody is listed twice. */
  lemma {:induction false} JoiningIsDistinct(g: Group, txs: seq<string>)
    ensures Distinct(g.JoiningTxs(txs))
  {
    if txs == [] {
    } else {
      var before, last := txs[..|txs| - 1], txs[|txs| - 1];
      JoiningIsDistinct(g, before);
      var joined, joining := g.JoiningTxs(before), g.ApplyTxs(before).JoiningTx(last);
      NewerAreDistinct(joined, joining);
    }
  }

  lemma NewerAreDistinct(joined: seq<nat>, joining: seq<nat>)
    requires Distinct(joined)
    ensures Distinct(joined + Dedup(Without(joining, Elements(joined))))
  {
    var newer := Without(joining, Elements(joined));
    WithoutElements(joining, Elements(joined));
    DedupDistinct(newer);
    assert SameElements(newer, Dedup(newer));
    forall x | x in Dedup(newer)
      ensures x !in joined
    {
      assert x in newer && x in Elements(newer);
    }
    DistinctJoin(joined, Dedup(newer));
  }

  lemma DistinctJoin(xs: seq<nat>, ys: seq<nat>)
    requires Distinct(xs) && Distinct(ys) && forall x :: x in ys ==> x !in xs
    ensures Distinct(xs + ys)
  {
    forall i, j | 0 <= i < j < |xs + ys|
      ensures (xs + ys)[i] != (xs + ys)[j]
    {
      if i < |xs| <= j {
        assert ys[j - |xs|] in ys;
      }
    }
  }

  /**
   * Advancing sends the whole chain to exactly those nodes of the new outbound configuration that some transaction of
   * the block made members: to nobody when there are none, and never for the timeout block.
   */
  lemma CatchUpIsExact(nd: Node, nota: Notarization, x: nat)
    ensures
      var g := nd.group.ApplyBlock(nota.block);
      (exists targets :: x in targets && ChainTo(targets, nd.Append(nd.height, nota).chain)
                                         in nd.CatchingUp(nd.height, nota))
      <==> !nota.block.IsDummy() && JoinsIn(nd.group, nota.block.Txs(), x) && x in g.cfg
    ensures |nd.CatchingUp(nd.height, nota)| <= 1
    ensures forall s :: s in nd.CatchingUp(nd.height, nota) ==>
              s.ChainTo? && s.chain == nd.Append(nd.height, nota).chain
  {
    var h, g := nd.height, nd.group.ApplyBlock(nota.block);
    var joining := if nota.block.IsDummy() then [] else nd.group.JoiningTxs(nota.block.Txs());
    JoiningIsExact(nd.group, nota.block.Txs(), x);
    RestrictElements(g.cfg, Elements(joining));
    var targets := Restrict(g.cfg, Elements(joining));
    assert x in targets <==> x in Elements(targets);
    assert nd.CatchingUp(h, nota)
        == if targets != [] then [ChainTo(targets, nd.Append(h, nota).chain)] else [];
    if x in targets {
      assert nd.CatchingUp(h, nota)[0] == ChainTo(targets, nd.Append(h, nota).chain);
    }
  }
}
