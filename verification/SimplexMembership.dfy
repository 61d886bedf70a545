/** Membership as a replay of the reconfigurations in the chain. */
module SimplexMembership {
  import opened Options
  import opened SimplexReconfigTx
  import opened SimplexTypes
  import opened SimplexNode
  import opened SimplexProcess

  /** The group after the blocks of a chain, in order; dummy blocks change nothing. */
  function Replay(g: Group, blocks: seq<Block>): Group {
    if blocks == [] then g else Replay(g, blocks[..|blocks| - 1]).ApplyBlock(blocks[|blocks| - 1])
  }

  function Blocks(notas: seq<Notarization>): seq<Block> {
    seq(|notas|, i requires 0 <= i < |notas| => notas[i].block)
  }

  /** The blocks of the first k chain entries. */
  function ChainBlocks(chain: seq<Option<Notarization>>, k: nat): seq<Block>
    requires k <= |chain|
  {
    seq(k, i requires 0 <= i < k => if chain[i].Some? then chain[i].value.block else NoBlock)
  }

  // ---- Lock regions: the blocks that took effect -----------------------------------------------

  /** The group, and the size recorded for every height entered, follow from the blocks applied so far. */
  ghost predicate Follows(p: Process, initial: Group) {
    && |p.applied| == p.node.height - 1
    && p.node.group == Replay(initial, Blocks(p.applied))
    && forall h :: h in p.node.heightN ==>
         1 <= h <= p.node.height && p.node.heightN[h] == Replay(initial, Blocks(p.applied[..h - 1])).n
  }

  lemma BlocksGrow(notas: seq<Notarization>, nota: Notarization)
    ensures Blocks(notas + [nota]) == Blocks(notas) + [nota.block]
    ensures Blocks(notas + [nota])[..|notas|] == Blocks(notas)
  {
  }

  lemma AdvanceEnters(nd: Node, h: nat, nota: Notarization)
    requires h == nd.height
    ensures nd.Advance(h, nota).node == nd.Entering(h, nota).EnterIteration(h + 1).node
    ensures var mid := nd.Entering(h, nota);
            && mid.txs == nd.txs && mid.finalized == nd.finalized && mid.notarized == nd.notarized
            && mid.finalizedTxs == nd.finalizedTxs && mid.id == nd.id && mid.voted == nd.voted
  {
  }

  lemma AdvanceFollows(p: Process, task: Task, initial: Group)
    requires Follows(p, initial) && task.Advance? && TakesEffect(p, task) && task in p.tasks
    ensures Follows(After(p, Run(task)), initial)
  {
    var p' := After(p, Run(task));
    BlocksGrow(p.applied, task.nota);
    assert p'.node.group == p.node.group.ApplyBlock(task.nota.block);
    forall h | h in p'.node.heightN
      ensures 1 <= h <= p'.node.height && p'.node.heightN[h] == Replay(initial, Blocks(p'.applied[..h - 1])).n
    {
      if h == p'.node.height {
        assert p'.applied[..h - 1] == p'.applied;
      } else {
        assert p'.applied[..h - 1] == p.applied[..h - 1];
      }
    }
  }

  /** Same group, height and recorded sizes. */
  ghost predicate Quiet(nd: Node, nd': Node) {
    nd'.group == nd.group && nd'.height == nd.height && nd'.heightN == nd.heightN
  }

  lemma TryFinalizeIsQuiet(nd: Node, h: nat)
    ensures var nd' := nd.TryFinalize(h).0;
            Quiet(nd, nd') && nd'.chain == nd.chain && nd'.notarized == nd.notarized && nd'.hashing == nd.hashing
  {
  }

  lemma CertifyIsQuiet(nd: Node, h: nat, nota: Notarization)
    ensures Quiet(nd, nd.Certify(h, nota).node)
  {
    TryFinalizeIsQuiet(nd.(notarized := nd.notarized[h := nota]), h);
  }

  lemma VoteIsQuiet(nd: Node, v: Vote)
    ensures Quiet(nd, nd.HandleVote(v).node)
  {
    CertifyIsQuiet(nd.WithVote(v), v.height, Notarization(v.block, nd.VotesFor(v.height, v.block.ID()) + [v]));
  }

  lemma ApplyIsQuiet(nd: Node, h: nat, nota: Notarization)
    ensures Quiet(nd, nd.ApplyNotarization(h, nota).node)
  {
    if h == nd.height {
      TimelyIsQuiet(nd, nota);
    } else {
      assert nd.ApplyNotarization(h, nota).node == nd.(buffers := nd.ApplyNotarization(h, nota).node.buffers);
    }
  }

  lemma TimelyIsQuiet(nd: Node, nota: Notarization)
    ensures Quiet(nd, nd.ApplyNotarization(nd.height, nota).node)
  {
    var h := nd.height;
    var padded := Pad(nd.chain, h);
    var mid := nd.(chain := if |padded| + 1 == h then padded + [Some(nota)] else padded);
    CertifyIsQuiet(mid, h, nota);
    assert nd.ApplyNotarization(h, nota).node == if h in nd.notarized then mid else mid.Certify(h, nota).node;
  }

  lemma FinalizeIsQuiet(nd: Node, h: nat, from: nat)
    ensures Quiet(nd, nd.HandleFinalize(h, from).node)
  {
    TryFinalizeIsQuiet(nd.(finalizes := nd.finalizes[h := nd.Finalizers(h) + {from}]), h);
  }

  lemma StepFollows(p: Process, step: Step, liars: set<nat>, initial: Group)
    requires Follows(p, initial) && p.node.height >= 1 && Enabled(p, step, liars)
    ensures Follows(After(p, step), initial)
  {
    if step.Run? && TakesEffect(p, step.task) {
      AdvanceFollows(p, step.task, initial);
    } else if step.Start? && p.node.height == 1 {
      assert p.applied == [] && p.applied[..0] == [];
    } else {
      StepIsQuiet(p, step);
    }
  }

  /** Any other step leaves group, height and recorded sizes alone. */
  lemma StepIsQuiet(p: Process, step: Step)
    requires p.node.height >= 1
    requires !(step.Run? && TakesEffect(p, step.task)) && !(step.Start? && p.node.height == 1)
    ensures Quiet(p.node, After(p, step).node) && After(p, step).applied == p.applied
  {
    match step
    case Count(v) => VoteIsQuiet(p.node, v);
    case Finalize(h, from) => FinalizeIsQuiet(p.node, h, from);
    case Notarize(h, nota) => ApplyIsQuiet(p.node, h, nota);
    case Propose(m) => ProposeIsQuiet(p.node, m);
    case _ => LocalStepIsQuiet(p, step);
  }

  lemma ProposeIsQuiet(nd: Node, m: Proposal)
    ensures var r := nd.HandlePropose(m);
            Quiet(nd, r.node) && r.tasks == [] && r.node.chain == nd.chain && r.node.notarized == nd.notarized
  {
    ProposeTouches(nd, m);
  }

  lemma LocalStepIsQuiet(p: Process, step: Step)
    requires p.node.height >= 1
    requires step.Start? || step.TimeOut? || step.Run? || step.Add? || step.Register? || step.Cancel?
    requires !(step.Run? && TakesEffect(p, step.task)) && !(step.Start? && p.node.height == 1)
    ensures Quiet(p.node, After(p, step).node) && After(p, step).applied == p.applied
  {
    match step
    case Start => assert p.node.Start().node == p.node;
    case Run(task) => TaskIsQuiet(p.node, task);
    case _ =>
  }

  lemma TaskIsQuiet(nd: Node, task: Task)
    requires task.Advance? ==> task.height != nd.height
    ensures Quiet(nd, nd.RunTask(task).node)
  {
  }

  lemma {:induction false} RunFollows(trace: seq<Process>, liars: set<nat>, k: nat)
    requires IsRun(trace, liars) && k < |trace|
    ensures Follows(trace[k], trace[0].node.group)
  {
    if k > 0 {
      RunFollows(trace, liars, k - 1);
      RunKeepsInv(trace, liars, k - 1, k - 1);
      RunStepFollows(trace, liars, k, trace[0].node.group);
    }
  }

  lemma RunStepFollows(trace: seq<Process>, liars: set<nat>, k: nat, initial: Group)
    requires IsRun(trace, liars) && 0 < k < |trace| && Inv(trace[k - 1], liars) && Follows(trace[k - 1], initial)
    ensures Follows(trace[k], initial)
  {
    RunSteps(trace, liars, k);
    NextFollows(trace[k - 1], trace[k], liars, initial);
  }

  lemma NextFollows(p: Process, p': Process, liars: set<nat>, initial: Group)
    requires Inv(p, liars) && Follows(p, initial) && Next(p, p', liars)
    ensures Follows(p', initial)
  {
    var step :| Enabled(p, step, liars) && p' == After(p, step);
    StepFollows(p, step, liars, initial);
  }

  // ---- Lock regions: when the chain tells the same story ---------------------------------------

  /** An advance that takes effect while the chain already has a block for its height finds its own block there. */
  ghost predicate FoundItsBlock(p: Process, p': Process) {
    |p'.applied| == |p.applied| + 1 && |p.node.chain| == p.node.height > 0 ==>
      var entry := p.node.chain[p.node.height - 1];
      entry.Some? && entry.value.block == p'.applied[|p.applied|].block
  }

  ghost predicate ChainIsApplied(p: Process) {
    && 1 <= p.node.height <= |p.node.chain| + 1
    && ChainBlocks(p.node.chain, p.node.height - 1) == Blocks(p.applied)
  }

  lemma LongerChain(chain: seq<Option<Notarization>>, chain': seq<Option<Notarization>>, k: nat)
    requires chain <= chain' && k <= |chain|
    ensures ChainBlocks(chain', k) == ChainBlocks(chain, k)
  {
  }

  lemma AdvanceAndChain(p: Process, task: Task, liars: set<nat>)
    requires Inv(p, liars) && task in p.tasks && task.Advance? && TakesEffect(p, task)
    ensures
      var p' := After(p, Run(task));
      ChainIsApplied(p') <==> ChainIsApplied(p) && FoundItsBlock(p, p')
  {
    var h, p' := p.node.height, After(p, Run(task));
    AdvanceEnters(p.node, h, task.nota);
    var chain' := p.node.Append(h, task.nota).chain;
    assert p'.node.chain == chain' && p'.node.height == h + 1 && p'.applied == p.applied + [task.nota];
    assert |chain'| == h && chain'[h - 1].Some?;
    AppendedBlocks(p.node.chain, chain', h, p.applied, task.nota);
    assert p'.applied[|p.applied|] == task.nota;
    assert |p.node.chain| == h - 1 ==> chain'[h - 1] == Some(task.nota);
    assert |p.node.chain| == h ==> chain'[h - 1] == p.node.chain[h - 1];
  }

  lemma AppendedBlocks(chain: seq<Option<Notarization>>, chain': seq<Option<Notarization>>, h: nat,
                       applied: seq<Notarization>, nota: Notarization)
    requires h >= 1 && chain <= chain' && h - 1 <= |chain| && |chain'| == h && chain'[h - 1].Some?
    requires |applied| == h - 1
    ensures ChainBlocks(chain', h) == Blocks(applied + [nota])
       <==> ChainBlocks(chain, h - 1) == Blocks(applied) && chain'[h - 1].value.block == nota.block
  {
    LongerChain(chain, chain', h - 1);
    BlocksGrow(applied, nota);
    assert ChainBlocks(chain', h) == ChainBlocks(chain', h - 1) + [chain'[h - 1].value.block];
    EqualAppended(ChainBlocks(chain', h - 1), chain'[h - 1].value.block, Blocks(applied), nota.block);
  }

  lemma EqualAppended(xs: seq<Block>, x: Block, ys: seq<Block>, y: Block)
    requires |xs| == |ys|
    ensures xs + [x] == ys + [y] <==> xs == ys && x == y
  {
    if xs + [x] == ys + [y] {
      assert (xs + [x])[|xs|] == x && (ys + [y])[|ys|] == y;
      assert xs == (xs + [x])[..|xs|] && ys == (ys + [y])[..|ys|];
    }
  }

  lemma StepAndChain(p: Process, step: Step, liars: set<nat>)
    requires Inv(p, liars) && FewLiars(p, liars) && Enabled(p, step, liars)
    ensures ChainIsApplied(After(p, step)) <==> ChainIsApplied(p) && FoundItsBlock(p, After(p, step))
  {
    StepKeepsInv(p, step, liars);
    if step.Run? && TakesEffect(p, step.task) {
      AdvanceAndChain(p, step.task, liars);
    } else {
      if !(step.Start? && p.node.height == 1) {
        StepIsQuiet(p, step);
      }
      LongerChain(p.node.chain, After(p, step).node.chain, p.node.height - 1);
    }
  }

  ghost predicate FoundAt(trace: seq<Process>, j: nat)
    requires j + 1 < |trace|
  {
    FoundItsBlock(trace[j], trace[j + 1])
  }

  ghost predicate FoundUpTo(trace: seq<Process>, k: nat)
    requires k < |trace|
  {
    forall j: nat :: j < k ==> FoundAt(trace, j)
  }

  lemma OneMoreFound(trace: seq<Process>, k: nat)
    requires 0 < k < |trace|
    ensures FoundUpTo(trace, k) <==> FoundUpTo(trace, k - 1) && FoundAt(trace, k - 1)
  {
  }

  lemma RunStepAndChain(trace: seq<Process>, liars: set<nat>, k: nat)
    requires IsRun(trace, liars) && 0 < k < |trace| && Inv(trace[k - 1], liars)
    ensures ChainIsApplied(trace[k]) <==> ChainIsApplied(trace[k - 1]) && FoundAt(trace, k - 1)
  {
    RunSteps(trace, liars, k);
    NextAndChain(trace[k - 1], trace[k], liars);
  }

  lemma NextAndChain(p: Process, p': Process, liars: set<nat>)
    requires Inv(p, liars) && FewLiars(p, liars) && Next(p, p', liars)
    ensures ChainIsApplied(p') <==> ChainIsApplied(p) && FoundItsBlock(p, p')
  {
    var step :| Enabled(p, step, liars) && p' == After(p, step);
    StepAndChain(p, step, liars);
  }

  lemma {:induction false} ChainIsAppliedExactly(trace: seq<Process>, liars: set<nat>, k: nat)
    requires IsRun(trace, liars) && k < |trace|
    ensures ChainIsApplied(trace[k]) <==> FoundUpTo(trace, k)
  {
    if k == 0 {
      assert ChainBlocks(trace[0].node.chain, 0) == Blocks(trace[0].applied);
    } else {
      ChainIsAppliedExactly(trace, liars, k - 1);
      OneMoreFound(trace, k);
      RunKeepsInv(trace, liars, k - 1, k);
      RunStepAndChain(trace, liars, k);
    }
  }

  /**
   * Under every interleaving: the blocks in the chain below the current height are the ones that took effect if and
   * only if every advance that took effect found its own block at its place in the chain. Then the group follows the
   * chain.
   */
  lemma MembershipDespiteInterleaving(trace: seq<Process>, liars: set<nat>, k: nat)
    requires IsRun(trace, liars) && k < |trace|
    ensures
      var nd := trace[k].node;
      && 1 <= nd.height <= |nd.chain| + 1
      && (ChainBlocks(nd.chain, nd.height - 1) == Blocks(trace[k].applied)
          <==> FoundUpTo(trace, k))
      && nd.group == Replay(trace[0].node.group, Blocks(trace[k].applied))
  {
    RunFollows(trace, liars, k);
    RunKeepsInv(trace, liars, k, k);
    ChainIsAppliedExactly(trace, liars, k);
  }

  /** Two certificates for one height that overtake each other: the chain keeps one, the other takes effect. */
  lemma OvertakingSplitsChainAndGroup(p: Process, liars: set<nat>, a: Notarization, b: Notarization)
    requires Inv(p, liars) && |p.node.chain| == p.node.height - 1
    requires Task.Advance(p.node.height, a) in p.tasks && b.block.Height() == p.node.height
    ensures var p' := After(After(p, Notarize(p.node.height, b)), Run(Task.Advance(p.node.height, a)));
            p'.node.chain == p.node.chain + [Some(b)] && p'.node.group == p.node.group.ApplyBlock(a.block)
  {
    var h, p1 := p.node.height, After(p, Notarize(p.node.height, b));
    ApplyIsQuiet(p.node, h, b);
    NotarizationIsAppended(p.node, b);
    assert p1.node == p.node.ApplyNotarization(h, b).node;
    AdvanceKeepsChain(p1, a);
  }

  lemma NotarizationIsAppended(nd: Node, nota: Notarization)
    requires nd.height >= 1 && |nd.chain| == nd.height - 1
    ensures nd.ApplyNotarization(nd.height, nota).node.chain == nd.chain + [Some(nota)]
  {
    CertificateOf(nd.(chain := nd.chain + [Some(nota)]), nd.height, nota);
  }

  lemma AdvanceKeepsChain(p: Process, nota: Notarization)
    requires |p.node.chain| == p.node.height
    ensures var p' := After(p, Run(Task.Advance(p.node.height, nota)));
            p'.node.chain == p.node.chain && p'.node.group == p.node.group.ApplyBlock(nota.block)
  {
    AdvanceEnters(p.node, p.node.height, nota);
  }

  // ---- Whole handlers --------------------------------------------------------------------------

  ghost function RunAll(p: Process, tasks: seq<Task>): Process
    decreases |tasks|
  {
    if tasks == [] then p else RunAll(After(p, Run(tasks[0])), tasks[1..])
  }

  /** The tasks that a message leaves behind. */
  ghost function Leaves(p: Process, step: Step): seq<Task> {
    match step
    case Count(v) => p.node.HandleVote(v).tasks
    case Finalize(h, from) => p.node.HandleFinalize(h, from).tasks
    case Notarize(h, nota) => p.node.ApplyNotarization(h, nota).tasks
    case _ => []
  }

  /** A handler that runs to its end before anything else happens. */
  ghost function Handle(p: Process, step: Step): Process {
    RunAll(After(p, step), Leaves(p, step))
  }

  ghost predicate HandlerNext(p: Process, p': Process, liars: set<nat>) {
    exists step: Step :: !step.Run? && Enabled(p, step, liars) && p' == Handle(p, step)
  }

  ghost predicate HandlerOf(trace: seq<Process>, k: nat, liars: set<nat>)
    requires 0 < k < |trace|
  {
    HandlerNext(trace[k - 1], trace[k], liars)
  }

  ghost predicate IsHandlerRun(trace: seq<Process>, liars: set<nat>) {
    && trace != [] && Init(trace[0])
    && (forall k :: 0 <= k < |trace| ==> FewLiars(trace[k], liars))
    && forall k :: 0 < k < |trace| ==> HandlerOf(trace, k, liars)
  }

  function Entries(notas: seq<Notarization>): seq<Option<Notarization>> {
    seq(|notas|, i requires 0 <= i < |notas| => Some(notas[i]))
  }

  /** Between handlers the chain is exactly what took effect, and no certificate is left for the current height. */
  ghost predicate Settled(p: Process) {
    && p.tasks == multiset{}
    && p.node.chain == Entries(p.applied)
    && forall h :: h in p.node.notarized ==> h < p.node.height
  }

  ghost predicate HandlerInv(p: Process, liars: set<nat>, initial: Group) {
    Inv(p, liars) && Follows(p, initial) && Settled(p)
  }

  /** The rest of a handler keeps what every lock region keeps. */
  lemma {:induction false} RunAllKeepsInv(p: Process, tasks: seq<Task>, liars: set<nat>, initial: Group)
    requires Inv(p, liars) && Follows(p, initial) && multiset(tasks) <= p.tasks
    ensures Inv(RunAll(p, tasks), liars) && Follows(RunAll(p, tasks), initial)
    decreases |tasks|
  {
    if tasks != [] {
      assert tasks == [tasks[0]] + tasks[1..];
      assert tasks[0] in p.tasks;
      RunTaskKeepsInv(p, tasks[0], liars);
      StepFollows(p, Run(tasks[0]), liars, initial);
      assert p.tasks - multiset{tasks[0]} <= After(p, Run(tasks[0])).tasks;
      RunAllKeepsInv(After(p, Run(tasks[0])), tasks[1..], liars, initial);
    }
  }

  lemma HandleKeepsInv(p: Process, step: Step, liars: set<nat>, initial: Group)
    requires Inv(p, liars) && Follows(p, initial) && FewLiars(p, liars) && Enabled(p, step, liars)
    ensures Inv(Handle(p, step), liars) && Follows(Handle(p, step), initial)
  {
    StepKeepsInv(p, step, liars);
    StepFollows(p, step, liars, initial);
    assert multiset(Leaves(p, step)) <= After(p, step).tasks;
    RunAllKeepsInv(After(p, step), Leaves(p, step), liars, initial);
  }

  /** A handler that found a certificate for the current height is about to finish. */
  ghost predicate Certified(p: Process, h: nat, nota: Notarization) {
    && h == p.node.height && |p.applied| + 1 == h
    && (p.node.chain == Entries(p.applied) || p.node.chain == Entries(p.applied + [nota]))
    && forall k :: k in p.node.notarized ==> k <= h
  }

  lemma SignalKeepsCertified(p: Process, h: nat, nota: Notarization, signal: Task)
    requires Certified(p, h, nota) && signal.SignalTxs?
    ensures Certified(After(p, Run(signal)), h, nota)
    ensures After(p, Run(signal)).tasks == p.tasks - multiset{signal}
  {
  }

  lemma AdvanceSettles(p: Process, h: nat, nota: Notarization)
    requires Certified(p, h, nota) && p.tasks == multiset{Task.Advance(h, nota)}
    ensures Settled(After(p, Run(Task.Advance(h, nota))))
  {
    var p' := After(p, Run(Task.Advance(h, nota)));
    assert Entries(p.applied + [nota]) == Entries(p.applied) + [Some(nota)];
    assert p'.node.chain == p.node.Append(h, nota).chain;
    assert p'.node.notarized == p.node.notarized;
    assert p'.tasks == multiset{};
  }

  lemma CertifiedSettles(p: Process, h: nat, nota: Notarization, final: seq<string>, tasks: seq<Task>)
    requires Certified(p, h, nota) && p.tasks == multiset(tasks)
    requires tasks == p.node.Signalling(final) + [Task.Advance(h, nota)]
    ensures Settled(RunAll(p, tasks))
  {
    var last := Task.Advance(h, nota);
    if final == [] {
      assert tasks == [last] && tasks[1..] == [];
      AdvanceSettles(p, h, nota);
      assert RunAll(p, tasks) == RunAll(After(p, Run(last)), tasks[1..]);
    } else {
      var signal := SignalTxs(final);
      assert tasks == [signal, last] && tasks[1..] == [last] && tasks[1..][1..] == [];
      var p1 := After(p, Run(signal));
      SignalKeepsCertified(p, h, nota, signal);
      assert p1.tasks == multiset{last};
      AdvanceSettles(p1, h, nota);
      assert RunAll(p, tasks) == RunAll(p1, tasks[1..]) == RunAll(After(p1, Run(last)), tasks[1..][1..]);
    }
  }

  lemma VoteCertifies(nd: Node, v: Vote)
    ensures var r := nd.HandleVote(v);
            && (r.tasks == [] ==> r.node.chain == nd.chain && r.node.notarized == nd.notarized)
            && (r.tasks != [] ==>
                  && v.height == nd.height
                  && r == nd.WithVote(v).Certify(v.height,
                      Notarization(v.block, nd.VotesFor(v.height, v.block.ID()) + [v])))
  {
  }

  lemma CertificateOf(nd: Node, h: nat, nota: Notarization)
    ensures var r, final := nd.Certify(h, nota), nd.(notarized := nd.notarized[h := nota]).TryFinalize(h).1;
            && r.tasks == nd.Signalling(final) + [Task.Advance(h, nota)]
            && r.node.chain == nd.chain && r.node.notarized == nd.notarized[h := nota]
  {
    TryFinalizeIsQuiet(nd.(notarized := nd.notarized[h := nota]), h);
  }

  lemma CountSettles(p: Process, v: Vote)
    requires Settled(p) && |p.applied| == p.node.height - 1
    ensures Settled(Handle(p, Count(v)))
  {
    var p1, r := After(p, Count(v)), p.node.HandleVote(v);
    assert p1 == p.(node := r.node, tasks := multiset(r.tasks));
    VoteCertifies(p.node, v);
    if r.tasks != [] {
      var nota := Notarization(v.block, p.node.VotesFor(v.height, v.block.ID()) + [v]);
      CertifyRegionSettles(p, p.node.WithVote(v), v.height, nota);
    } else {
      VoteIsQuiet(p.node, v);
    }
  }

  lemma NotarizationCertifies(nd: Node, h: nat, nota: Notarization)
    requires h == nd.height && |nd.chain| == h - 1 && h !in nd.notarized
    ensures nd.ApplyNotarization(h, nota) == nd.(chain := nd.chain + [Some(nota)]).Certify(h, nota)
  {
  }

  lemma EarlyOrLateNotarization(nd: Node, h: nat, nota: Notarization)
    requires h != nd.height
    ensures var r := nd.ApplyNotarization(h, nota);
            r.tasks == [] && r.node.chain == nd.chain && r.node.notarized == nd.notarized
  {
  }

  /** After the lock region that certified, in the node `nd` as it was when the certificate was recorded. */
  lemma CertifyRegionSettles(p: Process, nd: Node, h: nat, nota: Notarization)
    requires Settled(p) && h == p.node.height && |p.applied| == h - 1
    requires nd.height == h && nd.notarized == p.node.notarized
    requires nd.chain == Entries(p.applied) || nd.chain == Entries(p.applied + [nota])
    ensures var r := nd.Certify(h, nota);
            Settled(RunAll(p.(node := r.node, tasks := multiset(r.tasks)), r.tasks))
  {
    CertifyIsQuiet(nd, h, nota);
    CertificateOf(nd, h, nota);
    var r := nd.Certify(h, nota);
    var final := nd.(notarized := nd.notarized[h := nota]).TryFinalize(h).1;
    CertifiedSettles(p.(node := r.node, tasks := multiset(r.tasks)), h, nota, final, r.tasks);
  }

  lemma QuietRegionSettles(p: Process, r: Result)
    requires Settled(p) && Quiet(p.node, r.node) && r.tasks == []
    requires r.node.chain == p.node.chain && r.node.notarized == p.node.notarized
    ensures Settled(RunAll(p.(node := r.node, tasks := multiset(r.tasks)), r.tasks))
  {
  }

  lemma NotarizationSettles(p: Process, h: nat, nota: Notarization)
    requires Settled(p) && |p.applied| == p.node.height - 1
    ensures var r := p.node.ApplyNotarization(h, nota);
            Settled(RunAll(p.(node := r.node, tasks := multiset(r.tasks)), r.tasks))
  {
    if h == p.node.height {
      assert p.node.chain + [Some(nota)] == Entries(p.applied + [nota]);
      NotarizationCertifies(p.node, h, nota);
      CertifyRegionSettles(p, p.node.(chain := p.node.chain + [Some(nota)]), h, nota);
    } else {
      EarlyOrLateNotarization(p.node, h, nota);
      ApplyIsQuiet(p.node, h, nota);
      QuietRegionSettles(p, p.node.ApplyNotarization(h, nota));
    }
  }

  lemma NotarizeSettles(p: Process, h: nat, nota: Notarization)
    requires Settled(p) && |p.applied| == p.node.height - 1
    ensures Settled(Handle(p, Notarize(h, nota)))
  {
    NotarizationSettles(p, h, nota);
    var r := p.node.ApplyNotarization(h, nota);
    assert After(p, Notarize(h, nota)) == p.(node := r.node, tasks := multiset(r.tasks));
  }

  /** A finalize message leaves at most a signal to run. */
  lemma FinalizeLeavesChain(nd: Node, h: nat, from: nat)
    ensures
      var r := nd.HandleFinalize(h, from);
      && r.node.chain == nd.chain && r.node.notarized == nd.notarized
      && (r.tasks == [] || (|r.tasks| == 1 && r.tasks[0].SignalTxs?))
  {
    TryFinalizeIsQuiet(nd.(finalizes := nd.finalizes[h := nd.Finalizers(h) + {from}]), h);
  }

  lemma SignalRegionSettles(p: Process, r: Result)
    requires Settled(p) && Quiet(p.node, r.node) && |r.tasks| == 1 && r.tasks[0].SignalTxs?
    requires r.node.chain == p.node.chain && r.node.notarized == p.node.notarized
    ensures Settled(RunAll(p.(node := r.node, tasks := multiset(r.tasks)), r.tasks))
  {
    var p1, signal := p.(node := r.node, tasks := multiset(r.tasks)), r.tasks[0];
    assert r.tasks == [signal] && r.tasks[1..] == [];
    var p2 := After(p1, Run(signal));
    assert p2.tasks == multiset{};
    assert RunAll(p1, r.tasks) == RunAll(p2, r.tasks[1..]) == p2;
  }

  lemma FinalizeSettles(p: Process, h: nat, from: nat)
    requires Settled(p)
    ensures Settled(Handle(p, Finalize(h, from)))
  {
    var r := p.node.HandleFinalize(h, from);
    FinalizeIsQuiet(p.node, h, from);
    FinalizeLeavesChain(p.node, h, from);
    assert After(p, Finalize(h, from)) == p.(node := r.node, tasks := multiset(r.tasks));
    if r.tasks == [] {
      QuietRegionSettles(p, r);
    } else {
      SignalRegionSettles(p, r);
    }
  }

  lemma HandlerKeepsInv(p: Process, step: Step, liars: set<nat>, initial: Group)
    requires HandlerInv(p, liars, initial) && FewLiars(p, liars) && !step.Run? && Enabled(p, step, liars)
    ensures HandlerInv(Handle(p, step), liars, initial)
  {
    HandleKeepsInv(p, step, liars, initial);
    match step
    case Count(v) => CountSettles(p, v);
    case Notarize(h, nota) => NotarizeSettles(p, h, nota);
    case Finalize(h, from) => FinalizeSettles(p, h, from);
    case Propose(m) => ProposeIsQuiet(p.node, m);
    case _ => LocalStepSettles(p, step);
  }

  lemma StartSettles(p: Process)
    requires Settled(p) && p.node.height >= 1
    ensures Settled(After(p, Start))
  {
    var r := p.node.Start();
    assert After(p, Start).node == r.node && r.tasks == [];
    assert r.node.chain == p.node.chain && r.node.notarized == p.node.notarized && r.node.height == p.node.height;
  }

  lemma TimeOutSettles(p: Process, h: nat)
    requires Settled(p)
    ensures Settled(After(p, TimeOut(h)))
  {
    assert After(p, TimeOut(h)).node.chain == p.node.chain && p.node.TimeOut(h).tasks == [];
  }

  lemma LocalStepSettles(p: Process, step: Step)
    requires Settled(p) && p.node.height >= 1
    requires step.Start? || step.TimeOut? || step.Add? || step.Register? || step.Cancel?
    ensures Settled(After(p, step))
  {
    match step
    case Start => StartSettles(p);
    case TimeOut(h) => TimeOutSettles(p, h);
    case _ =>
  }

  lemma {:induction false} HandlerRunKeepsInv(trace: seq<Process>, liars: set<nat>, k: nat)
    requires IsHandlerRun(trace, liars) && k < |trace|
    ensures HandlerInv(trace[k], liars, trace[0].node.group)
  {
    if k == 0 {
      InitInv(trace[0], liars);
    } else {
      HandlerRunKeepsInv(trace, liars, k - 1);
      HandlerRunStepKeepsInv(trace, liars, k, trace[0].node.group);
    }
  }

  lemma HandlerRunStepKeepsInv(trace: seq<Process>, liars: set<nat>, k: nat, initial: Group)
    requires IsHandlerRun(trace, liars) && 0 < k < |trace| && HandlerInv(trace[k - 1], liars, initial)
    ensures HandlerInv(trace[k], liars, initial)
  {
    HandlerSteps(trace, liars, k);
    HandlerNextKeepsInv(trace[k - 1], trace[k], liars, initial);
  }

  lemma HandlerSteps(trace: seq<Process>, liars: set<nat>, k: nat)
    requires IsHandlerRun(trace, liars) && 0 < k < |trace|
    ensures HandlerNext(trace[k - 1], trace[k], liars) && FewLiars(trace[k - 1], liars)
  {
    assert HandlerOf(trace, k, liars);
  }

  lemma HandlerNextKeepsInv(p: Process, p': Process, liars: set<nat>, initial: Group)
    requires HandlerInv(p, liars, initial) && FewLiars(p, liars) && HandlerNext(p, p', liars)
    ensures HandlerInv(p', liars, initial)
  {
    var step: Step :| !step.Run? && Enabled(p, step, liars) && p' == Handle(p, step);
    HandlerKeepsInv(p, step, liars, initial);
  }

  // ---- Results ---------------------------------------------------------------------------------

  /**
   * When handlers do not overlap, members, size and outbound configuration are the replay of the chain from the
   * initial group, and the size that counts at height h is the one after the first h - 1 blocks.
   */
  lemma MembershipIsTheReplay(trace: seq<Process>, liars: set<nat>, k: nat)
    requires IsHandlerRun(trace, liars) && k < |trace|
    ensures var nd, initial := trace[k].node, trace[0].node.group;
            && nd.group == Replay(initial, ChainBlocks(nd.chain, |nd.chain|))
            && |nd.chain| == nd.height - 1
            && forall h :: h in nd.heightN ==>
                 1 <= h <= nd.height && nd.heightN[h] == Replay(initial, ChainBlocks(nd.chain, h - 1)).n
  {
    HandlerRunKeepsInv(trace, liars, k);
    var p := trace[k];
    assert ChainBlocks(p.node.chain, |p.node.chain|) == Blocks(p.applied);
    forall h | h in p.node.heightN
      ensures 1 <= h <= p.node.height
           && p.node.heightN[h] == Replay(trace[0].node.group, ChainBlocks(p.node.chain, h - 1)).n
    {
      assert ChainBlocks(p.node.chain, h - 1) == Blocks(p.applied[..h - 1]);
    }
  }

  /**
   * Two nodes that start from the same group and hold the same first k blocks compute the same leader, quorum and
   * outbound configuration when they are at height k + 1, and keep the same size for that height ever after.
   */
  lemma SharedPrefixSharesLeader(a: seq<Process>, b: seq<Process>, liars: set<nat>, i: nat, j: nat, k: nat)
    requires IsHandlerRun(a, liars) && i < |a| && IsHandlerRun(b, liars) && j < |b|
    requires a[0].node.group == b[0].node.group
    requires k <= |a[i].node.chain| && k <= |b[j].node.chain|
    requires ChainBlocks(a[i].node.chain, k) == ChainBlocks(b[j].node.chain, k)
    ensures a[i].node.height == k + 1 && b[j].node.height == k + 1 ==>
              && a[i].node.group == b[j].node.group
              && (a[i].node.hashing == b[j].node.hashing ==>
                    LeaderForHeight(a[i].node.hashing, k + 1, a[i].node.group.members)
                    == LeaderForHeight(b[j].node.hashing, k + 1, b[j].node.group.members))
              && Quorum(a[i].node.group.n) == Quorum(b[j].node.group.n)
    ensures k + 1 in a[i].node.heightN && k + 1 in b[j].node.heightN ==>
              a[i].node.heightN[k + 1] == b[j].node.heightN[k + 1]
  {
    MembershipIsTheReplay(a, liars, i);
    MembershipIsTheReplay(b, liars, j);
  }

  // ---- Outbound configuration ------------------------------------------------------------------

  /** Members are known, sorted and distinct, and messages go to exactly them. */
  ghost predicate Aligned(g: Group) {
    && g.members != [] && g.n == |g.members| && StrictlyIncreasing(g.members)
    && Elements(g.members) <= Elements(g.all) && Elements(g.cfg) == Elements(g.members)
  }

  lemma {:induction false} RestrictElements(xs: seq<nat>, keep: set<nat>)
    ensures Elements(Restrict(xs, keep)) == Elements(xs) * keep
  {
    if xs != [] {
      var before, last := xs[..|xs| - 1], xs[|xs| - 1];
      RestrictElements(before, keep);
      assert xs == before + [last] && Elements(xs) == Elements(before) + {last};
      assert Elements(Restrict(xs, keep)) == Elements(Restrict(before, keep)) + if last in keep then {last} else {};
    }
  }

  lemma ApplyTxAligns(g: Group, tx: string)
    ensures g.ApplyTx(tx) == g || Aligned(g.ApplyTx(tx))
  {
    var parsed := Parse(tx);
    if parsed.Members? && g.Accepts(parsed.ids) {
      CanonicalIsTheSortedSet(Ids(Split(TrimSpace(tx[|PREFIX|..]))).ids);
      RestrictElements(g.all, Elements(parsed.ids));
    }
  }

  lemma {:induction false} ApplyTxsAligns(g: Group, txs: seq<string>)
    ensures g.ApplyTxs(txs) == g || Aligned(g.ApplyTxs(txs))
  {
    if txs != [] {
      ApplyTxsAligns(g, txs[..|txs| - 1]);
      ApplyTxAligns(g.ApplyTxs(txs[..|txs| - 1]), txs[|txs| - 1]);
    }
  }

  lemma {:induction false} ReplayAligns(g: Group, blocks: seq<Block>)
    ensures Replay(g, blocks) == g || Aligned(Replay(g, blocks))
  {
    if blocks != [] {
      ReplayAligns(g, blocks[..|blocks| - 1]);
      ApplyTxsAligns(Replay(g, blocks[..|blocks| - 1]), blocks[|blocks| - 1].Txs());
    }
  }

  /** Under every interleaving: until a reconfiguration takes effect nothing changes, and from then on it is aligned. */
  lemma OutboundFollowsMembers(trace: seq<Process>, liars: set<nat>, k: nat)
    requires IsRun(trace, liars) && k < |trace|
    ensures trace[k].node.group == trace[0].node.group || Aligned(trace[k].node.group)
  {
    RunFollows(trace, liars, k);
    ReplayAligns(trace[0].node.group, Blocks(trace[k].applied));
  }

  lemma {:induction false} WithoutElements(xs: seq<nat>, drop: set<nat>)
    ensures Elements(Without(xs, drop)) == Elements(xs) - drop
  {
    if xs != [] {
      var before, last := xs[..|xs| - 1], xs[|xs| - 1];
      WithoutElements(before, drop);
      assert xs == before + [last] && Elements(xs) == Elements(before) + {last};
      assert Elements(Without(xs, drop)) == Elements(Without(before, drop)) + if last !in drop then {last} else {};
    }
  }

  /** Whoever is a member after a block and was none before is among the nodes that join with it. */
  lemma {:induction false} NewcomersJoin(g: Group, txs: seq<string>, x: nat)
    requires x in g.ApplyTxs(txs).members && x !in g.members
    ensures x in g.JoiningTxs(txs)
  {
    var before := txs[..|txs| - 1];
    var mid, joined := g.ApplyTxs(before), g.JoiningTxs(before);
    if x in mid.members {
      NewcomersJoin(g, before, x);
    } else {
      var joining := mid.JoiningTx(txs[|txs| - 1]);
      var ids := Parse(txs[|txs| - 1]).ids;
      WithoutElements(ids, Elements(mid.members));
      assert x in Elements(ids) && x in Elements(joining);
      WithoutElements(joining, Elements(joined));
      DedupDistinct(Without(joining, Elements(joined)));
      assert x in joined || x in Elements(Without(joining, Elements(joined)));
    }
  }

  /** Advancing over a block sends the whole chain, that block included, to every node the block lets in. */
  lemma NewcomersGetTheChain(nd: Node, nota: Notarization, x: nat)
    requires x in nd.Advance(nd.height, nota).node.group.members && x !in nd.group.members
    ensures exists targets :: x in targets
              && ChainTo(targets, nd.Append(nd.height, nota).chain) in nd.Advance(nd.height, nota).sends
  {
    var h := nd.height;
    AdvanceEnters(nd, h, nota);
    var g := nd.group.ApplyBlock(nota.block);
    assert nd.Advance(h, nota).node.group == g;
    ApplyTxsAligns(nd.group, nota.block.Txs());
    NewcomersJoin(nd.group, nota.block.Txs(), x);
    var joining := nd.group.JoiningTxs(nota.block.Txs());
    RestrictElements(g.cfg, Elements(joining));
    var targets := Restrict(g.cfg, Elements(joining));
    assert x in Elements(g.members) && x in Elements(joining);
    assert x in Elements(targets);
    assert nd.CatchingUp(h, nota) == [ChainTo(targets, nd.Append(h, nota).chain)];
    SendsCatchUp(nd, h, nota);
  }

  lemma SendsCatchUp(nd: Node, h: nat, nota: Notarization)
    requires h == nd.height
    ensures forall x :: x in nd.CatchingUp(h, nota) ==> x in nd.Advance(h, nota).sends
  {
  }
}
