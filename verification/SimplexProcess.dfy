/**
 * Runs of one Simplex node at the granularity of its locks: a handler gives up the lock between recording a
 * certificate, signalling the waiting callers and advancing, and anything may happen in between.
 */
module SimplexProcess {
  import Q = Quorum
  import opened Options
  import opened SimplexReconfigTx
  import opened SimplexTypes
  import opened SimplexNode

  /**
   * A node, the work its goroutines still have to do, and what happened so far: the notarizations whose blocks
   * took effect on advancing, the transactions added, and the channel each caller waits on.
   */
  datatype Process = Process(
    node: Node,
    tasks: multiset<Task>,
    started: bool,
    applied: seq<Notarization>,
    added: multiset<string>,
    registered: map<nat, string>)

  datatype Step =
    | Start
    | TimeOut(height: nat)
    | Propose(proposal: Proposal)
    | Count(vote: Vote)
    | Finalize(height: nat, from: nat)
    | Notarize(height: nat, nota: Notarization)
    | Run(task: Task)
    | Add(tx: string)
    | Register(tx: string, channel: nat)
    | Cancel(tx: string)

  ghost predicate Init(p: Process) {
    && p.node == Node(p.node.id, p.node.hashing, p.node.group, 1, [], map[], {}, map[], {}, map[], false, map[], map[],
                      Buffers(map[], map[], map[]), TxState([], map[], map[], {}, {}))
    && p.node.group.n == |p.node.group.members|
    && p.tasks == multiset{} && !p.started && p.applied == [] && p.added == multiset{} && p.registered == map[]
  }

  /**
   * Messages that can arrive. `liars` may vote for a block under a height that is not the block's; a received
   * notarization is handled under the height of its block.
   */
  ghost predicate Enabled(p: Process, step: Step, liars: set<nat>) {
    match step
    case Start => !p.started
    case Count(v) => v.voter !in liars ==> v.block.Height() == v.height
    case Notarize(h, nota) => nota.block.Height() == h
    case Run(task) => task in p.tasks
    case Register(_, channel) => channel !in p.registered
    case _ => true
  }

  ghost function Region(p: Process, r: Result): Process {
    p.(node := r.node, tasks := p.tasks + multiset(r.tasks))
  }

  ghost predicate TakesEffect(p: Process, task: Task) {
    task.Advance? && task.height == p.node.height
  }

  ghost function After(p: Process, step: Step): Process {
    match step
    case Start => Region(p, p.node.Start()).(started := true)
    case TimeOut(h) => Region(p, p.node.TimeOut(h))
    case Propose(proposal) => Region(p, p.node.HandlePropose(proposal))
    case Count(v) => Region(p, p.node.HandleVote(v))
    case Finalize(h, from) => Region(p, p.node.HandleFinalize(h, from))
    case Notarize(h, nota) => Region(p, p.node.ApplyNotarization(h, nota))
    case Run(task) =>
      Region(p.(tasks := p.tasks - multiset{task}), p.node.RunTask(task))
        .(applied := p.applied + if TakesEffect(p, task) then [task.nota] else [])
    case Add(tx) => p.(node := p.node.(txs := p.node.txs.Add(tx)), added := p.added + multiset{tx})
    case Register(tx, channel) =>
      p.(node := p.node.(txs := p.node.txs.Register(tx, channel)), registered := p.registered[channel := tx])
    case Cancel(tx) => p.(node := p.node.(txs := p.node.txs.Cancel(tx)))
  }

  ghost predicate Next(p: Process, p': Process, liars: set<nat>) {
    exists step :: Enabled(p, step, liars) && p' == After(p, step)
  }

  /** Fewer liars among the members than a quorum. */
  ghost predicate FewLiars(p: Process, liars: set<nat>) {
    |Elements(p.node.group.members) * liars| < Quorum(p.node.group.n)
  }

  /** Step k of a run, which leads to state k. */
  ghost predicate StepOf(trace: seq<Process>, k: nat, liars: set<nat>)
    requires 0 < k < |trace|
  {
    Next(trace[k - 1], trace[k], liars)
  }

  ghost predicate IsRun(trace: seq<Process>, liars: set<nat>) {
    && trace != [] && Init(trace[0])
    && (forall k :: 0 <= k < |trace| ==> FewLiars(trace[k], liars))
    && forall k :: 0 < k < |trace| ==> StepOf(trace, k, liars)
  }

  // ---- Shape of the chain ----------------------------------------------------------------------

  /** Every entry is there and holds the block of its height. */
  ghost predicate ChainOk(chain: seq<Option<Notarization>>) {
    forall i :: 0 <= i < |chain| ==> chain[i].Some? && chain[i].value.block.Height() == i + 1
  }

  ghost predicate NotarizedOk(nd: Node) {
    forall h :: h in nd.notarized ==> h <= nd.height && nd.notarized[h].block.Height() == h
  }

  ghost predicate BuffersOk(nd: Node) {
    forall h :: h in nd.buffers.notarizations ==> nd.buffers.notarizations[h].block.Height() == h
  }

  /** Votes counted for one block identifier: one per voter, all members, honest about the height. */
  ghost predicate ListOk(nd: Node, bid: string, list: seq<Vote>, liars: set<nat>) {
    && (forall i, j :: 0 <= i < j < |list| ==> list[i].voter != list[j].voter)
    && (forall i :: 0 <= i < |list| ==> list[i].block.ID() == bid && list[i].voter in nd.group.members)
    && (forall i :: 0 <= i < |list| && list[i].voter !in liars ==> list[i].block.Height() == nd.height)
  }

  ghost predicate VotesOk(nd: Node, liars: set<nat>) {
    && (forall h :: h in nd.votes ==> h <= nd.height)
    && (forall bid :: ListOk(nd, bid, nd.VotesFor(nd.height, bid), liars))
  }

  ghost predicate SizesOk(nd: Node) {
    && nd.group.n == |nd.group.members|
    && (forall h :: h in nd.heightN ==> 1 <= h <= nd.height)
    && (nd.height in nd.heightN ==> nd.heightN[nd.height] == nd.group.n)
    && (nd.height > 1 ==> nd.height in nd.heightN)
  }

  ghost predicate TaskOk(height: nat, task: Task) {
    task.Advance? ==> task.height <= height && task.nota.block.Height() == task.height
  }

  ghost predicate Shape(nd: Node, liars: set<nat>) {
    && nd.height >= 1 && nd.height - 1 <= |nd.chain| <= nd.height
    && ChainOk(nd.chain) && NotarizedOk(nd) && BuffersOk(nd) && VotesOk(nd, liars) && SizesOk(nd)
  }

  ghost predicate Inv(p: Process, liars: set<nat>) {
    && Shape(p.node, liars)
    && (forall task :: task in p.tasks ==> TaskOk(p.node.height, task))
    && |p.applied| == p.node.height - 1
  }

  /** What a lock region may do to the chain, the height and the recorded sizes. */
  ghost predicate Moves(nd: Node, nd': Node) {
    && nd.height <= nd'.height <= nd.height + 1
    && nd.chain <= nd'.chain
    && (forall h :: h in nd.heightN ==> h in nd'.heightN && nd'.heightN[h] == nd.heightN[h])
  }

  // ---- Block identifiers -----------------------------------------------------------------------

  /** Decimal numbers followed by a bar are read back unambiguously. */
  lemma {:induction false} NumberEndsAtBar(a: string, b: string, x: string, y: string)
    requires AllDigits(a) && AllDigits(b) && a + "|" + x == b + "|" + y
    ensures a == b
  {
    assert (a + "|" + x)[0] == (b + "|" + y)[0];
    assert (a + "|" + x)[0] == if a == "" then '|' else a[0];
    assert (b + "|" + y)[0] == if b == "" then '|' else b[0];
    if a != "" && b != "" {
      var s := a + "|" + x;
      assert s[0] == a[0] == b[0];
      assert s[1..] == a[1..] + "|" + x == b[1..] + "|" + y;
      NumberEndsAtBar(a[1..], b[1..], x, y);
      assert a == [a[0]] + a[1..] && b == [b[0]] + b[1..];
    }
  }

  /** Blocks with the same identifier have the same height. */
  lemma SameIdSameHeight(b: Block, c: Block)
    requires b.ID() == c.ID()
    ensures b.Height() == c.Height()
  {
    if b.Block? && c.Block? {
      var x, y := b.ParentHash() + "|" + Join(b.Txs()), c.ParentHash() + "|" + Join(c.Txs());
      assert b.Text() == Format(b.Height()) + "|" + x;
      assert c.Text() == Format(c.Height()) + "|" + y;
      NumberEndsAtBar(Format(b.Height()), Format(c.Height()), x, y);
      ValueOfFormat(b.Height());
      ValueOfFormat(c.Height());
    } else {
      assert |b.Text()| > 0 && |c.Text()| > 0;
    }
  }

  function Voters(list: seq<Vote>): set<nat> {
    set i | 0 <= i < |list| :: list[i].voter
  }

  lemma {:induction false} VotersCounted(list: seq<Vote>)
    requires forall i, j :: 0 <= i < j < |list| ==> list[i].voter != list[j].voter
    ensures |Voters(list)| == |list|
  {
    if list != [] {
      var last := |list| - 1;
      VotersCounted(list[..last]);
      assert Voters(list) == Voters(list[..last]) + {list[last].voter};
      assert list[last].voter !in Voters(list[..last]);
    }
  }

  /** A quorum of votes for one identifier at the current height certifies a block of that height. */
  lemma QuorumHasHeight(nd: Node, list: seq<Vote>, b: Block, liars: set<nat>)
    requires ListOk(nd, b.ID(), list, liars) && |list| >= Quorum(nd.group.n)
    requires |Elements(nd.group.members) * liars| < Quorum(nd.group.n)
    ensures b.Height() == nd.height
  {
    VotersCounted(list);
    if forall i :: 0 <= i < |list| ==> list[i].voter in liars {
      Q.SubsetSize(Voters(list), Elements(nd.group.members) * liars);
      assert false;
    }
    var i :| 0 <= i < |list| && list[i].voter !in liars;
    SameIdSameHeight(list[i].block, b);
  }

  // ---- Lock regions keep the shape -------------------------------------------------------------

  /** A step that leaves the votes, the chain and the like alone. */
  lemma OthersKeepShape(nd: Node, nd': Node, liars: set<nat>)
    requires Shape(nd, liars)
    requires nd' == nd.(voted := nd'.voted, finalizes := nd'.finalizes, timerFired := nd'.timerFired, txs := nd'.txs,
                           finalized := nd'.finalized, finalizedTxs := nd'.finalizedTxs)
    ensures Shape(nd', liars) && Moves(nd, nd') && nd'.height == nd.height
  {
    assert forall bid :: nd'.VotesFor(nd'.height, bid) == nd.VotesFor(nd.height, bid);
    assert forall bid :: ListOk(nd, bid, nd.VotesFor(nd.height, bid), liars)
                     ==> ListOk(nd', bid, nd'.VotesFor(nd'.height, bid), liars);
  }

  lemma TryFinalizeKeepsShape(nd: Node, h: nat, liars: set<nat>)
    requires Shape(nd, liars)
    ensures var (nd', _) := nd.TryFinalize(h);
            Shape(nd', liars) && Moves(nd, nd') && nd'.height == nd.height
  {
    OthersKeepShape(nd, nd.TryFinalize(h).0, liars);
  }

  lemma EnterKeepsShape(nd: Node, h: nat, liars: set<nat>)
    requires nd.height >= 1 && h >= 1 && h - 1 <= |nd.chain| <= h && nd.height <= h <= nd.height + 1
    requires ChainOk(nd.chain) && NotarizedOk(nd) && BuffersOk(nd) && VotesOk(nd, liars)
    requires nd.group.n == |nd.group.members|
    requires forall k :: k in nd.heightN ==> 1 <= k <= nd.height
    requires nd.height == h ==> (h in nd.heightN ==> nd.heightN[h] == nd.group.n)
    ensures var nd' := nd.EnterIteration(h).node;
            Shape(nd', liars) && Moves(nd, nd') && nd'.height == h
  {
    var nd' := nd.EnterIteration(h).node;
    assert h == nd.height + 1 ==> h !in nd.votes;
    forall bid
      ensures ListOk(nd', bid, nd'.VotesFor(h, bid), liars)
    {
      assert ListOk(nd, bid, nd.VotesFor(nd.height, bid), liars);
    }
  }

  lemma ApplyBlockKeepsSize(g: Group, b: Block)
    requires g.n == |g.members|
    ensures g.ApplyBlock(b).n == |g.ApplyBlock(b).members| && g.ApplyBlock(b).all == g.all
  {
    if !b.IsDummy() {
      ApplyTxsKeepsSize(g, b.Txs());
    }
  }

  lemma {:induction false} ApplyTxsKeepsSize(g: Group, txs: seq<string>)
    requires g.n == |g.members|
    ensures g.ApplyTxs(txs).n == |g.ApplyTxs(txs).members| && g.ApplyTxs(txs).all == g.all
  {
    if txs != [] {
      ApplyTxsKeepsSize(g, txs[..|txs| - 1]);
    }
  }

  lemma AdvanceKeepsShape(nd: Node, h: nat, nota: Notarization, liars: set<nat>)
    requires Shape(nd, liars) && nota.block.Height() == h
    ensures var nd' := nd.Advance(h, nota).node;
            Shape(nd', liars) && Moves(nd, nd') && nd'.height == if nd.height == h then h + 1 else nd.height
  {
    if nd.height == h {
      var mid := nd.Entering(h, nota);
      EnteringKeepsShape(nd, nota, liars);
      // Votes at h are judged against the old members, so they are looked at one height up, where there are none.
      EnterNextKeepsShape(mid, h, liars);
      assert nd.Advance(h, nota).node == mid.EnterIteration(h + 1).node;
    } else {
      assert nd.Advance(h, nota).node == nd;
    }
  }

  lemma EnteringKeepsShape(nd: Node, nota: Notarization, liars: set<nat>)
    requires Shape(nd, liars) && nota.block.Height() == nd.height
    ensures
      var mid := nd.Entering(nd.height, nota);
      && nd.chain <= mid.chain && |mid.chain| == nd.height && ChainOk(mid.chain) && mid.group.n == |mid.group.members|
      && mid == nd.(chain := mid.chain, group := mid.group) && NotarizedOk(mid) && BuffersOk(mid)
  {
    ApplyBlockKeepsSize(nd.group, nota.block);
    var mid := nd.Entering(nd.height, nota);
    assert mid.chain == nd.chain || mid.chain == nd.chain + [Some(nota)];
  }

  lemma EnterNextKeepsShape(nd: Node, h: nat, liars: set<nat>)
    requires nd.height == h >= 1 && |nd.chain| == h
    requires ChainOk(nd.chain) && NotarizedOk(nd) && BuffersOk(nd)
    requires forall k :: k in nd.votes ==> k <= h
    requires nd.group.n == |nd.group.members|
    requires forall k :: k in nd.heightN ==> 1 <= k <= h
    ensures var nd' := nd.EnterIteration(h + 1).node;
            Shape(nd', liars) && Moves(nd, nd') && nd'.height == h + 1
  {
  }

  lemma WithVoteKeepsShape(nd: Node, v: Vote, liars: set<nat>)
    requires Shape(nd, liars) && v.height == nd.height && v.voter in nd.group.members
    requires v.voter !in liars ==> v.block.Height() == v.height
    requires !HasVoter(nd.VotesFor(v.height, v.block.ID()), v.voter)
    ensures Shape(nd.WithVote(v), liars)
    ensures ListOk(nd, v.block.ID(), nd.VotesFor(v.height, v.block.ID()) + [v], liars)
  {
    var nd', list := nd.WithVote(v), nd.VotesFor(v.height, v.block.ID());
    assert ListOk(nd, v.block.ID(), list, liars);
    forall bid
      ensures ListOk(nd', bid, nd'.VotesFor(nd'.height, bid), liars)
    {
      assert ListOk(nd, bid, nd.VotesFor(nd.height, bid), liars);
      assert nd'.VotesFor(nd'.height, bid) == if bid == v.block.ID() then list + [v] else nd.VotesFor(nd.height, bid);
    }
  }

  lemma CertifyKeepsShape(nd: Node, h: nat, nota: Notarization, liars: set<nat>)
    requires Shape(nd, liars) && h == nd.height && nota.block.Height() == h
    ensures var r := nd.Certify(h, nota);
            && Shape(r.node, liars) && Moves(nd, r.node) && r.node.height == nd.height
            && forall task :: task in r.tasks ==> TaskOk(nd.height, task)
  {
    var mid := nd.(notarized := nd.notarized[h := nota]);
    assert forall bid :: mid.VotesFor(h, bid) == nd.VotesFor(h, bid);
    assert forall bid :: ListOk(nd, bid, nd.VotesFor(h, bid), liars) ==> ListOk(mid, bid, mid.VotesFor(h, bid), liars);
    TryFinalizeKeepsShape(mid, h, liars);
  }

  lemma VoteKeepsShape(nd: Node, v: Vote, liars: set<nat>)
    requires Shape(nd, liars) && (v.voter !in liars ==> v.block.Height() == v.height)
    requires |Elements(nd.group.members) * liars| < Quorum(nd.group.n)
    ensures var r := nd.HandleVote(v);
            && Shape(r.node, liars) && Moves(nd, r.node) && r.node.height == nd.height
            && forall task :: task in r.tasks ==> TaskOk(nd.height, task)
  {
    if v.height > nd.height {
      BufferingKeepsShape(nd, nd.buffers.KeepVote(v), liars);
      assert nd.HandleVote(v).node == nd.(buffers := nd.buffers.KeepVote(v));
    } else if v.height == nd.height && nd.IsMember(nd.id) && nd.IsMember(v.voter)
              && !HasVoter(nd.VotesFor(v.height, v.block.ID()), v.voter) {
      CountedVoteKeepsShape(nd, v, liars);
    } else {
      assert nd.HandleVote(v).node == nd;
    }
  }

  lemma CountedVoteKeepsShape(nd: Node, v: Vote, liars: set<nat>)
    requires Shape(nd, liars) && (v.voter !in liars ==> v.block.Height() == v.height)
    requires |Elements(nd.group.members) * liars| < Quorum(nd.group.n)
    requires v.height == nd.height && nd.IsMember(nd.id) && nd.IsMember(v.voter)
    requires !HasVoter(nd.VotesFor(v.height, v.block.ID()), v.voter)
    ensures var r := nd.HandleVote(v);
            && Shape(r.node, liars) && Moves(nd, r.node) && r.node.height == nd.height
            && forall task :: task in r.tasks ==> TaskOk(nd.height, task)
  {
    var h, others := v.height, nd.VotesFor(v.height, v.block.ID());
    WithVoteKeepsShape(nd, v, liars);
    if |others| + 1 >= Quorum(nd.group.n) && h !in nd.notarized {
      QuorumHasHeight(nd, others + [v], v.block, liars);
      CertifyKeepsShape(nd.WithVote(v), h, Notarization(v.block, others + [v]), liars);
    } else {
      assert nd.HandleVote(v).node == nd.WithVote(v);
    }
  }

  lemma BufferingKeepsShape(nd: Node, b: Buffers, liars: set<nat>)
    requires Shape(nd, liars) && BuffersOk(nd.(buffers := b))
    ensures Shape(nd.(buffers := b), liars)
  {
    var nd' := nd.(buffers := b);
    assert forall bid :: nd'.VotesFor(nd'.height, bid) == nd.VotesFor(nd.height, bid);
    assert forall bid :: ListOk(nd, bid, nd.VotesFor(nd.height, bid), liars)
                     ==> ListOk(nd', bid, nd'.VotesFor(nd'.height, bid), liars);
  }

  /** The loop that fills the chain with missing entries never runs. */
  lemma PaddingNeverRuns(nd: Node, liars: set<nat>)
    requires Shape(nd, liars)
    ensures Pad(nd.chain, nd.height) == nd.chain
  {
  }

  lemma ApplyKeepsShape(nd: Node, h: nat, nota: Notarization, liars: set<nat>)
    requires Shape(nd, liars) && nota.block.Height() == h
    ensures var r := nd.ApplyNotarization(h, nota);
            && Shape(r.node, liars) && Moves(nd, r.node) && r.node.height == nd.height
            && forall task :: task in r.tasks ==> TaskOk(nd.height, task)
  {
    if h > nd.height {
      BufferingKeepsShape(nd, nd.buffers.KeepNotarization(h, nota), liars);
    } else if h == nd.height {
      PaddingNeverRuns(nd, liars);
      var mid := nd.(chain := if |nd.chain| + 1 == h then nd.chain + [Some(nota)] else nd.chain);
      AppendingKeepsShape(nd, mid.chain, liars);
      if h !in mid.notarized {
        CertifyKeepsShape(mid, h, nota, liars);
      }
    }
  }

  lemma AppendingKeepsShape(nd: Node, chain: seq<Option<Notarization>>, liars: set<nat>)
    requires Shape(nd, liars) && nd.chain <= chain && |chain| <= nd.height && ChainOk(chain)
    ensures Shape(nd.(chain := chain), liars)
  {
    var nd' := nd.(chain := chain);
    assert forall bid :: nd'.VotesFor(nd'.height, bid) == nd.VotesFor(nd.height, bid);
    assert forall bid :: ListOk(nd, bid, nd.VotesFor(nd.height, bid), liars)
                     ==> ListOk(nd', bid, nd'.VotesFor(nd'.height, bid), liars);
  }

  lemma ProposeTouches(nd: Node, m: Proposal)
    ensures var r := nd.HandlePropose(m);
            r.node == nd.(voted := r.node.voted, buffers := r.node.buffers) && r.tasks == []
  {
    if m.height == nd.height {
      if nd.Votable(m) {
        assert nd.HandlePropose(m).node == nd.(voted := nd.voted + {m.height});
      } else {
        assert nd.HandlePropose(m).node == nd;
      }
    } else if m.height > nd.height {
      assert nd.HandlePropose(m).node == nd.(buffers := nd.buffers.KeepProposal(m));
    }
  }

  lemma RegionKeepsInv(p: Process, r: Result, liars: set<nat>)
    requires Inv(p, liars) && Shape(r.node, liars) && r.node.height == p.node.height
    requires forall task :: task in r.tasks ==> TaskOk(p.node.height, task)
    ensures Inv(Region(p, r), liars)
  {
  }

  /** What a handler that does not advance keeps. */
  ghost predicate Stays(nd: Node, r: Result, liars: set<nat>) {
    && Shape(r.node, liars) && Moves(nd, r.node) && r.node.height == nd.height
    && forall task :: task in r.tasks ==> TaskOk(nd.height, task)
  }

  lemma ProposeKeepsShape(nd: Node, m: Proposal, liars: set<nat>)
    requires Shape(nd, liars)
    ensures Stays(nd, nd.HandlePropose(m), liars)
  {
    if m.height > nd.height {
      BufferingKeepsShape(nd, nd.buffers.KeepProposal(m), liars);
    } else {
      OthersKeepShape(nd, nd.HandlePropose(m).node, liars);
    }
  }

  lemma FinalizeKeepsShape(nd: Node, h: nat, from: nat, liars: set<nat>)
    requires Shape(nd, liars)
    ensures Stays(nd, nd.HandleFinalize(h, from), liars)
  {
    var mid := nd.(finalizes := nd.finalizes[h := nd.Finalizers(h) + {from}]);
    OthersKeepShape(nd, mid, liars);
    TryFinalizeKeepsShape(mid, h, liars);
  }

  lemma MessageKeepsInv(p: Process, step: Step, liars: set<nat>)
    requires Inv(p, liars) && FewLiars(p, liars) && Enabled(p, step, liars)
    requires step.Propose? || step.Count? || step.Finalize? || step.Notarize?
    ensures Inv(After(p, step), liars) && Moves(p.node, After(p, step).node)
  {
    var nd := p.node;
    match step
    case Propose(m) =>
      ProposeKeepsShape(nd, m, liars);
      RegionKeepsInv(p, nd.HandlePropose(m), liars);
    case Count(v) =>
      VoteKeepsShape(nd, v, liars);
      RegionKeepsInv(p, nd.HandleVote(v), liars);
    case Finalize(h, from) =>
      FinalizeKeepsShape(nd, h, from, liars);
      RegionKeepsInv(p, nd.HandleFinalize(h, from), liars);
    case Notarize(h, nota) =>
      ApplyKeepsShape(nd, h, nota, liars);
      RegionKeepsInv(p, nd.ApplyNotarization(h, nota), liars);
  }

  lemma RunTaskKeepsInv(p: Process, task: Task, liars: set<nat>)
    requires Inv(p, liars) && task in p.tasks
    ensures Inv(After(p, Run(task)), liars) && Moves(p.node, After(p, Run(task)).node)
  {
    match task
    case SignalTxs(final) => OthersKeepShape(p.node, p.node.RunTask(task).node, liars);
    case Advance(h, nota) => AdvanceKeepsShape(p.node, h, nota, liars);
  }

  lemma StepKeepsInv(p: Process, step: Step, liars: set<nat>)
    requires Inv(p, liars) && FewLiars(p, liars) && Enabled(p, step, liars)
    ensures Inv(After(p, step), liars) && Moves(p.node, After(p, step).node)
  {
    match step
    case Start =>
      if p.node.height == 1 {
        EnterKeepsShape(p.node, 1, liars);
      }
    case Run(task) => RunTaskKeepsInv(p, task, liars);
    case TimeOut(_) => OthersKeepShape(p.node, After(p, step).node, liars);
    case Add(_) => OthersKeepShape(p.node, After(p, step).node, liars);
    case Register(_, _) => OthersKeepShape(p.node, After(p, step).node, liars);
    case Cancel(_) => OthersKeepShape(p.node, After(p, step).node, liars);
    case _ => MessageKeepsInv(p, step, liars);
  }

  lemma InitInv(p: Process, liars: set<nat>)
    requires Init(p)
    ensures Inv(p, liars)
  {
  }

  lemma {:induction false} RunKeepsInv(trace: seq<Process>, liars: set<nat>, j: nat, k: nat)
    requires IsRun(trace, liars) && j <= k < |trace|
    ensures Inv(trace[j], liars) && Inv(trace[k], liars)
    ensures trace[j].node.height <= trace[k].node.height && trace[j].node.chain <= trace[k].node.chain
    ensures forall h :: h in trace[j].node.heightN ==>
              h in trace[k].node.heightN && trace[k].node.heightN[h] == trace[j].node.heightN[h]
  {
    if k == 0 {
      InitInv(trace[0], liars);
    } else {
      RunKeepsInv(trace, liars, if j == k then k - 1 else j, k - 1);
      RunStepKeepsInv(trace, liars, k);
    }
  }

  lemma RunStepKeepsInv(trace: seq<Process>, liars: set<nat>, k: nat)
    requires IsRun(trace, liars) && 0 < k < |trace| && Inv(trace[k - 1], liars)
    ensures Inv(trace[k], liars) && Moves(trace[k - 1].node, trace[k].node)
  {
    RunSteps(trace, liars, k);
    NextKeepsInv(trace[k - 1], trace[k], liars);
  }

  lemma NextKeepsInv(p: Process, p': Process, liars: set<nat>)
    requires Inv(p, liars) && FewLiars(p, liars) && Next(p, p', liars)
    ensures Inv(p', liars) && Moves(p.node, p'.node)
  {
    var step :| Enabled(p, step, liars) && p' == After(p, step);
    StepKeepsInv(p, step, liars);
  }

  lemma RunSteps(trace: seq<Process>, liars: set<nat>, k: nat)
    requires IsRun(trace, liars) && 0 < k < |trace|
    ensures Next(trace[k - 1], trace[k], liars) && FewLiars(trace[k - 1], liars)
  {
    assert StepOf(trace, k, liars);
  }

  /**
   * At every moment, under every interleaving: the chain has no gap and trails the height by at most one entry,
   * entry i is the block of height i + 1, a received notarization needs no padding, and from then on entries stay,
   * the height never goes back and the membership size recorded for a height never changes.
   */
  lemma ChainIsGapFree(trace: seq<Process>, liars: set<nat>, j: nat, k: nat)
    requires IsRun(trace, liars) && j <= k < |trace|
    ensures var nd := trace[j].node;
            && nd.height >= 1 && nd.height - 1 <= |nd.chain| <= nd.height && ChainOk(nd.chain)
            && Pad(nd.chain, nd.height) == nd.chain
            && nd.height <= trace[k].node.height && nd.chain <= trace[k].node.chain
            && (forall h :: h in nd.heightN ==>
                  h in trace[k].node.heightN && trace[k].node.heightN[h] == nd.heightN[h])
  {
    RunKeepsInv(trace, liars, j, k);
    PaddingNeverRuns(trace[j].node, liars);
  }
}
