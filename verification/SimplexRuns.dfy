/** Runs in which lock regions meet badly: why the results on membership, sizes and transactions carry conditions. */
module SimplexRuns {
  import opened Options
  import opened SimplexReconfigTx
  import opened SimplexTypes
  import opened SimplexNode
  import opened SimplexProcess
  import opened SimplexMembership
  import Runs

  function NewNode(id: nat, hashing: Hashing, all: seq<nat>, members: seq<nat>): Node {
    Node(id, hashing, Group(all, all, members, |members|), 1, [], map[], {}, map[], {}, map[], false, map[], map[],
         Buffers(map[], map[], map[]), TxState([], map[], map[], {}, {}))
  }

  ghost function NewProcess(id: nat, hashing: Hashing, all: seq<nat>, members: seq<nat>): Process {
    Process(NewNode(id, hashing, all, members), multiset{}, false, [], multiset{}, map[])
  }

  lemma NobodyLies(p: Process)
    requires p.node.group.n >= 1
    ensures FewLiars(p, {})
  {
    assert Elements(p.node.group.members) * {} == {};
  }

  ghost predicate Starting(p: Process) {
    Init(p) && FewLiars(p, {})
  }

  ghost predicate Stepping(p: Process, p': Process) {
    Next(p, p', {}) && FewLiars(p', {})
  }

  /** A run in which nobody lies. */
  ghost predicate IsHonestRun(trace: seq<Process>) {
    Runs.IsTrace(Starting, Stepping, trace)
  }

  lemma HonestIsRun(trace: seq<Process>)
    requires IsHonestRun(trace)
    ensures IsRun(trace, {})
  {
    forall k | 0 <= k < |trace|
      ensures FewLiars(trace[k], {})
    {
      assert k > 0 ==> Stepping(trace[k - 1], trace[k - 1 + 1]);
    }
    forall k | 0 < k < |trace|
      ensures StepOf(trace, k, {})
    {
      assert Stepping(trace[k - 1], trace[k - 1 + 1]);
    }
  }

  lemma RunStarts(p: Process)
    requires Init(p) && p.node.group.n >= 1
    ensures IsHonestRun([p])
  {
    NobodyLies(p);
    Runs.Starts(Starting, Stepping, p);
  }

  ghost predicate Steps(p: Process, step: Step, p': Process) {
    Enabled(p, step, {}) && p' == After(p, step) && p'.node.group.n >= 1
  }

  lemma RunExtends(trace: seq<Process>, step: Step, p: Process)
    requires IsHonestRun(trace) && Steps(trace[|trace| - 1], step, p)
    ensures IsHonestRun(trace + [p])
  {
    NobodyLies(p);
    Runs.Extends(Starting, Stepping, trace, p);
  }

  lemma RunOfTwo(trace: seq<Process>, s1: Step, p1: Process, s2: Step, p2: Process)
    requires IsHonestRun(trace) && Steps(trace[|trace| - 1], s1, p1) && Steps(p1, s2, p2)
    ensures IsHonestRun(trace + [p1, p2])
  {
    RunExtends(trace, s1, p1);
    RunExtends(trace + [p1], s2, p2);
    assert trace + [p1] + [p2] == trace + [p1, p2];
  }

  lemma RunOfThree(trace: seq<Process>, s1: Step, p1: Process, s2: Step, p2: Process, s3: Step, p3: Process)
    requires IsHonestRun(trace) && Steps(trace[|trace| - 1], s1, p1) && Steps(p1, s2, p2) && Steps(p2, s3, p3)
    ensures IsHonestRun(trace + [p1, p2, p3])
  {
    RunOfTwo(trace, s1, p1, s2, p2);
    RunExtends(trace + [p1, p2], s3, p3);
    assert trace + [p1, p2] + [p3] == trace + [p1, p2, p3];
  }

  // ---- Four members let in a fifth -------------------------------------------------------------

  const ALL: seq<nat> := [1, 2, 3, 4, 5]
  const MEMBERS: seq<nat> := [1, 2, 3, 4]

  /** A block on top of nothing that makes all five nodes members. */
  ghost predicate LetsIn(b: Block) {
    && b.Block? && b.number == 1 && b.parent == "genesis"
    && forall g: Group :: g.all == ALL ==> g.ApplyBlock(b).members == ALL && g.ApplyBlock(b).n == 5
  }

  lemma SomeBlockLetsIn() returns (b: Block)
    ensures LetsIn(b)
  {
    var tx := Build(ALL).tx;
    b := Block(1, "genesis", [tx]);
    ParsesToAll();
    forall g: Group | g.all == ALL
      ensures g.ApplyBlock(b).members == ALL && g.ApplyBlock(b).n == 5
    {
      TxLetsIn(g, tx);
      assert [tx][..0] == [];
      assert g.ApplyTxs([tx]) == g.ApplyTxs([]).ApplyTx(tx);
    }
  }

  lemma ParsesToAll()
    ensures Build(ALL).Built? && Parse(Build(ALL).tx) == Members(ALL)
  {
    ParseOfBuild(ALL);
    CanonicalIsTheSortedSet(ALL);
    assert StrictlyIncreasing(ALL) && SameElements(ALL, ALL);
  }

  lemma TxLetsIn(g: Group, tx: string)
    requires g.all == ALL && Parse(tx) == Members(ALL)
    ensures g.ApplyTx(tx).members == ALL && g.ApplyTx(tx).n == 5
  {
  }

  function VoteOf(i: nat, b: Block): Vote {
    Vote(1, b, i)
  }

  /** The certificate that the votes of 2, 3 and 4 make. */
  function Won(b: Block): Notarization {
    Notarization(b, [VoteOf(2, b), VoteOf(3, b), VoteOf(4, b)])
  }

  /** Enough distinct members voted for the block itself. */
  ghost predicate Genuine(nota: Notarization, g: Group) {
    && |nota.votes| >= Quorum(g.n)
    && (forall v :: v in nota.votes ==>
          v.block == nota.block && v.height == nota.block.Height() && v.voter in g.members)
    && forall i, j :: 0 <= i < j < |nota.votes| ==> nota.votes[i].voter != nota.votes[j].voter
  }

  ghost function First(hashing: Hashing): Process {
    NewProcess(1, hashing, ALL, MEMBERS)
  }

  /** So many votes have been counted, and nothing else happened. */
  ghost predicate Counted(p: Process, hashing: Hashing, b: Block, list: seq<Vote>) {
    && p.node == First(hashing).node.(votes := p.node.votes) && p.node.VotesFor(1, b.ID()) == list
    && p == First(hashing).(node := p.node)
  }

  lemma EarlyVote(p: Process, hashing: Hashing, b: Block, list: seq<Vote>, i: nat) returns (p': Process)
    requires LetsIn(b) && Counted(p, hashing, b, list) && |list| <= 1 && i in MEMBERS && !HasVoter(list, i)
    ensures Steps(p, Count(VoteOf(i, b)), p') && Counted(p', hashing, b, list + [VoteOf(i, b)])
  {
    var v := VoteOf(i, b);
    p' := After(p, Count(v));
    assert p.node.HandleVote(v) == Result(p.node.WithVote(v), [], [], []);
    assert p.tasks + multiset([]) == p.tasks;
  }

  /** The block is certified; advancing is left to do. */
  ghost predicate Certified(p: Process, hashing: Hashing, b: Block) {
    && p.node == First(hashing).node.(votes := p.node.votes, notarized := map[1 := Won(b)])
    && p.tasks == multiset{Task.Advance(1, Won(b))} && !p.started && p.applied == []
  }

  lemma LastVote(p: Process, hashing: Hashing, b: Block) returns (p': Process)
    requires LetsIn(b) && Counted(p, hashing, b, [VoteOf(2, b), VoteOf(3, b)])
    ensures Steps(p, Count(VoteOf(4, b)), p') && Certified(p', hashing, b)
  {
    var v := VoteOf(4, b);
    p' := After(p, Count(v));
    var nd := p.node.WithVote(v);
    assert [VoteOf(2, b), VoteOf(3, b)] + [v] == Won(b).votes;
    assert p.node.HandleVote(v) == nd.Certify(1, Won(b));
    NotFinalYet(nd, Won(b));
    assert p.tasks + multiset([Task.Advance(1, Won(b))]) == multiset{Task.Advance(1, Won(b))};
  }

  lemma NotFinalYet(nd: Node, nota: Notarization)
    requires nd.finalizes == map[] && nd.notarized == map[] && nd.heightN == map[] && nd.group.n == 4
    ensures nd.Certify(1, nota) == Result(nd.(notarized := map[1 := nota]), [Task.Advance(1, nota)], [], [])
  {
    var mid := nd.(notarized := map[][1 := nota]);
    assert map[][1 := nota] == map[1 := nota];
    assert mid.Finalizers(1) == {} && !mid.CanFinalize(1);
  }

  /** The first three steps. */
  lemma Certifying(hashing: Hashing, b: Block) returns (trace: seq<Process>)
    requires LetsIn(b)
    ensures IsHonestRun(trace) && |trace| == 4 && trace[0] == First(hashing) && Certified(trace[3], hashing, b)
  {
    var p0 := First(hashing);
    assert !HasVoter([], 2) && !HasVoter([VoteOf(2, b)], 3);
    var p1 := EarlyVote(p0, hashing, b, [], 2);
    assert [] + [VoteOf(2, b)] == [VoteOf(2, b)];
    var p2 := EarlyVote(p1, hashing, b, [VoteOf(2, b)], 3);
    assert [VoteOf(2, b)] + [VoteOf(3, b)] == [VoteOf(2, b), VoteOf(3, b)];
    var p3 := LastVote(p2, hashing, b);
    RunStarts(p0);
    RunOfThree([p0], Count(VoteOf(2, b)), p1, Count(VoteOf(3, b)), p2, Count(VoteOf(4, b)), p3);
    trace := [p0] + [p1, p2, p3];
  }

  lemma RunIsAdvance(p: Process, nota: Notarization)
    ensures
      var p' := After(p, Run(Task.Advance(1, nota)));
      && p'.node == p.node.Advance(1, nota).node && p'.started == p.started
      && (p.node.height == 1 ==> p'.applied == p.applied + [nota])
  {
  }

  lemma WonAdvances(nd: Node, b: Block)
    requires LetsIn(b) && nd.height == 1 && nd.group.all == ALL && |nd.chain| <= 1
    ensures
      var nd' := nd.Advance(1, Won(b)).node;
      && nd'.group.members == ALL && nd'.group.n == 5 && nd'.height == 2
      && nd'.chain == (if nd.chain == [] then [Some(Won(b))] else nd.chain) && nd'.heightN == nd.heightN[2 := 5]
  {
    AdvanceEnters(nd, 1, Won(b));
    var mid := nd.Entering(1, Won(b));
    assert nd.Advance(1, Won(b)).node == mid.(txs := mid.Taken(2)).AtHeight(2);
    assert [] + [Some(Won(b))] == [Some(Won(b))];
  }

  // ---- Chain and group part --------------------------------------------------------------------

  /** The same three members' timeout votes. */
  function TimedOut(): Notarization {
    Won(TimeoutBlock(1))
  }

  lemma TimeoutFillsChain(p: Process, hashing: Hashing, b: Block) returns (p': Process)
    requires Certified(p, hashing, b)
    ensures Steps(p, Notarize(1, TimedOut()), p')
    ensures p'.node == p.node.(chain := [Some(TimedOut())]) && Task.Advance(1, Won(b)) in p'.tasks && p'.applied == []
  {
    p' := After(p, Notarize(1, TimedOut()));
    assert Pad([], 1) == [];
    assert p.node.ApplyNotarization(1, TimedOut()).node == p.node.(chain := [] + [Some(TimedOut())]);
    assert [] + [Some(TimedOut())] == [Some(TimedOut())];
  }

  lemma WonOvertaken(p: Process, hashing: Hashing, b: Block) returns (p': Process)
    requires LetsIn(b) && Task.Advance(1, Won(b)) in p.tasks && p.applied == []
    requires p.node.height == 1 && p.node.group.all == ALL && p.node.chain == [Some(TimedOut())]
    ensures Steps(p, Run(Task.Advance(1, Won(b))), p') && p'.applied == [Won(b)]
    ensures p'.node.height == 2 && p'.node.chain == [Some(TimedOut())] && p'.node.group.members == ALL
  {
    p' := After(p, Run(Task.Advance(1, Won(b))));
    WonAdvances(p.node, b);
    RunIsAdvance(p, Won(b));
  }

  lemma AreGenuine(g: Group, b: Block)
    requires g.members == MEMBERS && g.n == 4 && b.Height() == 1
    ensures Genuine(Won(b), g)
  {
  }

  /**
   * From the start, among four honest members: three votes certify a block that lets in node 5, the certificate of the
   * timeout votes of the same three arrives before the node has advanced, and then the block takes effect. Both
   * certificates are genuine. The chain says that the four are still alone.
   */
  lemma ChainAndGroupPart(hashing: Hashing) returns (trace: seq<Process>)
    ensures IsRun(trace, {}) && |trace| == 6
    ensures
      var p, initial := trace[5], trace[0].node.group;
      && p.node.height == 2 && |p.node.chain| == |p.applied| == 1
      && p.node.chain[0].Some? && Genuine(p.node.chain[0].value, initial) && Genuine(p.applied[0], initial)
      && p.node.group.members == ALL && Replay(initial, ChainBlocks(p.node.chain, 1)).members == MEMBERS
      && p.node.group != Replay(initial, ChainBlocks(p.node.chain, p.node.height - 1))
  {
    var b := SomeBlockLetsIn();
    var before := Certifying(hashing, b);
    var p4 := TimeoutFillsChain(before[3], hashing, b);
    var p5 := WonOvertaken(p4, hashing, b);
    RunOfTwo(before, Notarize(1, TimedOut()), p4, Run(Task.Advance(1, Won(b))), p5);
    trace := before + [p4, p5];
    HonestIsRun(trace);
    ReplayOfTimeout(First(hashing).node.group, p5.node.chain);
    AreGenuine(First(hashing).node.group, b);
    AreGenuine(First(hashing).node.group, TimeoutBlock(1));
  }

  lemma ReplayOfTimeout(g: Group, chain: seq<Option<Notarization>>)
    requires chain == [Some(TimedOut())]
    ensures Replay(g, ChainBlocks(chain, 1)) == g
  {
    var blocks := ChainBlocks(chain, 1);
    assert blocks[0] == TimeoutBlock(1) && blocks[..0] == [];
    assert Replay(g, blocks) == Replay(g, blocks[..0]).ApplyBlock(blocks[0]);
  }

  // ---- A quorum moves --------------------------------------------------------------------------

  lemma LeftBeforeStart(p: Process, hashing: Hashing, b: Block) returns (p1: Process, p2: Process)
    requires LetsIn(b) && Certified(p, hashing, b)
    ensures Steps(p, Run(Task.Advance(1, Won(b))), p1) && Steps(p1, Step.Start, p2)
    ensures p2.node.height == 2 && p2.node.heightN == map[2 := 5] && p2.node.group.n == 5 && p2.started
  {
    p1 := After(p, Run(Task.Advance(1, Won(b))));
    WonAdvances(p.node, b);
    RunIsAdvance(p, Won(b));
    assert map[][2 := 5] == map[2 := 5];
    p2 := After(p1, Step.Start);
    assert p2.node == p1.node && p2.started;
  }

  /**
   * From the start, in five steps: the block takes effect before Start, and the quorum of height 1 grows from three to
   * four after the height was left. Start, coming then, does not record it any more.
   */
  lemma QuorumOfFirstHeightMoves(hashing: Hashing) returns (trace: seq<Process>)
    ensures IsRun(trace, {}) && |trace| == 6
    ensures
      var before, after := trace[3].node, trace[5].node;
      && before.height == 1 && after.height == 2 && trace[5].started && 1 !in after.heightN
      && Quorum(before.SizeAt(1)) == 3 && Quorum(after.SizeAt(1)) == 4
  {
    var b := SomeBlockLetsIn();
    var before := Certifying(hashing, b);
    var p4, p5 := LeftBeforeStart(before[3], hashing, b);
    RunOfTwo(before, Run(Task.Advance(1, Won(b))), p4, Step.Start, p5);
    trace := before + [p4, p5];
    HonestIsRun(trace);
  }

  // ---- A transaction is stranded ---------------------------------------------------------------

  function TimeoutVote(i: nat): Vote {
    Vote(1, TimeoutBlock(1), i)
  }

  function Waiting(hashing: Hashing, tx: string): Node {
    NewNode(1, hashing, [1, 2, 3], [1, 2, 3]).(txs := TxState([tx], map[], map[], {}, {}))
  }

  /** Two finalize messages for height 1 wait for a certificate. */
  function Asked(hashing: Hashing, tx: string): Node {
    Waiting(hashing, tx).(finalizes := map[1 := {2, 3}])
  }

  lemma FinalizeWaits(nd: Node, from: nat)
    requires nd.notarized == map[] && nd.group.members == [1, 2, 3] && nd.id == 1 && nd.finalized == {}
        && from in {2, 3}
    ensures nd.HandleFinalize(1, from)
        == Result(nd.(finalizes := nd.finalizes[1 := nd.Finalizers(1) + {from}]), [], [], [])
  {
  }

  lemma TwoAsk(hashing: Hashing, tx: string)
    ensures
      var nd := Waiting(hashing, tx);
      && nd.HandleFinalize(1, 2) == Result(nd.(finalizes := map[1 := {2}]), [], [], [])
      && nd.(finalizes := map[1 := {2}]).HandleFinalize(1, 3) == Result(Asked(hashing, tx), [], [], [])
  {
    var nd := Waiting(hashing, tx);
    FinalizeWaits(nd, 2);
    FinalizeWaits(nd.(finalizes := map[1 := {2}]), 3);
    var nobody: set<nat> := {};
    assert nobody + {2} == {2} && {2} + {3} == {2, 3};
    assert map[][1 := {2}] == map[1 := {2}] && map[1 := {2}][1 := {2, 3}] == map[1 := {2, 3}];
  }

  lemma TwoHaveAsked(hashing: Hashing, tx: string) returns (trace: seq<Process>)
    ensures IsHonestRun(trace) && |trace| == 4
    ensures trace[3] == Process(Asked(hashing, tx), multiset{}, false, [], multiset{tx}, map[])
  {
    var p0 := NewProcess(1, hashing, [1, 2, 3], [1, 2, 3]);
    var s1, s2, s3 := Add(tx), Finalize(1, 2), Finalize(1, 3);
    var p1 := After(p0, s1);
    assert [] + [tx] == [tx];
    assert p1 == Process(Waiting(hashing, tx), multiset{}, false, [], multiset{tx}, map[]);
    TwoAsk(hashing, tx);
    var p2 := After(p1, s2);
    assert p2 == p1.(node := Waiting(hashing, tx).(finalizes := map[1 := {2}]));
    var p3 := After(p2, s3);
    assert p3 == p1.(node := Asked(hashing, tx));
    RunStarts(p0);
    RunOfThree([p0], s1, p1, s2, p2, s3, p3);
    trace := [p0] + [p1, p2, p3];
  }

  lemma FirstTimeoutVote(hashing: Hashing, tx: string)
    ensures
      var nd := Asked(hashing, tx);
      nd.HandleVote(TimeoutVote(2)) == Result(nd.WithVote(TimeoutVote(2)), [], [], [])
  {
    assert !HasVoter([], 2);
  }

  lemma SecondTimeoutVote(hashing: Hashing, tx: string)
    ensures
      var nd := Asked(hashing, tx).WithVote(TimeoutVote(2));
      var r := nd.HandleVote(TimeoutVote(3));
      && r.node.finalized == {1} && r.node.txs == nd.txs && r.node.height == 1 && r.node.group == nd.group
      && r.node.hashing == hashing && r.node.id == 1
  {
    var nd := Asked(hashing, tx).WithVote(TimeoutVote(2));
    var v := TimeoutVote(3);
    assert nd.VotesFor(1, v.block.ID()) == [] + [TimeoutVote(2)] == [TimeoutVote(2)];
    assert !HasVoter([TimeoutVote(2)], 3);
    assert nd.HandleVote(v) == nd.WithVote(v).Certify(1, Notarization(v.block, [TimeoutVote(2)] + [v]));
    var mid := nd.WithVote(v).(notarized := nd.notarized[1 := Notarization(v.block, [TimeoutVote(2)] + [v])]);
    assert mid.Finalizers(1) == {2, 3} && |{2, 3}| == 2;
    assert mid.CanFinalize(1);
    assert mid.TryFinalize(1).0 == mid.(finalized := {} + {1}, txs := mid.txs.Rescue(1));
  }

  /** On starting, the leader of height 1 moves its pool into its proposal, whatever has been finalized. */
  lemma StartStrands(p: Process, tx: string)
    requires p.node.height == 1 && p.node.Leads(1) && p.node.txs == TxState([tx], map[], map[], {}, {})
    ensures
      var t := After(p, Start).node.txs;
      t.pool == [] && t.proposed == map[1 := [tx]] && t.done == {} && After(p, Start).node.finalized == p.node.finalized
  {
    assert [tx][..0] == [] && Without<string>([], {}) == [];
    assert Without<string>([tx], {}) == [tx];
    assert map[][1 := [tx]] == map[1 := [tx]];
  }

  /**
   * From the start, in six steps, for any hash that draws the first of three members for height 1: the height is
   * finalized with the timeout block before Start, and Start then takes the transaction out of the pool into a proposal
   * for it. The transaction is neither in the pool, nor final, nor in a proposal for a height that is still open.
   */
  lemma StartComesTooLate(hashing: Hashing, tx: string) returns (trace: seq<Process>)
    requires hashing.draw(1) % 3 == 0
    ensures IsRun(trace, {}) && |trace| == 7
    ensures
      var p := trace[5];
      && !p.started && p.node.height == 1
      && 1 in p.node.finalized && p.node.Leads(1) && Without(p.node.txs.pool, p.node.txs.done) != []
    ensures
      var p := trace[6];
      && p.added[tx] == 1 && p.node.txs.pool == [] && tx !in p.node.txs.done
      && p.node.txs.proposed == map[1 := [tx]] && 1 in p.node.finalized
  {
    var asked := TwoHaveAsked(hashing, tx);
    var s1, s2, s3 := Count(TimeoutVote(2)), Count(TimeoutVote(3)), Step.Start;
    var p0 := asked[3];
    var p1 := After(p0, s1);
    var p2 := After(p1, s2);
    var p3 := After(p2, s3);
    FirstTimeoutVote(hashing, tx);
    SecondTimeoutVote(hashing, tx);
    StartStrands(p2, tx);
    RunOfThree(asked, s1, p1, s2, p2, s3, p3);
    trace := asked + [p1, p2, p3];
    HonestIsRun(trace);
  }
}
