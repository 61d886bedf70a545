/** What certificates of one height can coexist, over runs of many nodes with fixed membership. */
module SimplexCertificates {
  import opened Options
  import Q = Quorum
  import opened SimplexTypes
  import opened SimplexNode
  import P = SimplexProcess
  import M = SimplexMembership

  /** Correct nodes by identifier, and every vote sent so far. */
  datatype System = System(nodes: map<nat, P.Process>, votes: set<Vote>)

  /** The fixed members, and which of all nodes are faulty. */
  datatype Setting = Setting(members: seq<nat>, faulty: set<nat>)
  {
    function N(): nat { |members| }

    /** No member twice, at least one, and at most (n - 1) / 3 faulty. */
    ghost predicate Valid() {
      && N() >= 1
      && (forall i, j :: 0 <= i < j < N() ==> members[i] != members[j])
      && |Elements(members) * faulty| <= (N() - 1) / 3
    }
  }

  datatype Step = NodeStep(node: nat, step: P.Step) | Forge(vote: Vote)

  ghost predicate Init(s: System, c: Setting) {
    && s.votes == {}
    && forall i :: i in s.nodes ==>
         i !in c.faulty && P.Init(s.nodes[i]) && s.nodes[i].node.id == i && s.nodes[i].node.group.members == c.members
  }

  /** Votes that count towards one certificate: sent, by distinct members, for one block identifier at one height. */
  ghost predicate Genuine(votes: set<Vote>, members: seq<nat>, h: nat, bid: string, list: seq<Vote>) {
    && (forall i, j :: 0 <= i < j < |list| ==> list[i].voter != list[j].voter)
    && forall i :: 0 <= i < |list| ==>
         list[i] in votes && list[i].voter in members && list[i].height == h && list[i].block.ID() == bid
  }

  ghost predicate Enabled(s: System, step: Step, c: Setting) {
    match step
    case Forge(v) => v.voter in c.faulty
    case NodeStep(i, st) =>
      && i in s.nodes
      && match st
         case Count(v) => v in s.votes
         case Notarize(h, nota) =>
           && nota.block.Height() == h
           && Genuine(s.votes, c.members, h, nota.block.ID(), nota.votes) && |nota.votes| >= Quorum(c.N())
         case Run(task) => task in s.nodes[i].tasks
         case Start => !s.nodes[i].started
         case Register(_, channel) => channel !in s.nodes[i].registered
         case _ => true
  }

  /** The vote a lock region sends, if any. */
  ghost function SentVotes(p: P.Process, st: P.Step): set<Vote> {
    match st
    case Propose(m) => set x | x in p.node.HandlePropose(m).sends && x.Voted? :: x.vote
    case TimeOut(h) => set x | x in p.node.TimeOut(h).sends && x.Voted? :: x.vote
    case _ => {}
  }

  ghost function After(s: System, step: Step): System
    requires step.NodeStep? ==> step.node in s.nodes
  {
    match step
    case Forge(v) => s.(votes := s.votes + {v})
    case NodeStep(i, st) =>
      System(s.nodes[i := P.After(s.nodes[i], st)], s.votes + SentVotes(s.nodes[i], st))
  }

  ghost predicate Next(s: System, s': System, c: Setting) {
    exists step :: Enabled(s, step, c) && s' == After(s, step)
  }

  /** No reconfiguration changes the members. */
  ghost predicate MembersFixed(s: System, c: Setting) {
    forall i :: i in s.nodes ==> s.nodes[i].node.group.members == c.members
  }

  ghost predicate StepOf(trace: seq<System>, k: nat, c: Setting)
    requires 0 < k < |trace|
  {
    Next(trace[k - 1], trace[k], c)
  }

  ghost predicate IsRun(trace: seq<System>, c: Setting) {
    && trace != [] && c.Valid() && Init(trace[0], c)
    && (forall k :: 0 <= k < |trace| ==> MembersFixed(trace[k], c))
    && forall k :: 0 < k < |trace| ==> StepOf(trace, k, c)
  }

  // ---- Certificates ----------------------------------------------------------------------------

  ghost predicate Cast(votes: set<Vote>, m: nat, h: nat, bid: string) {
    exists v :: v in votes && v.voter == m && v.height == h && v.block.ID() == bid
  }

  ghost function Signers(votes: set<Vote>, members: seq<nat>, h: nat, bid: string): set<nat> {
    set m | m in members && Cast(votes, m, h, bid)
  }

  ghost predicate Certified(votes: set<Vote>, members: seq<nat>, h: nat, bid: string) {
    |Signers(votes, members, h, bid)| >= Quorum(|members|)
  }

  /** The identifier that timed-out nodes vote for. */
  function TimeoutID(h: nat): string {
    TimeoutBlock(h).ID()
  }

  lemma GenuineCertifies(votes: set<Vote>, members: seq<nat>, h: nat, bid: string, list: seq<Vote>)
    requires Genuine(votes, members, h, bid, list) && |list| >= Quorum(|members|)
    ensures Certified(votes, members, h, bid)
  {
    P.VotersCounted(list);
    forall m | m in P.Voters(list)
      ensures m in Signers(votes, members, h, bid)
    {
      var i :| 0 <= i < |list| && list[i].voter == m;
      assert list[i] in votes;
    }
    Q.SubsetSize(P.Voters(list), Signers(votes, members, h, bid));
  }

  lemma CertificatesStay(votes: set<Vote>, votes': set<Vote>, members: seq<nat>, h: nat, bid: string)
    requires votes <= votes' && Certified(votes, members, h, bid)
    ensures Certified(votes', members, h, bid)
  {
    forall m | Cast(votes, m, h, bid)
      ensures Cast(votes', m, h, bid)
    {
      var v :| v in votes && v.voter == m && v.height == h && v.block.ID() == bid;
      assert v in votes';
    }
    Q.SubsetSize(Signers(votes, members, h, bid), Signers(votes', members, h, bid));
  }

  // ---- One node: everything it certifies is certified ------------------------------------------

  ghost predicate ListsOk(nd: Node, votes: set<Vote>, members: seq<nat>) {
    forall h, bid :: Genuine(votes, members, h, bid, nd.VotesFor(h, bid))
  }

  ghost predicate NotarizedOk(nd: Node, votes: set<Vote>, members: seq<nat>) {
    forall h :: h in nd.notarized ==> Certified(votes, members, h, nd.notarized[h].block.ID())
  }

  ghost predicate ChainOk(nd: Node, votes: set<Vote>, members: seq<nat>) {
    forall k :: 0 <= k < |nd.chain| ==>
      nd.chain[k].Some? && Certified(votes, members, k + 1, nd.chain[k].value.block.ID())
  }

  ghost predicate NodeOk(nd: Node, votes: set<Vote>, members: seq<nat>) {
    ListsOk(nd, votes, members) && NotarizedOk(nd, votes, members) && ChainOk(nd, votes, members)
  }

  ghost predicate TaskOk(task: Task, votes: set<Vote>, members: seq<nat>) {
    task.Advance? ==> Certified(votes, members, task.height, task.nota.block.ID())
  }

  ghost predicate TasksOk(tasks: multiset<Task>, votes: set<Vote>, members: seq<nat>) {
    forall task :: task in tasks ==> TaskOk(task, votes, members)
  }

  lemma NodeOkGrows(nd: Node, tasks: multiset<Task>, votes: set<Vote>, votes': set<Vote>, members: seq<nat>)
    requires NodeOk(nd, votes, members) && TasksOk(tasks, votes, members) && votes <= votes'
    ensures NodeOk(nd, votes', members) && TasksOk(tasks, votes', members)
  {
    forall h, bid | Certified(votes, members, h, bid)
      ensures Certified(votes', members, h, bid)
    {
      CertificatesStay(votes, votes', members, h, bid);
    }
    forall h: nat, bid: string
      ensures Genuine(votes', members, h, bid, nd.VotesFor(h, bid))
    {
      assert Genuine(votes, members, h, bid, nd.VotesFor(h, bid));
    }
  }

  /** Same votes, certificates and chain. */
  ghost predicate SameRecords(nd: Node, nd': Node) {
    nd'.votes == nd.votes && nd'.notarized == nd.notarized && nd'.chain == nd.chain
  }

  lemma SameRecordsOk(nd: Node, nd': Node, votes: set<Vote>, members: seq<nat>)
    requires NodeOk(nd, votes, members) && SameRecords(nd, nd')
    ensures NodeOk(nd', votes, members)
  {
    assert forall h, bid :: nd'.VotesFor(h, bid) == nd.VotesFor(h, bid);
  }

  lemma TryFinalizeSameRecords(nd: Node, h: nat)
    ensures SameRecords(nd, nd.TryFinalize(h).0)
  {
  }

  lemma CertifyOk(nd: Node, h: nat, nota: Notarization, votes: set<Vote>, members: seq<nat>)
    requires NodeOk(nd, votes, members) && Certified(votes, members, h, nota.block.ID())
    ensures NodeOk(nd.Certify(h, nota).node, votes, members)
    ensures TasksOk(multiset(nd.Certify(h, nota).tasks), votes, members)
  {
    var mid := nd.(notarized := nd.notarized[h := nota]);
    assert forall k, bid :: mid.VotesFor(k, bid) == nd.VotesFor(k, bid);
    TryFinalizeSameRecords(mid, h);
    M.CertificateOf(nd, h, nota);
    SameRecordsOk(mid, nd.Certify(h, nota).node, votes, members);
  }

  lemma WithVoteOk(nd: Node, v: Vote, votes: set<Vote>, members: seq<nat>)
    requires NodeOk(nd, votes, members) && v in votes && v.voter in members
    requires !HasVoter(nd.VotesFor(v.height, v.block.ID()), v.voter)
    ensures NodeOk(nd.WithVote(v), votes, members)
    ensures Genuine(votes, members, v.height, v.block.ID(), nd.VotesFor(v.height, v.block.ID()) + [v])
  {
    var nd', list := nd.WithVote(v), nd.VotesFor(v.height, v.block.ID());
    assert Genuine(votes, members, v.height, v.block.ID(), list);
    forall h: nat, bid: string
      ensures Genuine(votes, members, h, bid, nd'.VotesFor(h, bid))
    {
      assert Genuine(votes, members, h, bid, nd.VotesFor(h, bid));
      assert nd'.VotesFor(h, bid) == if h == v.height && bid == v.block.ID() then list + [v] else nd.VotesFor(h, bid);
    }
  }

  lemma VoteOk(nd: Node, v: Vote, votes: set<Vote>, members: seq<nat>)
    requires NodeOk(nd, votes, members) && v in votes && nd.group.members == members && nd.group.n == |members|
    ensures NodeOk(nd.HandleVote(v).node, votes, members)
    ensures TasksOk(multiset(nd.HandleVote(v).tasks), votes, members)
  {
    var h, others := v.height, nd.VotesFor(v.height, v.block.ID());
    var r := nd.HandleVote(v);
    if h == nd.height && nd.IsMember(nd.id) && nd.IsMember(v.voter) && !HasVoter(others, v.voter) {
      WithVoteOk(nd, v, votes, members);
      if |others| + 1 >= Quorum(nd.group.n) && h !in nd.notarized {
        GenuineCertifies(votes, members, h, v.block.ID(), others + [v]);
        CertifyOk(nd.WithVote(v), h, Notarization(v.block, others + [v]), votes, members);
      } else {
        assert r == Result(nd.WithVote(v), [], [], []);
      }
    } else {
      UncountedVote(nd, v);
      SameRecordsOk(nd, r.node, votes, members);
    }
  }

  lemma UncountedVote(nd: Node, v: Vote)
    requires !(v.height == nd.height && nd.IsMember(nd.id) && nd.IsMember(v.voter)
               && !HasVoter(nd.VotesFor(v.height, v.block.ID()), v.voter))
    ensures SameRecords(nd, nd.HandleVote(v).node) && nd.HandleVote(v).tasks == []
  {
  }

  ghost function Appended(nd: Node, h: nat, nota: Notarization): Node {
    nd.(chain := if |nd.chain| + 1 == h then nd.chain + [Some(nota)] else nd.chain)
  }

  lemma AppendedOk(nd: Node, h: nat, nota: Notarization, votes: set<Vote>, members: seq<nat>)
    requires NodeOk(nd, votes, members) && Certified(votes, members, h, nota.block.ID())
    requires h == nd.height && nd.height - 1 <= |nd.chain| <= nd.height
    ensures NodeOk(Appended(nd, h, nota), votes, members)
    ensures nd.ApplyNotarization(h, nota)
         == if h in nd.notarized then Result(Appended(nd, h, nota), [Task.Advance(h, nota)], [], [])
            else Appended(nd, h, nota).Certify(h, nota)
  {
    ChainedOk(nd, Appended(nd, h, nota).chain, votes, members);
    AppendsOnly(nd, h, nota);
  }

  lemma AppendsOnly(nd: Node, h: nat, nota: Notarization)
    requires h == nd.height && nd.height - 1 <= |nd.chain| <= nd.height
    ensures nd.ApplyNotarization(h, nota)
         == if h in nd.notarized then Result(Appended(nd, h, nota), [Task.Advance(h, nota)], [], [])
            else Appended(nd, h, nota).Certify(h, nota)
  {
    assert Pad(nd.chain, h) == nd.chain;
  }

  lemma NotarizeOk(nd: Node, h: nat, nota: Notarization, votes: set<Vote>, members: seq<nat>)
    requires NodeOk(nd, votes, members) && Certified(votes, members, h, nota.block.ID())
    requires nd.height - 1 <= |nd.chain| <= nd.height
    ensures NodeOk(nd.ApplyNotarization(h, nota).node, votes, members)
    ensures TasksOk(multiset(nd.ApplyNotarization(h, nota).tasks), votes, members)
  {
    if h == nd.height {
      AppendedOk(nd, h, nota, votes, members);
      if h !in nd.notarized {
        CertifyOk(Appended(nd, h, nota), h, nota, votes, members);
      }
    } else {
      M.EarlyOrLateNotarization(nd, h, nota);
      assert nd.ApplyNotarization(h, nota).node.votes == nd.votes;
      SameRecordsOk(nd, nd.ApplyNotarization(h, nota).node, votes, members);
    }
  }

  lemma FinalizeOk(nd: Node, h: nat, from: nat)
    ensures SameRecords(nd, nd.HandleFinalize(h, from).node)
    ensures forall task :: task in nd.HandleFinalize(h, from).tasks ==> task.SignalTxs?
  {
    TryFinalizeSameRecords(nd.(finalizes := nd.finalizes[h := nd.Finalizers(h) + {from}]), h);
  }

  lemma AdvanceOk(nd: Node, h: nat, nota: Notarization, votes: set<Vote>, members: seq<nat>)
    requires NodeOk(nd, votes, members) && Certified(votes, members, h, nota.block.ID())
    requires nd.height - 1 <= |nd.chain| <= nd.height
    ensures NodeOk(nd.Advance(h, nota).node, votes, members)
  {
    if h == nd.height {
      M.AdvanceEnters(nd, h, nota);
      EnteringOk(nd, h, nota, votes, members);
      var mid := nd.Entering(h, nota);
      EnterSameRecords(mid, h + 1);
      SameRecordsOk(mid, mid.EnterIteration(h + 1).node, votes, members);
    }
  }

  lemma EnteringOk(nd: Node, h: nat, nota: Notarization, votes: set<Vote>, members: seq<nat>)
    requires NodeOk(nd, votes, members) && Certified(votes, members, h, nota.block.ID())
    requires h == nd.height && nd.height - 1 <= |nd.chain| <= nd.height
    ensures NodeOk(nd.Entering(h, nota), votes, members)
  {
    var mid := nd.(chain := if |nd.chain| < h then nd.chain + [Some(nota)] else nd.chain);
    ChainedOk(nd, mid.chain, votes, members);
    assert SameRecords(mid, nd.Entering(h, nota));
    SameRecordsOk(mid, nd.Entering(h, nota), votes, members);
  }

  lemma ChainedOk(nd: Node, chain: seq<Option<Notarization>>, votes: set<Vote>, members: seq<nat>)
    requires NodeOk(nd, votes, members) && ChainOk(nd.(chain := chain), votes, members)
    ensures NodeOk(nd.(chain := chain), votes, members)
  {
    var nd' := nd.(chain := chain);
    assert forall h, bid :: nd'.VotesFor(h, bid) == nd.VotesFor(h, bid);
  }

  lemma EnterSameRecords(nd: Node, h: nat)
    ensures SameRecords(nd, nd.EnterIteration(h).node)
  {
  }

  lemma StartSameRecords(nd: Node)
    ensures SameRecords(nd, nd.Start().node)
  {
    EnterSameRecords(nd, 1);
  }

  // ---- All nodes -------------------------------------------------------------------------------

  /** A correct node votes under its block's height, and marks every vote that is not a timeout vote. */
  ghost predicate VoteMarked(s: System, v: Vote) {
    && v.voter in s.nodes && v.block.Height() == v.height
    && (v.block != TimeoutBlock(v.height) ==> v.height in s.nodes[v.voter].node.voted)
  }

  ghost predicate VotesOk(s: System, c: Setting) {
    && (forall v :: v in s.votes && v.voter !in c.faulty ==> VoteMarked(s, v))
    && (forall v, w :: (v in s.votes && w in s.votes && v.voter == w.voter && v.voter !in c.faulty
                       && v.height == w.height
                        && v.block != TimeoutBlock(v.height) && w.block != TimeoutBlock(w.height)) ==> v == w)
  }

  ghost predicate ProcessOk(p: P.Process, i: nat, votes: set<Vote>, c: Setting) {
    && p.node.id == i && i !in c.faulty && P.Inv(p, c.faulty)
    && NodeOk(p.node, votes, c.members) && TasksOk(p.tasks, votes, c.members)
  }

  ghost predicate Inv(s: System, c: Setting) {
    VotesOk(s, c) && forall i :: i in s.nodes ==> ProcessOk(s.nodes[i], i, s.votes, c)
  }

  lemma InitInv(s: System, c: Setting)
    requires Init(s, c)
    ensures Inv(s, c)
  {
    forall i | i in s.nodes
      ensures ProcessOk(s.nodes[i], i, s.votes, c)
    {
      P.InitInv(s.nodes[i], c.faulty);
    }
  }

  /** Arithmetic of the quorum of two thirds, rounded up, with f = (n - 1) / 3. */
  lemma QuorumFacts(n: nat)
    requires n >= 1
    ensures 2 * Quorum(n) - n > (n - 1) / 3
    ensures Quorum(n) <= n - (n - 1) / 3
    ensures Quorum(n) > (n - 1) / 3
  {
  }

  lemma {:induction false} DistinctCount(xs: seq<nat>)
    requires forall i, j :: 0 <= i < j < |xs| ==> xs[i] != xs[j]
    ensures |Elements(xs)| == |xs|
  {
    if xs != [] {
      var last := |xs| - 1;
      DistinctCount(xs[..last]);
      assert Elements(xs) == Elements(xs[..last]) + {xs[last]};
    }
  }

  lemma FewFaulty(p: P.Process, c: Setting)
    requires c.Valid() && p.node.group.members == c.members && P.Inv(p, c.faulty)
    ensures P.FewLiars(p, c.faulty)
  {
    QuorumFacts(c.N());
  }

  /** The node that takes a step. */
  lemma MoverOk(s: System, i: nat, st: P.Step, c: Setting)
    requires Inv(s, c) && c.Valid() && MembersFixed(s, c) && Enabled(s, NodeStep(i, st), c)
    ensures ProcessOk(P.After(s.nodes[i], st), i, s.votes + SentVotes(s.nodes[i], st), c)
  {
    var p := s.nodes[i];
    assert ProcessOk(p, i, s.votes, c);
    FewFaulty(p, c);
    assert st.Count? && st.vote.voter !in c.faulty ==> VoteMarked(s, st.vote);
    P.StepKeepsInv(p, st, c.faulty);
    RegionOk(p, st, s.votes, c);
    var p' := P.After(p, st);
    NodeOkGrows(p'.node, p'.tasks, s.votes, s.votes + SentVotes(p, st), c.members);
    SentVotesAreNew(p, st);
  }

  ghost predicate SameIdentity(nd: Node, nd': Node) {
    nd'.id == nd.id && nd'.voted == nd.voted
  }

  lemma TryFinalizeSameIdentity(nd: Node, h: nat)
    ensures SameIdentity(nd, nd.TryFinalize(h).0)
  {
  }

  lemma CertifySameIdentity(nd: Node, h: nat, nota: Notarization)
    ensures SameIdentity(nd, nd.Certify(h, nota).node)
  {
    TryFinalizeSameIdentity(nd.(notarized := nd.notarized[h := nota]), h);
  }

  lemma VoteSameIdentity(nd: Node, v: Vote)
    ensures SameIdentity(nd, nd.HandleVote(v).node)
  {
    M.VoteCertifies(nd, v);
    if nd.HandleVote(v).tasks != [] {
      CertifySameIdentity(nd.WithVote(v), v.height, Notarization(v.block, nd.VotesFor(v.height, v.block.ID()) + [v]));
    }
  }

  lemma ApplySameIdentity(nd: Node, h: nat, nota: Notarization)
    ensures SameIdentity(nd, nd.ApplyNotarization(h, nota).node)
  {
    var padded := Pad(nd.chain, h);
    CertifySameIdentity(nd.(chain := if |padded| + 1 == h then padded + [Some(nota)] else padded), h, nota);
  }

  lemma FinalizeSameIdentity(nd: Node, h: nat, from: nat)
    ensures SameIdentity(nd, nd.HandleFinalize(h, from).node)
  {
    TryFinalizeSameIdentity(nd.(finalizes := nd.finalizes[h := nd.Finalizers(h) + {from}]), h);
  }

  lemma EnterSameIdentity(nd: Node, h: nat)
    ensures SameIdentity(nd, nd.EnterIteration(h).node)
  {
  }

  lemma TaskSameIdentity(nd: Node, task: Task)
    ensures SameIdentity(nd, nd.RunTask(task).node)
  {
    if task.Advance? && task.height == nd.height {
      M.AdvanceEnters(nd, task.height, task.nota);
      EnterSameIdentity(nd.Entering(task.height, task.nota), task.height + 1);
    }
  }

  /** Only a proposal makes a node mark a height as voted. */
  lemma VotedStays(p: P.Process, st: P.Step)
    requires !st.Propose?
    ensures SameIdentity(p.node, P.After(p, st).node)
  {
    match st
    case Count(v) => VoteSameIdentity(p.node, v);
    case Notarize(h, nota) => ApplySameIdentity(p.node, h, nota);
    case Finalize(h, from) => FinalizeSameIdentity(p.node, h, from);
    case Run(task) => TaskSameIdentity(p.node, task);
    case Start => EnterSameIdentity(p.node, 1);
    case _ =>
  }

  lemma RegionOk(p: P.Process, st: P.Step, votes: set<Vote>, c: Setting)
    requires P.Inv(p, c.faulty) && p.node.group.members == c.members
    requires NodeOk(p.node, votes, c.members) && TasksOk(p.tasks, votes, c.members)
    requires st.Count? ==> st.vote in votes
    requires st.Notarize? ==> Genuine(votes, c.members, st.height, st.nota.block.ID(), st.nota.votes)
                              && |st.nota.votes| >= Quorum(c.N())
    requires st.Run? ==> st.task in p.tasks
    ensures NodeOk(P.After(p, st).node, votes, c.members) && TasksOk(P.After(p, st).tasks, votes, c.members)
  {
    match st
    case Count(v) => CountRegionOk(p, v, votes, c);
    case Notarize(h, nota) => NotarizeRegionOk(p, h, nota, votes, c);
    case Finalize(h, from) => FinalizeRegionOk(p, h, from, votes, c);
    case _ => QuietRegionOk(p, st, votes, c);
  }

  lemma CountRegionOk(p: P.Process, v: Vote, votes: set<Vote>, c: Setting)
    requires P.Inv(p, c.faulty) && p.node.group.members == c.members
    requires NodeOk(p.node, votes, c.members) && TasksOk(p.tasks, votes, c.members) && v in votes
    ensures NodeOk(P.After(p, P.Count(v)).node, votes, c.members)
    ensures TasksOk(P.After(p, P.Count(v)).tasks, votes, c.members)
  {
    VoteOk(p.node, v, votes, c.members);
  }

  lemma NotarizeRegionOk(p: P.Process, h: nat, nota: Notarization, votes: set<Vote>, c: Setting)
    requires P.Inv(p, c.faulty) && p.node.group.members == c.members
    requires NodeOk(p.node, votes, c.members) && TasksOk(p.tasks, votes, c.members)
    requires Genuine(votes, c.members, h, nota.block.ID(), nota.votes) && |nota.votes| >= Quorum(c.N())
    ensures NodeOk(P.After(p, P.Notarize(h, nota)).node, votes, c.members)
    ensures TasksOk(P.After(p, P.Notarize(h, nota)).tasks, votes, c.members)
  {
    GenuineCertifies(votes, c.members, h, nota.block.ID(), nota.votes);
    NotarizeOk(p.node, h, nota, votes, c.members);
  }

  lemma FinalizeRegionOk(p: P.Process, h: nat, from: nat, votes: set<Vote>, c: Setting)
    requires NodeOk(p.node, votes, c.members) && TasksOk(p.tasks, votes, c.members)
    ensures NodeOk(P.After(p, P.Finalize(h, from)).node, votes, c.members)
    ensures TasksOk(P.After(p, P.Finalize(h, from)).tasks, votes, c.members)
  {
    FinalizeOk(p.node, h, from);
    SameRecordsOk(p.node, p.node.HandleFinalize(h, from).node, votes, c.members);
  }

  lemma QuietRegionOk(p: P.Process, st: P.Step, votes: set<Vote>, c: Setting)
    requires NodeOk(p.node, votes, c.members) && TasksOk(p.tasks, votes, c.members)
    requires p.node.height - 1 <= |p.node.chain| <= p.node.height
    requires !st.Count? && !st.Notarize? && !st.Finalize? && (st.Run? ==> st.task in p.tasks)
    ensures NodeOk(P.After(p, st).node, votes, c.members) && TasksOk(P.After(p, st).tasks, votes, c.members)
  {
    match st
    case Run(task) => TaskKeepsOk(p, task, votes, c);
    case Start => StartKeepsOk(p, votes, c);
    case Propose(m) => ProposeKeepsOk(p, m, votes, c);
    case TimeOut(h) => TimeOutKeepsOk(p, h, votes, c);
    case _ => SameRecordsOk(p.node, P.After(p, st).node, votes, c.members);
  }

  lemma TimeOutKeepsOk(p: P.Process, h: nat, votes: set<Vote>, c: Setting)
    requires NodeOk(p.node, votes, c.members) && TasksOk(p.tasks, votes, c.members)
    ensures NodeOk(P.After(p, P.TimeOut(h)).node, votes, c.members)
    ensures TasksOk(P.After(p, P.TimeOut(h)).tasks, votes, c.members)
  {
    SameRecordsOk(p.node, p.node.TimeOut(h).node, votes, c.members);
  }

  lemma ProposeKeepsOk(p: P.Process, m: Proposal, votes: set<Vote>, c: Setting)
    requires NodeOk(p.node, votes, c.members) && TasksOk(p.tasks, votes, c.members)
    ensures NodeOk(P.After(p, P.Propose(m)).node, votes, c.members)
    ensures TasksOk(P.After(p, P.Propose(m)).tasks, votes, c.members)
  {
    var r := p.node.HandlePropose(m);
    P.ProposeTouches(p.node, m);
    assert P.After(p, P.Propose(m)).node == r.node;
    SameRecordsOk(p.node, r.node, votes, c.members);
  }

  lemma StartKeepsOk(p: P.Process, votes: set<Vote>, c: Setting)
    requires NodeOk(p.node, votes, c.members) && TasksOk(p.tasks, votes, c.members)
    ensures NodeOk(P.After(p, P.Start).node, votes, c.members)
    ensures TasksOk(P.After(p, P.Start).tasks, votes, c.members)
  {
    var r := p.node.Start();
    assert P.After(p, P.Start).node == r.node && r.tasks == [];
    StartSameRecords(p.node);
    SameRecordsOk(p.node, r.node, votes, c.members);
  }

  lemma TaskKeepsOk(p: P.Process, task: Task, votes: set<Vote>, c: Setting)
    requires NodeOk(p.node, votes, c.members) && TasksOk(p.tasks, votes, c.members)
    requires p.node.height - 1 <= |p.node.chain| <= p.node.height && task in p.tasks
    ensures NodeOk(P.After(p, P.Run(task)).node, votes, c.members)
    ensures TasksOk(P.After(p, P.Run(task)).tasks, votes, c.members)
  {
    var nd, p' := p.node, P.After(p, P.Run(task));
    assert p'.node == nd.RunTask(task).node && nd.RunTask(task).tasks == [];
    assert TaskOk(task, votes, c.members);
    match task
    case Advance(h, nota) => AdvanceOk(nd, h, nota, votes, c.members);
    case SignalTxs(_) => SameRecordsOk(nd, p'.node, votes, c.members);
  }

  /** A correct node sends at most one vote in a lock region, and only a new one if it is not a timeout vote. */
  lemma SentVotesAreNew(p: P.Process, st: P.Step)
    ensures forall v :: v in SentVotes(p, st) ==>
              && v.voter == p.node.id && v.block.Height() == v.height
              && (v.block != TimeoutBlock(v.height) ==>
                    v.height !in p.node.voted && v.height in P.After(p, st).node.voted)
    ensures forall v, w :: v in SentVotes(p, st) && w in SentVotes(p, st) ==> v == w
    ensures p.node.voted <= P.After(p, st).node.voted && P.After(p, st).node.id == p.node.id
  {
    if !st.Propose? {
      VotedStays(p, st);
    }
    match st
    case Propose(m) => ProposalVotes(p, m); P.ProposeTouches(p.node, m);
    case TimeOut(h) => assert forall x :: x in p.node.TimeOut(h).sends ==>
        x == Voted(Vote(h, TimeoutBlock(h), p.node.id));
    case _ =>
  }

  lemma ProposalVotes(p: P.Process, m: Proposal)
    ensures forall x :: x in p.node.HandlePropose(m).sends ==> x == Voted(Vote(m.height, m.block, p.node.id))
    ensures p.node.HandlePropose(m).sends != [] ==>
              m.block.Height() == m.height && m.height !in p.node.voted
                  && m.height in p.node.HandlePropose(m).node.voted
    ensures p.node.voted <= p.node.HandlePropose(m).node.voted
  {
  }

  lemma NodeStepKeepsVotes(s: System, i: nat, st: P.Step, c: Setting)
    requires VotesOk(s, c) && i in s.nodes && s.nodes[i].node.id == i
    ensures VotesOk(After(s, NodeStep(i, st)), c)
  {
    var s' := After(s, NodeStep(i, st));
    SentVotesAreNew(s.nodes[i], st);
    forall v | v in s'.votes && v.voter !in c.faulty
      ensures VoteMarked(s', v)
    {
      if v in s.votes {
        assert VoteMarked(s, v);
      }
    }
    forall v, w | v in s'.votes && w in s'.votes && v.voter == w.voter && v.voter !in c.faulty && v.height == w.height
                  && v.block != TimeoutBlock(v.height) && w.block != TimeoutBlock(w.height)
      ensures v == w
    {
      if v in s.votes {
        assert VoteMarked(s, v);
      }
      if w in s.votes {
        assert VoteMarked(s, w);
      }
    }
  }

  lemma VotesGrow(s: System, i: nat, votes: set<Vote>, c: Setting)
    requires i in s.nodes && ProcessOk(s.nodes[i], i, s.votes, c) && s.votes <= votes
    ensures ProcessOk(s.nodes[i], i, votes, c)
  {
    NodeOkGrows(s.nodes[i].node, s.nodes[i].tasks, s.votes, votes, c.members);
  }

  lemma ForgeKeepsInv(s: System, v: Vote, c: Setting)
    requires Inv(s, c) && Enabled(s, Forge(v), c)
    ensures Inv(After(s, Forge(v)), c)
  {
    var s' := After(s, Forge(v));
    forall i | i in s'.nodes
      ensures ProcessOk(s'.nodes[i], i, s'.votes, c)
    {
      VotesGrow(s, i, s'.votes, c);
    }
    ForgeKeepsVotes(s, v, c);
  }

  lemma ForgeKeepsVotes(s: System, v: Vote, c: Setting)
    requires VotesOk(s, c) && v.voter in c.faulty
    ensures VotesOk(After(s, Forge(v)), c)
  {
    var s' := After(s, Forge(v));
    forall w | w in s'.votes && w.voter !in c.faulty
      ensures VoteMarked(s', w)
    {
      assert VoteMarked(s, w);
    }
  }

  lemma NodeStepKeepsInv(s: System, i: nat, st: P.Step, c: Setting)
    requires Inv(s, c) && c.Valid() && MembersFixed(s, c) && Enabled(s, NodeStep(i, st), c)
    ensures Inv(After(s, NodeStep(i, st)), c)
  {
    var s' := After(s, NodeStep(i, st));
    assert ProcessOk(s.nodes[i], i, s.votes, c);
    forall j | j in s'.nodes
      ensures ProcessOk(s'.nodes[j], j, s'.votes, c)
    {
      if j == i {
        MoverOk(s, i, st, c);
      } else {
        VotesGrow(s, j, s'.votes, c);
      }
    }
    NodeStepKeepsVotes(s, i, st, c);
  }

  lemma NextKeepsInv(s: System, s': System, c: Setting)
    requires Inv(s, c) && c.Valid() && MembersFixed(s, c) && Next(s, s', c)
    ensures Inv(s', c) && s.votes <= s'.votes
  {
    var step :| Enabled(s, step, c) && s' == After(s, step);
    match step
    case Forge(v) => ForgeKeepsInv(s, v, c);
    case NodeStep(i, st) => NodeStepKeepsInv(s, i, st, c);
  }

  lemma {:induction false} RunKeepsInv(trace: seq<System>, c: Setting, j: nat, k: nat)
    requires IsRun(trace, c) && j <= k < |trace|
    ensures Inv(trace[j], c) && Inv(trace[k], c) && trace[j].votes <= trace[k].votes
  {
    if k == 0 {
      InitInv(trace[0], c);
    } else {
      RunKeepsInv(trace, c, if j == k then k - 1 else j, k - 1);
      assert StepOf(trace, k, c) && MembersFixed(trace[k - 1], c);
      NextKeepsInv(trace[k - 1], trace[k], c);
    }
  }

  // ---- Results ---------------------------------------------------------------------------------

  /** Correct members that cast votes for both identifiers at one height. */
  ghost function CastBoth(votes: set<Vote>, c: Setting, h: nat, bid: string, bid': string): set<nat> {
    Signers(votes, c.members, h, bid) * Signers(votes, c.members, h, bid') - c.faulty
  }

  /** Two certificates of one height have at least 2q - n - f correct signers in common. */
  lemma CommonSigners(votes: set<Vote>, c: Setting, h: nat, bid: string, bid': string)
    requires c.Valid() && Certified(votes, c.members, h, bid) && Certified(votes, c.members, h, bid')
    ensures |CastBoth(votes, c, h, bid, bid')| >= 2 * Quorum(c.N()) - c.N() - (c.N() - 1) / 3 >= 1
  {
    QuorumFacts(c.N());
    DistinctCount(c.members);
    var a, b := Signers(votes, c.members, h, bid), Signers(votes, c.members, h, bid');
    var members := Elements(c.members);
    Q.Overlap(a, b, members);
    assert a * b - c.faulty == a * b - members * c.faulty;
    Q.DifferenceSize(a * b, members * c.faulty);
  }

  /** At most one identifier other than the timeout block's is certified at a height. */
  lemma OneBlockPerHeight(s: System, c: Setting, h: nat, bid: string, bid': string)
    requires VotesOk(s, c) && c.Valid()
    requires Certified(s.votes, c.members, h, bid) && Certified(s.votes, c.members, h, bid')
    requires bid != TimeoutID(h) && bid' != TimeoutID(h)
    ensures bid == bid'
  {
    CommonSigners(s.votes, c, h, bid, bid');
    assert CastBoth(s.votes, c, h, bid, bid') != {};
    var m :| m in CastBoth(s.votes, c, h, bid, bid');
    OneVotePerHeight(s, c, m, h, bid, bid');
  }

  lemma OneVotePerHeight(s: System, c: Setting, m: nat, h: nat, bid: string, bid': string)
    requires VotesOk(s, c) && m !in c.faulty && Cast(s.votes, m, h, bid) && Cast(s.votes, m, h, bid')
    requires bid != TimeoutID(h) && bid' != TimeoutID(h)
    ensures bid == bid'
  {
    var v :| v in s.votes && v.voter == m && v.height == h && v.block.ID() == bid;
    var w :| w in s.votes && w.voter == m && w.height == h && w.block.ID() == bid';
    assert v.block != TimeoutBlock(h) && w.block != TimeoutBlock(h);
    assert v == w;
  }

  /**
   * Over any run with at most (n - 1) / 3 faulty members: whatever two correct nodes notarized at a height, at
   * whatever moments, is the same block up to its identifier, unless one of them notarized the timeout block.
   */
  lemma NotarizedBlocksAgree(trace: seq<System>, c: Setting, j: nat, k: nat, a: nat, b: nat, h: nat)
    requires IsRun(trace, c) && j <= k < |trace| && a in trace[j].nodes && b in trace[k].nodes
    requires h in trace[j].nodes[a].node.notarized && h in trace[k].nodes[b].node.notarized
    ensures var x, y := trace[j].nodes[a].node.notarized[h].block.ID(), trace[k].nodes[b].node.notarized[h].block.ID();
            x == y || x == TimeoutID(h) || y == TimeoutID(h)
  {
    RunKeepsInv(trace, c, j, k);
    assert ProcessOk(trace[j].nodes[a], a, trace[j].votes, c) && ProcessOk(trace[k].nodes[b], b, trace[k].votes, c);
    var x, y := trace[j].nodes[a].node.notarized[h].block.ID(), trace[k].nodes[b].node.notarized[h].block.ID();
    CertificatesStay(trace[j].votes, trace[k].votes, c.members, h, x);
    if x != TimeoutID(h) && y != TimeoutID(h) {
      OneBlockPerHeight(trace[k], c, h, x, y);
    }
  }

  /** The same for the chains that correct nodes hold, entry by entry. */
  lemma ChainsAgreeUpToTimeouts(trace: seq<System>, c: Setting, j: nat, k: nat, a: nat, b: nat, i: nat)
    requires IsRun(trace, c) && j <= k < |trace| && a in trace[j].nodes && b in trace[k].nodes
    requires i < |trace[j].nodes[a].node.chain| && i < |trace[k].nodes[b].node.chain|
    ensures trace[j].nodes[a].node.chain[i].Some? && trace[k].nodes[b].node.chain[i].Some?
    ensures var x := trace[j].nodes[a].node.chain[i].value.block.ID();
            var y := trace[k].nodes[b].node.chain[i].value.block.ID();
            x == y || x == TimeoutID(i + 1) || y == TimeoutID(i + 1)
  {
    RunKeepsInv(trace, c, j, k);
    assert ProcessOk(trace[j].nodes[a], a, trace[j].votes, c) && ProcessOk(trace[k].nodes[b], b, trace[k].votes, c);
    var x := trace[j].nodes[a].node.chain[i].value.block.ID();
    var y := trace[k].nodes[b].node.chain[i].value.block.ID();
    CertificatesStay(trace[j].votes, trace[k].votes, c.members, i + 1, x);
    if x != TimeoutID(i + 1) && y != TimeoutID(i + 1) {
      OneBlockPerHeight(trace[k], c, i + 1, x, y);
    }
  }

  /** A dummy and a real block are both certified only if this many correct members voted for both. */
  lemma DummyBesideBlock(trace: seq<System>, c: Setting, k: nat, h: nat, bid: string)
    requires IsRun(trace, c) && k < |trace|
    requires Certified(trace[k].votes, c.members, h, TimeoutID(h)) && Certified(trace[k].votes, c.members, h, bid)
    requires bid != TimeoutID(h)
    ensures |CastBoth(trace[k].votes, c, h, TimeoutID(h), bid)| >= 2 * Quorum(c.N()) - c.N() - (c.N() - 1) / 3
    ensures forall m :: m in CastBoth(trace[k].votes, c, h, TimeoutID(h), bid) ==>
              m in trace[k].nodes && h in trace[k].nodes[m].node.voted
  {
    CommonSigners(trace[k].votes, c, h, TimeoutID(h), bid);
    RunKeepsInv(trace, c, k, k);
    forall m | m in CastBoth(trace[k].votes, c, h, TimeoutID(h), bid)
      ensures m in trace[k].nodes && h in trace[k].nodes[m].node.voted
    {
      CastMarked(trace[k], c, m, h, bid);
    }
  }

  /** A correct member that cast a vote other than a timeout vote has marked the height. */
  lemma CastMarked(s: System, c: Setting, m: nat, h: nat, bid: string)
    requires VotesOk(s, c) && m !in c.faulty && Cast(s.votes, m, h, bid) && bid != TimeoutID(h)
    ensures m in s.nodes && h in s.nodes[m].node.voted
  {
    var v :| v in s.votes && v.voter == m && v.height == h && v.block.ID() == bid;
    assert VoteMarked(s, v);
  }
}
