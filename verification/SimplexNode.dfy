/** The Simplex node, one lock region at a time. */
module SimplexNode {
  import opened Options
  import opened SimplexReconfigTx
  import opened SimplexTypes

  /** What is left to do after a lock region: in the same goroutine, in new ones, and on the network. */
  datatype Task = SignalTxs(txs: seq<string>) | Advance(height: nat, nota: Notarization)

  datatype Spawn = Redeliver(proposal: Proposal) | Recount(vote: Vote) | Reapply(height: nat, nota: Notarization)

  datatype Send =
    | Proposed(proposal: Proposal)
    | Voted(vote: Vote)
    | Finalized(height: nat, node: nat)
    | Chain(chain: seq<Option<Notarization>>)
    | ChainTo(targets: seq<nat>, chain: seq<Option<Notarization>>)

  datatype Result = Result(node: Node, tasks: seq<Task>, spawned: seq<Spawn>, sends: seq<Send>)

  function HasVoter(votes: seq<Vote>, voter: nat): bool {
    exists i :: 0 <= i < |votes| && votes[i].voter == voter
  }

  function Recounts(votes: seq<Vote>): seq<Spawn> {
    seq(|votes|, i requires 0 <= i < |votes| => Recount(votes[i]))
  }

  /** The chain filled up with missing entries to just below height h. */
  function Pad(chain: seq<Option<Notarization>>, h: nat): seq<Option<Notarization>>
    decreases h - |chain|
  {
    if |chain| + 1 < h then Pad(chain + [None], h) else chain
  }

  /** Messages for heights not entered yet. */
  datatype Buffers = Buffers(
    proposals: map<nat, Proposal>,
    votes: map<nat, seq<Vote>>,
    notarizations: map<nat, Notarization>)
  {
    function VotesAt(h: nat): seq<Vote> {
      if h in votes then votes[h] else []
    }

    function KeepProposal(p: Proposal): Buffers {
      if p.height in proposals then this else this.(proposals := proposals[p.height := p])
    }

    function KeepVote(v: Vote): Buffers {
      this.(votes := votes[v.height := VotesAt(v.height) + [v]])
    }

    function KeepNotarization(h: nat, nota: Notarization): Buffers {
      if h in notarizations then this else this.(notarizations := notarizations[h := nota])
    }

    function Release(h: nat): Buffers {
      Buffers(proposals - {h}, votes - {h}, notarizations - {h})
    }

    function Released(h: nat): seq<Spawn> {
      (if h in proposals then [Redeliver(proposals[h])] else [])
      + Recounts(VotesAt(h))
      + (if h in notarizations then [Reapply(h, notarizations[h])] else [])
    }
  }

  datatype Node = Node(
    id: nat,
    hashing: Hashing,
    group: Group,
    height: nat,
    chain: seq<Option<Notarization>>,
    votes: map<nat, map<string, seq<Vote>>>,
    voted: set<nat>,
    finalizes: map<nat, set<nat>>,
    finalized: set<nat>,
    notarized: map<nat, Notarization>,
    timerFired: bool,
    heightN: map<nat, nat>,
    finalizedTxs: map<nat, seq<string>>,
    buffers: Buffers,
    txs: TxState)
  {
    predicate IsMember(i: nat) {
      i in group.members
    }

    function VotesFor(h: nat, bid: string): seq<Vote> {
      if h in votes && bid in votes[h] then votes[h][bid] else []
    }

    function WithVote(v: Vote): Node {
      var bid := v.block.ID();
      var atHeight := if v.height in votes then votes[v.height] else map[];
      this.(votes := votes[v.height := atHeight[bid := VotesFor(v.height, bid) + [v]]])
    }

    function Finalizers(h: nat): set<nat> {
      if h in finalizes then finalizes[h] else {}
    }

    /** The membership size that counts at height h. */
    function SizeAt(h: nat): nat {
      if h in heightN && heightN[h] != 0 then heightN[h] else group.n
    }

    // ---- Entering a height ---------------------------------------------------------------------

    function ProposalAt(h: nat): Proposal {
      Proposal(h, Block(h, ChainHash(hashing, chain), txs.Drain(h).1), id)
    }

    predicate Leads(h: nat) {
      IsMember(id) && LeaderForHeight(hashing, h, group.members) == id
    }

    /** What the leader of a height takes from its pool, and what it sends. */
    function Taken(h: nat): TxState {
      if Leads(h) then txs.Drain(h).0 else txs
    }

    function Proposing(h: nat): seq<Send> {
      if Leads(h) then [Proposed(ProposalAt(h))] else []
    }

    /** The membership size is recorded, so that a later reconfiguration cannot change the quorum of height h. */
    function AtHeight(h: nat): Node {
      this.(height := h, timerFired := false, heightN := heightN[h := group.n], buffers := buffers.Release(h))
    }

    function EnterIteration(h: nat): Result {
      Result(
        this.(txs := Taken(h)).AtHeight(h), [], buffers.Released(h), Proposing(h))
    }

    function Start(): Result {
      if height > 1 then Result(this, [], [], []) else EnterIteration(1)
    }

    /** The backup timer of height h fires. */
    function TimeOut(h: nat): Result {
      if height != h || timerFired then Result(this, [], [], [])
      else Result(this.(timerFired := true), [], [], [Voted(Vote(h, TimeoutBlock(h), id))])
    }

    // ---- Advancing -----------------------------------------------------------------------------

    function Append(h: nat, nota: Notarization): Node {
      if |chain| < h then this.(chain := chain + [Some(nota)]) else this
    }

    /** With the block in the chain and its reconfigurations applied, before the next height is entered. */
    function Entering(h: nat, nota: Notarization): Node {
      Append(h, nota).(group := group.ApplyBlock(nota.block))
    }

    /** The full chain goes to the members that a reconfiguration brings in. */
    function CatchingUp(h: nat, nota: Notarization): seq<Send> {
      var joining := if nota.block.IsDummy() then [] else group.JoiningTxs(nota.block.Txs());
      var joiningCfg := Restrict(Entering(h, nota).group.cfg, Elements(joining));
      if joiningCfg != [] then [ChainTo(joiningCfg, Entering(h, nota).chain)] else []
    }

    function Advance(h: nat, nota: Notarization): Result {
      if height != h then Result(this, [], [], [])
      else
        var r := Entering(h, nota).EnterIteration(h + 1);
        r.(sends := r.sends + [Finalized(h, id), Chain([Some(nota)])] + CatchingUp(h, nota))
    }

    // ---- Finalization --------------------------------------------------------------------------

    predicate CanFinalize(h: nat) {
      h !in finalized && |Finalizers(h)| >= Quorum(SizeAt(h)) && h in notarized
    }

    function TryFinalize(h: nat): (Node, seq<string>) {
      if CanFinalize(h) then Confirm(h, notarized[h].block) else (this, [])
    }

    function Confirm(h: nat, b: Block): (Node, seq<string>) {
      if b.IsDummy() then (this.(finalized := finalized + {h}, txs := txs.Rescue(h)), [])
      else (this.(finalized := finalized + {h}, txs := txs.Settle(h), finalizedTxs := finalizedTxs[h := b.Txs()]),
          b.Txs())
    }

    function Signalling(final: seq<string>): seq<Task> {
      if final == [] then [] else [SignalTxs(final)]
    }

    // ---- Messages ------------------------------------------------------------------------------

    /** A proposal for the current height is voted for once, if it comes from the leader and extends the chain. */
    predicate Votable(p: Proposal) {
      && IsMember(id) && p.height !in voted
      && p.leader == LeaderForHeight(hashing, p.height, group.members)
      && p.block.Height() == p.height && p.block.ParentHash() == ChainHash(hashing, chain)
    }

    function HandlePropose(p: Proposal): Result {
      var h := p.height;
      if h < height then Result(this, [], [], [])
      else if h > height then Result(this.(buffers := buffers.KeepProposal(p)), [], [], [])
      else if !Votable(p) then Result(this, [], [], [])
      else Result(this.(voted := voted + {h}), [], [], [Voted(Vote(h, p.block, id))])
    }

    /** A new certificate: record it, finalize if the quorum is already there, then advance. */
    function Certify(h: nat, nota: Notarization): Result {
      var (nd, final) := this.(notarized := notarized[h := nota]).TryFinalize(h);
      Result(nd, Signalling(final) + [Task.Advance(h, nota)], [], [])
    }

    function HandleVote(v: Vote): Result {
      var h := v.height;
      if h < height then Result(this, [], [], [])
      else if h > height then Result(this.(buffers := buffers.KeepVote(v)), [], [], [])
      else if !IsMember(id) || !IsMember(v.voter) then Result(this, [], [], [])
      else
        var others := VotesFor(h, v.block.ID());
        if HasVoter(others, v.voter) then Result(this, [], [], [])
        else if |others| + 1 >= Quorum(group.n) && h !in notarized then
          WithVote(v).Certify(h, Notarization(v.block, others + [v]))
        else Result(WithVote(v), [], [], [])
    }

    function HandleFinalize(h: nat, from: nat): Result {
      if h in finalized || !IsMember(id) || !IsMember(from) then Result(this, [], [], [])
      else
        var (nd, final) := this.(finalizes := finalizes[h := Finalizers(h) + {from}]).TryFinalize(h);
        Result(nd, Signalling(final), [], [])
    }

    /** One entry of a received chain; `h` is the height of its block. */
    function ApplyNotarization(h: nat, nota: Notarization): Result {
      if h < height then Result(this, [], [], [])
      else if h > height then Result(this.(buffers := buffers.KeepNotarization(h, nota)), [], [], [])
      else
        var padded := Pad(chain, h);
        var nd := this.(chain := if |padded| + 1 == h then padded + [Some(nota)] else padded);
        if h in nd.notarized then Result(nd, [Task.Advance(h, nota)], [], [])
        else nd.Certify(h, nota)
    }

    // ---- Whole handlers ------------------------------------------------------------------------

    function RunTask(task: Task): Result {
      match task
      case SignalTxs(final) => Result(this.(txs := txs.Signal(final)), [], [], [])
      case Advance(h, nota) => Advance(h, nota)
    }
  }

  /** The rest of a handler once its first lock region is done, with nothing in between. */
  function Finish(r: Result): Result
    decreases |r.tasks|
  {
    if r.tasks == [] then r
    else
      var next := r.node.RunTask(r.tasks[0]);
      Finish(Result(next.node, r.tasks[1..], r.spawned + next.spawned, r.sends + next.sends))
  }

  // ---- The node as an object -------------------------------------------------------------------

  class SimplexNode {
    const id: nat
    const hashing: Hashing
    const all: seq<nat>
    var n: nat
    var cfg: seq<nat>
    var members: seq<nat>
    var height: nat
    var chain: seq<Option<Notarization>>
    var votes: map<nat, map<string, seq<Vote>>>
    var voted: set<nat>
    var finalizes: map<nat, set<nat>>
    var finalized: set<nat>
    var notarized: map<nat, Notarization>
    var timerFired: bool
    var heightN: map<nat, nat>
    var finalizedTxs: map<nat, seq<string>>
    var pendingProposals: map<nat, Proposal>
    var pendingVotes: map<nat, seq<Vote>>
    var pendingNotarizations: map<nat, Notarization>
    var txPool: seq<string>
    var proposedTxs: map<nat, seq<string>>
    var pendingTxs: map<string, nat>
    var closed: set<nat>
    var finalizedTxSet: set<string>

    ghost function TheGroup(): Group
      reads this
    {
      Group(all, cfg, members, n)
    }

    ghost function TheTxs(): TxState
      reads this
    {
      TxState(txPool, proposedTxs, pendingTxs, closed, finalizedTxSet)
    }

    ghost function TheBuffers(): Buffers
      reads this
    {
      Buffers(pendingProposals, pendingVotes, pendingNotarizations)
    }

    ghost function Model(): Node
      reads this
    {
      Node(id, hashing, TheGroup(), height, chain, votes, voted, finalizes, finalized, notarized, timerFired, heightN,
           finalizedTxs, TheBuffers(), TheTxs())
    }

    constructor (id: nat, all: seq<nat>, initialMembers: seq<nat>, hashing: Hashing)
      ensures
        var members := Sort(if initialMembers != [] then initialMembers else all);
        Model() == Node(id, hashing, Group(all, all, members, |members|), 1, [], map[], {}, map[], {}, map[], false,
            map[],
                        map[], Buffers(map[], map[], map[]), TxState([], map[], map[], {}, {}))
    {
      this.id, this.hashing, this.all, cfg := id, hashing, all, all;
      members := Sort(if initialMembers != [] then initialMembers else all);
      n := |Sort(if initialMembers != [] then initialMembers else all)|;
      height, chain := 1, [];
      votes, voted, finalizes, finalized, notarized := map[], {}, map[], {}, map[];
      timerFired, heightN, finalizedTxs := false, map[], map[];
      pendingProposals, pendingVotes, pendingNotarizations := map[], map[], map[];
      txPool, proposedTxs, pendingTxs, closed, finalizedTxSet := [], map[], map[], {}, {};
    }

    // ---- Transactions ----

    method AddTx(tx: string)
      modifies `txPool
      ensures TheTxs() == old(TheTxs()).Add(tx)
    {
      txPool := txPool + [tx];
    }

    method RegisterTx(tx: string, channel: nat)
      modifies `pendingTxs
      ensures TheTxs() == old(TheTxs()).Register(tx, channel)
    {
      pendingTxs := pendingTxs[tx := channel];
    }

    method CancelTx(tx: string)
      modifies `pendingTxs
      ensures TheTxs() == old(TheTxs()).Cancel(tx)
    {
      pendingTxs := pendingTxs - {tx};
    }

    method SignalPendingTxs(txs: seq<string>)
      modifies `finalizedTxSet, `closed, `pendingTxs
      ensures TheTxs() == old(TheTxs()).Signal(txs)
    {
      ghost var before := TheTxs();
      for i := 0 to |txs|
        invariant TheTxs() == before.Signal(txs[..i])
      {
        SignalOneMore(before, txs, i);
        finalizedTxSet := finalizedTxSet + {txs[i]};
        if txs[i] in pendingTxs {
          closed := closed + {pendingTxs[txs[i]]};
          pendingTxs := pendingTxs - {txs[i]};
        }
      }
      assert txs[..|txs|] == txs;
    }

    // ---- Membership ----

    method ApplyMembership(newMembers: seq<nat>) returns (newlyAdded: seq<nat>)
      modifies `cfg, `members, `n
      ensures TheGroup() == old(TheGroup()).ApplyMembership(newMembers)
      ensures newlyAdded == old(TheGroup()).Joining(newMembers)
    {
      newlyAdded := [];
      if |newMembers| == 0 {
        return;
      }
      var allowedSet := Elements(all);
      for i := 0 to |newMembers|
        invariant Elements(newMembers[..i]) <= allowedSet
      {
        if newMembers[i] !in allowedSet {
          assert newMembers[i] in newMembers;
          return;
        }
      }
      assert newMembers[..|newMembers|] == newMembers;
      var oldSet := Elements(members);
      for i := 0 to |newMembers|
        invariant newlyAdded == Without(newMembers[..i], oldSet)
      {
        assert newMembers[..i + 1][..i] == newMembers[..i];
        if newMembers[i] !in oldSet {
          newlyAdded := newlyAdded + [newMembers[i]];
        }
      }
      var newSet := Elements(newMembers);
      var remove: seq<nat> := [];
      for i := 0 to |all|
        invariant forall x :: x in remove <==> x in all[..i] && x !in newSet
      {
        if all[i] !in newSet {
          remove := remove + [all[i]];
        }
      }
      assert all[..|all|] == all;
      WithoutTheOthers(all, newSet, Elements(remove));
      cfg := Without(all, Elements(remove));
      members := newMembers;
      n := |newMembers|;
    }

    method ApplyReconfigTxs(txs: seq<string>) returns (newlyAdded: seq<nat>)
      modifies `cfg, `members, `n
      ensures TheGroup() == old(TheGroup()).ApplyTxs(txs)
      ensures newlyAdded == old(TheGroup()).JoiningTxs(txs)
    {
      newlyAdded := [];
      ghost var before := TheGroup();
      for i := 0 to |txs|
        invariant TheGroup() == before.ApplyTxs(txs[..i])
        invariant newlyAdded == before.JoiningTxs(txs[..i])
      {
        assert txs[..i + 1][..i] == txs[..i];
        var parsed := ParseReconfigTx(txs[i]);
        if !parsed.Members? {
          assert Dedup(Without([], Elements(newlyAdded))) == [];
          continue;
        }
        var na := ApplyMembership(parsed.ids);
        newlyAdded := newlyAdded + Dedup(Without(na, Elements(newlyAdded)));
      }
      assert txs[..|txs|] == txs;
    }

    // ---- Iterations ----

    method BuildProposal(h: nat) returns (p: Proposal)
      modifies `txPool, `proposedTxs
      ensures TheTxs() == old(TheTxs()).Drain(h).0
      ensures p == Proposal(h, Block(h, ChainHash(hashing, chain), old(TheTxs()).Drain(h).1), id)
    {
      var allTxs := txPool;
      txPool := [];
      var txs: seq<string> := [];
      for i := 0 to |allTxs|
        invariant txs == Without(allTxs[..i], finalizedTxSet)
      {
        assert allTxs[..i + 1][..i] == allTxs[..i];
        if allTxs[i] !in finalizedTxSet {
          txs := txs + [allTxs[i]];
        }
      }
      assert allTxs[..|allTxs|] == allTxs;
      if |txs| > 0 {
        proposedTxs := proposedTxs[h := txs];
      }
      p := Proposal(h, Block(h, ChainHash(hashing, chain), txs), id);
    }

    method TakeBuffers(h: nat) returns (spawned: seq<Spawn>)
      modifies `pendingProposals, `pendingVotes, `pendingNotarizations
      ensures TheBuffers() == old(TheBuffers()).Release(h)
      ensures spawned == old(TheBuffers()).Released(h)
    {
      spawned := [];
      if h in pendingProposals {
        spawned := spawned + [Redeliver(pendingProposals[h])];
        pendingProposals := pendingProposals - {h};
      }
      if h in pendingVotes {
        spawned := spawned + Recounts(pendingVotes[h]);
        pendingVotes := pendingVotes - {h};
      }
      if h in pendingNotarizations {
        spawned := spawned + [Reapply(h, pendingNotarizations[h])];
        pendingNotarizations := pendingNotarizations - {h};
      }
    }

    method ProcessPending(h: nat) returns (spawned: seq<Spawn>)
      modifies `pendingProposals, `pendingVotes, `pendingNotarizations
      ensures Model() == old(Model()).(buffers := old(TheBuffers()).Release(h))
      ensures spawned == old(TheBuffers()).Released(h)
    {
      spawned := TakeBuffers(h);
    }

    method ProposeIfLeading(h: nat) returns (sends: seq<Send>)
      modifies `txPool, `proposedTxs
      ensures Model() == old(Model()).(txs := old(Model()).Taken(h))
      ensures sends == old(Model()).Proposing(h)
    {
      sends := [];
      if id in members && LeaderForHeight(hashing, h, members) == id {
        var p := BuildProposal(h);
        sends := [Proposed(p)];
      }
    }

    method SetHeight(h: nat)
      modifies `height, `timerFired, `heightN
      ensures Model() == old(Model()).(height := h, timerFired := false, heightN := old(heightN)[h := old(n)])
    {
      height := h;
      timerFired := false;
      heightN := heightN[h := n];
    }

    method EnterIteration(h: nat) returns (spawned: seq<Spawn>, sends: seq<Send>)
      modifies `height, `timerFired, `heightN, `txPool, `proposedTxs
      modifies `pendingProposals, `pendingVotes, `pendingNotarizations
      ensures Model() == old(Model()).EnterIteration(h).node
      ensures spawned == old(Model()).buffers.Released(h) && sends == old(Model()).Proposing(h)
    {
      SetHeight(h);
      sends := ProposeIfLeading(h);
      spawned := ProcessPending(h);
    }

    method Start() returns (spawned: seq<Spawn>, sends: seq<Send>)
      modifies this
      ensures Result(Model(), [], spawned, sends) == old(Model()).Start()
    {
      if height > 1 {
        return [], [];
      }
      spawned, sends := EnterIteration(1);
    }

    method TimeOut(h: nat) returns (sends: seq<Send>)
      modifies this
      ensures Result(Model(), [], [], sends) == old(Model()).TimeOut(h)
    {
      if height != h || timerFired {
        return [];
      }
      timerFired := true;
      return [Voted(Vote(h, TimeoutBlock(h), id))];
    }

    method AppendEntry(h: nat, nota: Notarization)
      modifies `chain
      ensures Model() == old(Model()).Append(h, nota)
    {
      if |chain| < h {
        chain := chain + [Some(nota)];
      }
    }

    method Reconfigure(b: Block) returns (newlyAdded: seq<nat>)
      modifies `cfg, `members, `n
      ensures Model() == old(Model()).(group := old(TheGroup()).ApplyBlock(b))
      ensures newlyAdded == if b.IsDummy() then [] else old(TheGroup()).JoiningTxs(b.Txs())
    {
      newlyAdded := [];
      if !b.IsDummy() {
        newlyAdded := ApplyReconfigTxs(b.Txs());
      }
    }

    method ApplyBlock(h: nat, nota: Notarization) returns (full: seq<Send>)
      modifies `chain, `cfg, `members, `n
      ensures Model() == old(Model()).Entering(h, nota) && full == old(Model()).CatchingUp(h, nota)
    {
      AppendEntry(h, nota);
      var newlyAdded := Reconfigure(nota.block);
      var joiningCfg := Restrict(cfg, Elements(newlyAdded));
      full := if |joiningCfg| > 0 then [ChainTo(joiningCfg, chain)] else [];
    }

    method AdvanceFromHeight(h: nat, nota: Notarization) returns (spawned: seq<Spawn>, sends: seq<Send>)
      modifies this
      ensures Result(Model(), [], spawned, sends) == old(Model()).Advance(h, nota)
    {
      if height != h {
        return [], [];
      }
      var full := ApplyBlock(h, nota);
      spawned, sends := EnterIteration(h + 1);
      sends := sends + [Finalized(h, id), Chain([Some(nota)])] + full;
    }

    // ---- Finalization ----

    method TryFinalize(h: nat) returns (final: seq<string>)
      modifies `finalized, `txPool, `proposedTxs, `finalizedTxs
      ensures (Model(), final) == old(Model()).TryFinalize(h)
    {
      final := [];
      if h in finalized {
        return;
      }
      var finCount := if h in finalizes then |finalizes[h]| else 0;
      var hn := if h in heightN then heightN[h] else 0;
      if hn == 0 {
        hn := n;
      }
      if finCount < Quorum(hn) || h !in notarized {
        return;
      }
      final := Confirm(h, notarized[h].block);
    }

    method RescueTxs(h: nat)
      modifies `txPool, `proposedTxs
      ensures Model() == old(Model()).(txs := old(TheTxs()).Rescue(h))
    {
      if h in proposedTxs {
        txPool := proposedTxs[h] + txPool;
        proposedTxs := proposedTxs - {h};
      }
    }

    method Confirm(h: nat, b: Block) returns (final: seq<string>)
      modifies `finalized, `txPool, `proposedTxs, `finalizedTxs
      ensures (Model(), final) == old(Model()).Confirm(h, b)
    {
      finalized := finalized + {h};
      if b.IsDummy() {
        RescueTxs(h);
        return [];
      }
      proposedTxs := proposedTxs - {h};
      finalizedTxs := finalizedTxs[h := b.Txs()];
      final := b.Txs();
    }

    method Certify(h: nat, nota: Notarization) returns (tasks: seq<Task>)
      modifies `notarized, `finalized, `txPool, `proposedTxs, `finalizedTxs
      ensures Result(Model(), tasks, [], []) == old(Model()).Certify(h, nota)
    {
      notarized := notarized[h := nota];
      var final := TryFinalize(h);
      tasks := (if |final| > 0 then [SignalTxs(final)] else []) + [Task.Advance(h, nota)];
    }

    // ---- Handlers, first lock region ----

    method HandlePropose(p: Proposal) returns (sends: seq<Send>)
      modifies this
      ensures Result(Model(), [], [], sends) == old(Model()).HandlePropose(p)
    {
      var h := p.height;
      if h < height {
        return [];
      }
      if h > height {
        if h !in pendingProposals {
          pendingProposals := pendingProposals[h := p];
        }
        return [];
      }
      if id !in members || h in voted {
        return [];
      }
      if p.leader != LeaderForHeight(hashing, h, members) {
        return [];
      }
      if p.block.Height() != h || p.block.ParentHash() != ChainHash(hashing, chain) {
        return [];
      }
      voted := voted + {h};
      return [Voted(Vote(h, p.block, id))];
    }

    method HasVoted(votes: seq<Vote>, voter: nat) returns (found: bool)
      ensures found == HasVoter(votes, voter)
    {
      for i := 0 to |votes|
        invariant !HasVoter(votes[..i], voter)
      {
        if votes[i].voter == voter {
          return true;
        }
      }
      assert votes[..|votes|] == votes;
      return false;
    }

    method AddVote(v: Vote)
      modifies `votes
      ensures Model() == old(Model()).WithVote(v)
    {
      var bid := v.block.ID();
      var atHeight := if v.height in votes then votes[v.height] else map[];
      var others := if bid in atHeight then atHeight[bid] else [];
      votes := votes[v.height := atHeight[bid := others + [v]]];
    }

    method CountVote(v: Vote) returns (tasks: seq<Task>)
      modifies this
      ensures Result(Model(), tasks, [], []) == old(Model()).HandleVote(v)
    {
      var h := v.height;
      if h < height {
        return [];
      }
      if h > height {
        pendingVotes := pendingVotes[h := (if h in pendingVotes then pendingVotes[h] else []) + [v]];
        return [];
      }
      if id !in members || v.voter !in members {
        return [];
      }
      var bid := v.block.ID();
      var atHeight := if h in votes then votes[h] else map[];
      var others := if bid in atHeight then atHeight[bid] else [];
      var counted := HasVoted(others, v.voter);
      if counted {
        return [];
      }
      AddVote(v);
      if |others| + 1 >= Quorum(n) && h !in notarized {
        tasks := Certify(h, Notarization(v.block, others + [v]));
        return;
      }
      return [];
    }

    method CountFinalize(h: nat, from: nat) returns (tasks: seq<Task>)
      modifies this
      ensures Result(Model(), tasks, [], []) == old(Model()).HandleFinalize(h, from)
    {
      if h in finalized || id !in members || from !in members {
        return [];
      }
      finalizes := finalizes[h := (if h in finalizes then finalizes[h] else {}) + {from}];
      var final := TryFinalize(h);
      return if |final| > 0 then [SignalTxs(final)] else [];
    }

    method RecordNotarization(h: nat, nota: Notarization) returns (tasks: seq<Task>)
      modifies this
      ensures Result(Model(), tasks, [], []) == old(Model()).ApplyNotarization(h, nota)
    {
      if h < height {
        return [];
      }
      if h > height {
        if h !in pendingNotarizations {
          pendingNotarizations := pendingNotarizations[h := nota];
        }
        return [];
      }
      ghost var before := Model();
      while |chain| + 1 < h
        invariant Model() == before.(chain := chain) && Pad(chain, h) == Pad(before.chain, h)
        decreases h - |chain|
      {
        chain := chain + [None];
      }
      if |chain| + 1 == h {
        chain := chain + [Some(nota)];
      }
      if h in notarized {
        return [Task.Advance(h, nota)];
      }
      tasks := Certify(h, nota);
    }

    // ---- Whole handlers ----

    method RunTasks(tasks: seq<Task>) returns (spawned: seq<Spawn>, sends: seq<Send>)
      modifies this
      ensures Result(Model(), [], spawned, sends) == Finish(Result(old(Model()), tasks, [], []))
    {
      spawned, sends := [], [];
      for i := 0 to |tasks|
        invariant Finish(Result(Model(), tasks[i..], spawned, sends)) == Finish(Result(old(Model()), tasks, [], []))
      {
        assert tasks[i..][1..] == tasks[i + 1..];
        var spawned', sends' := RunTask(tasks[i]);
        spawned, sends := spawned + spawned', sends + sends';
      }
      assert tasks[|tasks|..] == [];
    }

    method RunTask(task: Task) returns (spawned: seq<Spawn>, sends: seq<Send>)
      modifies this
      ensures Result(Model(), [], spawned, sends) == old(Model()).RunTask(task)
    {
      spawned, sends := [], [];
      match task {
        case SignalTxs(final) => SignalPendingTxs(final);
        case Advance(h, nota) => spawned, sends := AdvanceFromHeight(h, nota);
      }
    }

    method HandleVote(v: Vote) returns (spawned: seq<Spawn>, sends: seq<Send>)
      modifies this
      ensures Result(Model(), [], spawned, sends) == Finish(old(Model()).HandleVote(v))
    {
      var tasks := CountVote(v);
      spawned, sends := RunTasks(tasks);
    }

    method HandleFinalize(h: nat, from: nat) returns (spawned: seq<Spawn>, sends: seq<Send>)
      modifies this
      ensures Result(Model(), [], spawned, sends) == Finish(old(Model()).HandleFinalize(h, from))
    {
      var tasks := CountFinalize(h, from);
      spawned, sends := RunTasks(tasks);
    }

    method ApplyNotarization(h: nat, nota: Notarization) returns (spawned: seq<Spawn>, sends: seq<Send>)
      modifies this
      ensures Result(Model(), [], spawned, sends) == Finish(old(Model()).ApplyNotarization(h, nota))
    {
      var tasks := RecordNotarization(h, nota);
      spawned, sends := RunTasks(tasks);
    }
  }

  lemma SignalOneMore(t: TxState, txs: seq<string>, i: nat)
    requires i < |txs|
    ensures
      var s := t.Signal(txs[..i]);
      t.Signal(txs[..i + 1]) == s.(
        done := s.done + {txs[i]},
        closed := if txs[i] in s.waiting then s.closed + {s.waiting[txs[i]]} else s.closed,
        waiting := s.waiting - {txs[i]})
  {
    assert txs[..i + 1] == txs[..i] + [txs[i]];
    var s, s' := t.Signal(txs[..i]), t.Signal(txs[..i + 1]);
    assert Elements(txs[..i + 1]) == Elements(txs[..i]) + {txs[i]};
    assert s'.waiting == s.waiting - {txs[i]};
    var mine := if txs[i] in s.waiting then {s.waiting[txs[i]]} else {};
    forall c
      ensures c in s'.closed <==> c in s.closed + mine
    {
      if c in s'.closed && c !in t.closed {
        var tx :| tx in t.waiting && tx in txs[..i + 1] && t.waiting[tx] == c;
        assert tx in txs[..i] || tx == txs[i];
      }
    }
    assert s'.closed == s.closed + mine;
  }

  lemma {:induction false} WithoutTheOthers(xs: seq<nat>, keep: set<nat>, drop: set<nat>)
    requires forall x :: x in xs ==> (x in drop <==> x !in keep)
    ensures Without(xs, drop) == Restrict(xs, keep)
  {
    if xs != [] {
      WithoutTheOthers(xs[..|xs| - 1], keep, drop);
    }
  }
}
