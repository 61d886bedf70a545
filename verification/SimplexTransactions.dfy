/** No transaction is lost, and no caller is released too early. */
module SimplexTransactions {
  import opened Options
  import opened SimplexTypes
  import opened SimplexNode
  import opened SimplexProcess
  import opened SimplexMembership

  // ---- Counting occurrences --------------------------------------------------------------------

  /** Occurrences of a transaction in this node's proposals for heights up to `top`. */
  ghost function ProposedTimes(proposed: map<nat, seq<string>>, top: nat, tx: string): nat {
    if top == 0 then 0
    else ProposedTimes(proposed, top - 1, tx) + if top in proposed then multiset(proposed[top])[tx] else 0
  }

  /** Occurrences in the pool and in proposals. */
  ghost function Held(t: TxState, top: nat, tx: string): nat {
    multiset(t.pool)[tx] + ProposedTimes(t.proposed, top, tx)
  }

  lemma {:induction false} ProposedTimesPut(proposed: map<nat, seq<string>>, h: nat, xs: seq<string>, top: nat,
      tx: string)
    requires h !in proposed && h >= 1
    ensures ProposedTimes(proposed[h := xs], top, tx)
         == ProposedTimes(proposed, top, tx) + if h <= top then multiset(xs)[tx] else 0
  {
    if top > 0 {
      ProposedTimesPut(proposed, h, xs, top - 1, tx);
    }
  }

  lemma {:induction false} ProposedTimesDrop(proposed: map<nat, seq<string>>, h: nat, top: nat, tx: string)
    requires h >= 1
    ensures ProposedTimes(proposed, top, tx)
         == ProposedTimes(proposed - {h}, top, tx) + if h <= top && h in proposed then multiset(proposed[h])[tx] else 0
  {
    if top > 0 {
      ProposedTimesDrop(proposed, h, top - 1, tx);
    }
  }

  lemma AppendedTimes(xs: seq<string>, before: seq<string>, last: string, tx: string)
    requires xs == before + [last]
    ensures multiset(xs)[tx] == multiset(before)[tx] + if tx == last then 1 else 0
  {
  }

  lemma {:induction false} WithoutKeepsOthers(xs: seq<string>, drop: set<string>, tx: string)
    ensures multiset(Without(xs, drop))[tx] == if tx in drop then 0 else multiset(xs)[tx]
  {
    if xs != [] {
      var before, last := xs[..|xs| - 1], xs[|xs| - 1];
      WithoutKeepsOthers(before, drop, tx);
      AppendedTimes(xs, before, last, tx);
      var kept := Without(before, drop);
      if last !in drop {
        AppendedTimes(kept + [last], kept, last, tx);
        assert Without(xs, drop) == kept + [last];
      } else {
        assert Without(xs, drop) == kept;
      }
    }
  }

  ghost predicate KeysWithin(proposed: map<nat, seq<string>>, top: nat) {
    forall h :: h in proposed ==> 1 <= h <= top
  }

  /** Draining the pool into a proposal moves what is not finalized yet. */
  lemma DrainMoves(t: TxState, h: nat, top: nat, tx: string)
    requires KeysWithin(t.proposed, top) && h !in t.proposed && 1 <= h && top <= h <= top + 1
    requires tx !in t.done
    ensures Held(t.Drain(h).0, h, tx) == Held(t, top, tx)
  {
    WithoutKeepsOthers(t.pool, t.done, tx);
    var txs := Without(t.pool, t.done);
    assert ProposedTimes(t.proposed, h, tx) == ProposedTimes(t.proposed, top, tx);
    ProposedTimesPut(t.proposed, h, txs, h, tx);
  }

  /** Rescuing puts a proposal back into the pool. */
  lemma RescueMoves(t: TxState, h: nat, top: nat, tx: string)
    requires KeysWithin(t.proposed, top)
    ensures Held(t.Rescue(h), top, tx) == Held(t, top, tx)
  {
    if h in t.proposed {
      ProposedTimesDrop(t.proposed, h, top, tx);
    }
  }

  /** Settling gives up the proposal of one height and nothing else. */
  lemma SettleGivesUp(t: TxState, h: nat, top: nat, tx: string)
    requires KeysWithin(t.proposed, top) && (h in t.proposed ==> tx !in t.proposed[h])
    ensures Held(t.Settle(h), top, tx) == Held(t, top, tx)
  {
    if h in t.proposed {
      ProposedTimesDrop(t.proposed, h, top, tx);
    } else {
      assert t.proposed - {h} == t.proposed;
    }
  }

  // ---- Invariant -------------------------------------------------------------------------------

  /** A confirmed transaction whose signal is still to run. */
  ghost predicate InFlight(tasks: multiset<Task>, tx: string) {
    exists txs :: SignalTxs(txs) in tasks && tx in txs
  }

  ghost predicate Accounted(p: Process, tx: string) {
    tx in p.node.txs.done || InFlight(p.tasks, tx) || Held(p.node.txs, p.node.height, tx) == p.added[tx]
  }

  /** Proposals wait only for heights that are entered and not finalized. */
  ghost predicate ProposalsOpen(nd: Node) {
    && KeysWithin(nd.txs.proposed, nd.height)
    && (forall h :: h in nd.txs.proposed ==> h !in nd.finalized)
    && (forall h :: h in nd.finalized ==> h in nd.notarized && h <= nd.height)
  }

  ghost predicate NothingLost(p: Process) {
    && ProposalsOpen(p.node)
    && (!p.started ==> 1 !in p.node.txs.proposed)
    && forall tx :: Accounted(p, tx)
  }

  /** A block other than the dummy that is finalized at a height where this node proposed is its own proposal. */
  ghost predicate OwnBlockWins(nd: Node, nd': Node) {
    forall h :: h in nd.txs.proposed && h in nd'.finalized && h !in nd.finalized && h in nd'.notarized
                && !nd'.notarized[h].block.IsDummy()
                ==> nd'.notarized[h].block.Txs() == nd.txs.proposed[h]
  }

  // ---- Finalization ----------------------------------------------------------------------------

  /** What one lock region does to transactions: all stay where they are counted, or are about to be signalled. */
  ghost predicate Conserves(nd: Node, r: Result) {
    && r.node.height == nd.height && r.node.txs.done == nd.txs.done
    && r.node.txs.proposed.Keys <= nd.txs.proposed.Keys
    && forall tx :: (exists txs :: SignalTxs(txs) in r.tasks && tx in txs)
                    || Held(r.node.txs, nd.height, tx) == Held(nd.txs, nd.height, tx)
  }

  lemma TryFinalizeConserves(nd: Node, h: nat)
    requires ProposalsOpen(nd) && (h in nd.notarized ==> h <= nd.height)
    requires nd.CanFinalize(h) && !nd.notarized[h].block.IsDummy() && h in nd.txs.proposed
             ==> nd.notarized[h].block.Txs() == nd.txs.proposed[h]
    ensures var (nd', final) := nd.TryFinalize(h);
            && ProposalsOpen(nd') && nd'.height == nd.height && nd'.txs.done == nd.txs.done
            && nd'.txs.proposed.Keys <= nd.txs.proposed.Keys
            && forall tx :: tx in final || Held(nd'.txs, nd.height, tx) == Held(nd.txs, nd.height, tx)
  {
    var (nd', final) := nd.TryFinalize(h);
    if nd.CanFinalize(h) {
      forall tx
        ensures tx in final || Held(nd'.txs, nd.height, tx) == Held(nd.txs, nd.height, tx)
      {
        if nd.notarized[h].block.IsDummy() {
          RescueMoves(nd.txs, h, nd.height, tx);
        } else if tx !in final {
          SettleGivesUp(nd.txs, h, nd.height, tx);
        }
      }
    }
  }

  lemma SignallingCarries(nd: Node, final: seq<string>, tx: string)
    requires tx in final
    ensures SignalTxs(final) in nd.Signalling(final)
  {
  }

  lemma CertifyConserves(nd: Node, h: nat, nota: Notarization)
    requires ProposalsOpen(nd) && h == nd.height && h !in nd.notarized
    requires OwnBlockWins(nd, nd.Certify(h, nota).node)
    ensures Conserves(nd, nd.Certify(h, nota)) && ProposalsOpen(nd.Certify(h, nota).node)
  {
    var mid := nd.(notarized := nd.notarized[h := nota]);
    var (nd', final) := mid.TryFinalize(h);
    TryFinalizeIsQuiet(mid, h);
    TryFinalizeConserves(mid, h);
    var r := nd.Certify(h, nota);
    forall tx | tx in final
      ensures exists txs :: SignalTxs(txs) in r.tasks && tx in txs
    {
      SignallingCarries(nd, final, tx);
      assert SignalTxs(final) in r.tasks;
    }
  }

  lemma FinalizeConserves(nd: Node, h: nat, from: nat)
    requires ProposalsOpen(nd) && NotarizedOk(nd) && OwnBlockWins(nd, nd.HandleFinalize(h, from).node)
    ensures Conserves(nd, nd.HandleFinalize(h, from)) && ProposalsOpen(nd.HandleFinalize(h, from).node)
  {
    var r := nd.HandleFinalize(h, from);
    var mid := nd.(finalizes := nd.finalizes[h := nd.Finalizers(h) + {from}]);
    if r.node != nd {
      var (nd', final) := mid.TryFinalize(h);
      TryFinalizeIsQuiet(mid, h);
      TryFinalizeConserves(mid, h);
      forall tx | tx in final
        ensures exists txs :: SignalTxs(txs) in r.tasks && tx in txs
      {
        SignallingCarries(mid, final, tx);
        assert SignalTxs(final) in r.tasks;
      }
    }
  }

  lemma SameTxsConserve(nd: Node, r: Result)
    requires r.node.height == nd.height && r.node.txs == nd.txs
    ensures Conserves(nd, r)
  {
  }

  lemma VoteConserves(nd: Node, v: Vote)
    requires ProposalsOpen(nd) && OwnBlockWins(nd, nd.HandleVote(v).node)
    ensures Conserves(nd, nd.HandleVote(v)) && ProposalsOpen(nd.HandleVote(v).node)
  {
    VoteCertifies(nd, v);
    var r := nd.HandleVote(v);
    if r.tasks != [] {
      var nota := Notarization(v.block, nd.VotesFor(v.height, v.block.ID()) + [v]);
      CertifiesOnce(nd, v);
      CertifyConserves(nd.WithVote(v), v.height, nota);
    } else {
      QuietVote(nd, v);
      SameTxsConserve(nd, r);
    }
  }

  lemma CertifiesOnce(nd: Node, v: Vote)
    requires nd.HandleVote(v).tasks != []
    ensures v.height !in nd.notarized && v.height == nd.height
  {
  }

  lemma QuietVote(nd: Node, v: Vote)
    requires nd.HandleVote(v).tasks == []
    ensures var nd' := nd.HandleVote(v).node;
            && nd'.txs == nd.txs && nd'.height == nd.height && nd'.notarized == nd.notarized
            && nd'.finalized == nd.finalized && nd'.finalizedTxs == nd.finalizedTxs
  {
    var nd' := nd.HandleVote(v).node;
    if v.height > nd.height {
      assert nd' == nd.(buffers := nd.buffers.KeepVote(v));
    } else {
      assert nd' == nd || nd' == nd.WithVote(v);
    }
  }

  lemma NotarizeConserves(nd: Node, h: nat, nota: Notarization)
    requires ProposalsOpen(nd) && OwnBlockWins(nd, nd.ApplyNotarization(h, nota).node)
    ensures Conserves(nd, nd.ApplyNotarization(h, nota)) && ProposalsOpen(nd.ApplyNotarization(h, nota).node)
  {
    if h == nd.height && h !in nd.notarized {
      var padded := Pad(nd.chain, h);
      var mid := nd.(chain := if |padded| + 1 == h then padded + [Some(nota)] else padded);
      CertifyConserves(mid, h, nota);
      assert nd.ApplyNotarization(h, nota) == mid.Certify(h, nota);
    } else {
      QuietNotarization(nd, h, nota);
      SameTxsConserve(nd, nd.ApplyNotarization(h, nota));
    }
  }

  /** A notarization that certifies nothing new. */
  lemma QuietNotarization(nd: Node, h: nat, nota: Notarization)
    requires !(h == nd.height && h !in nd.notarized)
    ensures
      var r := nd.ApplyNotarization(h, nota);
      && r.node == nd.(chain := r.node.chain, buffers := r.node.buffers)
      && forall task :: task in r.tasks ==> task.Advance?
  {
  }

  /** A conserving lock region keeps every transaction accounted for. */
  lemma RegionAccounts(p: Process, r: Result)
    requires NothingLost(p) && Conserves(p.node, r) && ProposalsOpen(r.node)
    ensures NothingLost(Region(p, r))
  {
    var p' := Region(p, r);
    forall tx
      ensures Accounted(p', tx)
    {
      assert Accounted(p, tx);
      if InFlight(p.tasks, tx) {
        var txs :| SignalTxs(txs) in p.tasks && tx in txs;
        assert SignalTxs(txs) in p'.tasks;
      } else if exists txs :: SignalTxs(txs) in r.tasks && tx in txs {
        var txs :| SignalTxs(txs) in r.tasks && tx in txs;
        assert SignalTxs(txs) in p'.tasks;
      }
    }
  }

  // ---- Entering a height -----------------------------------------------------------------------

  lemma EnterAccounts(p: Process, nd: Node, h: nat)
    requires NothingLost(p) && nd.txs == p.node.txs && nd.finalized == p.node.finalized
      && nd.notarized == p.node.notarized
    requires 1 <= h && p.node.height <= h <= p.node.height + 1
    requires h !in p.node.txs.proposed && h !in p.node.finalized
    ensures var nd' := nd.EnterIteration(h).node;
            ProposalsOpen(nd') && forall tx :: Accounted(p.(node := nd'), tx)
  {
    var nd' := nd.EnterIteration(h).node;
    assert nd'.txs == nd.Taken(h);
    forall tx
      ensures Accounted(p.(node := nd'), tx)
    {
      assert Accounted(p, tx);
      if tx !in p.node.txs.done {
        if nd.Leads(h) {
          DrainMoves(p.node.txs, h, p.node.height, tx);
        } else {
          assert ProposedTimes(p.node.txs.proposed, h, tx) == ProposedTimes(p.node.txs.proposed, p.node.height, tx);
        }
      }
    }
  }

  lemma StartAccounts(p: Process)
    requires NothingLost(p) && !p.started && p.node.height >= 1
    requires p.node.height == 1 ==> 1 !in p.node.finalized
    ensures NothingLost(After(p, Start))
  {
    var p' := After(p, Start);
    assert p'.tasks == p.tasks;
    if p.node.height == 1 {
      EnterAccounts(p, p.node, 1);
      assert p'.node == p.node.EnterIteration(1).node;
      forall tx
        ensures Accounted(p', tx)
      {
        assert Accounted(p.(node := p'.node), tx);
      }
    } else {
      forall tx
        ensures Accounted(p', tx)
      {
        assert Accounted(p, tx);
      }
    }
  }

  /** Removing an advance from the work to do takes no transaction out of flight. */
  lemma AdvancesCarryNothing(p: Process, task: Task, tx: string)
    requires task.Advance? && Accounted(p, tx)
    ensures Accounted(p.(tasks := p.tasks - multiset{task}), tx)
  {
    if InFlight(p.tasks, tx) {
      var txs :| SignalTxs(txs) in p.tasks && tx in txs;
      assert SignalTxs(txs) in p.tasks - multiset{task};
    }
  }

  lemma AdvanceAccounts(p: Process, task: Task)
    requires NothingLost(p) && p.node.height >= 1 && task.Advance? && task in p.tasks
    ensures NothingLost(After(p, Run(task)))
  {
    var q := p.(tasks := p.tasks - multiset{task});
    forall tx
      ensures Accounted(q, tx)
    {
      assert Accounted(p, tx);
      AdvancesCarryNothing(p, task, tx);
    }
    AdvancedAccounts(q, task);
    var p' := After(p, Run(task));
    assert p'.tasks == q.tasks;
    assert p'.node == q.node.Advance(task.height, task.nota).node;
    forall tx
      ensures Accounted(p', tx)
    {
      assert Accounted(q.(node := p'.node), tx);
    }
  }

  /** Nothing is lost once the node is replaced. */
  ghost predicate AccountedAt(p: Process, nd': Node) {
    && ProposalsOpen(nd') && (!p.started ==> 1 !in nd'.txs.proposed)
    && forall tx :: Accounted(p.(node := nd'), tx)
  }

  lemma AdvancedAccounts(p: Process, task: Task)
    requires NothingLost(p) && p.node.height >= 1 && task.Advance?
    ensures AccountedAt(p, p.node.Advance(task.height, task.nota).node)
  {
    if TakesEffect(p, task) {
      var mid := p.node.Entering(task.height, task.nota);
      AdvanceEnters(p.node, task.height, task.nota);
      EnteredAccounts(p, mid, task.height + 1, mid.EnterIteration(task.height + 1).node);
    } else {
      IdleAccounts(p, p.node.Advance(task.height, task.nota).node);
    }
  }

  lemma IdleAccounts(p: Process, nd': Node)
    requires NothingLost(p) && nd' == p.node
    ensures AccountedAt(p, nd')
  {
    assert p.(node := nd') == p;
  }

  lemma EnteredAccounts(p: Process, nd: Node, h: nat, nd': Node)
    requires NothingLost(p) && h == p.node.height + 1 >= 2 && nd' == nd.EnterIteration(h).node
    requires nd.txs == p.node.txs && nd.finalized == p.node.finalized && nd.notarized == p.node.notarized
    ensures AccountedAt(p, nd')
  {
    EnterAccounts(p, nd, h);
    assert nd.EnterIteration(h).node.txs == nd.Taken(h);
  }

  lemma SignalAccounts(p: Process, task: Task)
    requires NothingLost(p) && task.SignalTxs? && task in p.tasks
    ensures NothingLost(After(p, Run(task)))
  {
    var p' := After(p, Run(task));
    assert p'.tasks == p.tasks - multiset{task};
    assert p'.node == p.node.(txs := p.node.txs.Signal(task.txs));
    forall tx
      ensures Accounted(p', tx)
    {
      assert Accounted(p, tx);
      if InFlight(p.tasks, tx) && tx !in task.txs {
        var txs :| SignalTxs(txs) in p.tasks && tx in txs;
        assert SignalTxs(txs) in p'.tasks;
      }
    }
  }

  // ---- Every step ------------------------------------------------------------------------------

  lemma StepAccounts(p: Process, step: Step, liars: set<nat>)
    requires NothingLost(p) && p.node.height >= 1 && NotarizedOk(p.node) && Enabled(p, step, liars)
    requires OwnBlockWins(p.node, After(p, step).node)
    requires step.Start? && p.node.height == 1 ==> 1 !in p.node.finalized
    ensures NothingLost(After(p, step))
  {
    match step
    case Start => StartAccounts(p);
    case Run(task) => if task.SignalTxs? { SignalAccounts(p, task); } else { AdvanceAccounts(p, task); }
    case Add(_) => CallerAccounts(p, step);
    case Register(_, _) => CallerAccounts(p, step);
    case Cancel(_) => CallerAccounts(p, step);
    case _ => MessageAccounts(p, step);
  }

  lemma MessageAccounts(p: Process, step: Step)
    requires NothingLost(p) && NotarizedOk(p.node) && OwnBlockWins(p.node, After(p, step).node)
    requires step.Count? || step.Finalize? || step.Notarize? || step.Propose? || step.TimeOut?
    ensures NothingLost(After(p, step))
  {
    match step
    case Count(v) => CountAccounts(p, v);
    case Notarize(h, nota) => NotarizeAccounts(p, h, nota);
    case Finalize(h, from) => FinalizeAccounts(p, h, from);
    case Propose(m) => ProposeAccounts(p, m);
    case TimeOut(h) => SameTxsConserve(p.node, p.node.TimeOut(h)); RegionAccounts(p, p.node.TimeOut(h));
  }

  lemma FinalizeAccounts(p: Process, h: nat, from: nat)
    requires NothingLost(p) && NotarizedOk(p.node) && OwnBlockWins(p.node, p.node.HandleFinalize(h, from).node)
    ensures NothingLost(Region(p, p.node.HandleFinalize(h, from)))
  {
    FinalizeConserves(p.node, h, from);
    RegionAccounts(p, p.node.HandleFinalize(h, from));
  }

  lemma ProposeAccounts(p: Process, m: Proposal)
    requires NothingLost(p)
    ensures NothingLost(Region(p, p.node.HandlePropose(m)))
  {
    ProposeTouches(p.node, m);
    TouchedRegionAccounts(p, p.node.HandlePropose(m));
  }

  lemma TouchedRegionAccounts(p: Process, r: Result)
    requires NothingLost(p) && r.tasks == []
    requires r.node == p.node.(voted := r.node.voted, buffers := r.node.buffers)
    ensures NothingLost(Region(p, r))
  {
    SameTxsConserve(p.node, r);
    RegionAccounts(p, r);
  }

  lemma CountAccounts(p: Process, v: Vote)
    requires NothingLost(p) && OwnBlockWins(p.node, p.node.HandleVote(v).node)
    ensures NothingLost(Region(p, p.node.HandleVote(v)))
  {
    VoteConserves(p.node, v);
    RegionAccounts(p, p.node.HandleVote(v));
  }

  lemma NotarizeAccounts(p: Process, h: nat, nota: Notarization)
    requires NothingLost(p) && OwnBlockWins(p.node, p.node.ApplyNotarization(h, nota).node)
    ensures NothingLost(Region(p, p.node.ApplyNotarization(h, nota)))
  {
    NotarizeConserves(p.node, h, nota);
    RegionAccounts(p, p.node.ApplyNotarization(h, nota));
  }

  lemma CallerAccounts(p: Process, step: Step)
    requires NothingLost(p) && (step.Add? || step.Register? || step.Cancel?)
    ensures NothingLost(After(p, step))
  {
    var p' := After(p, step);
    forall tx
      ensures Accounted(p', tx)
    {
      assert Accounted(p, tx);
    }
  }

  /** Start comes before height 1 is finalized, and own blocks win where this node proposed. */
  ghost predicate FairStep(p: Process, p': Process) {
    && OwnBlockWins(p.node, p'.node)
    && (p'.started != p.started && p.node.height == 1 ==> 1 !in p.node.finalized)
  }

  ghost predicate FairAt(trace: seq<Process>, k: nat)
    requires 0 < k < |trace|
  {
    FairStep(trace[k - 1], trace[k])
  }

  ghost predicate IsFairRun(trace: seq<Process>, liars: set<nat>) {
    && IsRun(trace, liars)
    && forall k :: 0 < k < |trace| ==> FairAt(trace, k)
  }

  lemma InitAccounts(p: Process)
    requires Init(p)
    ensures NothingLost(p)
  {
    assert forall tx :: ProposedTimes(p.node.txs.proposed, 1, tx) == 0;
  }

  lemma {:induction false} FairRunLosesNothing(trace: seq<Process>, liars: set<nat>, k: nat)
    requires IsFairRun(trace, liars) && k < |trace|
    ensures NothingLost(trace[k])
  {
    if k == 0 {
      InitAccounts(trace[0]);
    } else {
      FairRunLosesNothing(trace, liars, k - 1);
      RunKeepsInv(trace, liars, k - 1, k - 1);
      FairRunStepAccounts(trace, liars, k);
    }
  }

  lemma FairRunStepAccounts(trace: seq<Process>, liars: set<nat>, k: nat)
    requires IsFairRun(trace, liars) && 0 < k < |trace| && NothingLost(trace[k - 1]) && Inv(trace[k - 1], liars)
    ensures NothingLost(trace[k])
  {
    RunSteps(trace, liars, k);
    assert FairAt(trace, k);
    FairNextAccounts(trace[k - 1], trace[k], liars);
  }

  lemma FairNextAccounts(p: Process, p': Process, liars: set<nat>)
    requires NothingLost(p) && Inv(p, liars) && Next(p, p', liars) && FairStep(p, p')
    ensures NothingLost(p')
  {
    var step :| Enabled(p, step, liars) && p' == After(p, step);
    assert step.Start? ==> p'.started != p.started;
    StepAccounts(p, step, liars);
  }

  /**
   * Under every interleaving of lock regions: each occurrence of a transaction ever added is in the pool or in this
   * node's proposal for an unfinalized height, until the transaction is finalized or its signal is on the way.
   */
  lemma NoTransactionIsLost(trace: seq<Process>, liars: set<nat>, k: nat, tx: string)
    requires IsFairRun(trace, liars) && k < |trace|
    ensures var p := trace[k];
            && (tx !in p.node.txs.done && !InFlight(p.tasks, tx) ==>
                  p.added[tx] == multiset(p.node.txs.pool)[tx] + ProposedTimes(p.node.txs.proposed, p.node.height, tx))
            && forall h :: h in p.node.txs.proposed ==> 1 <= h <= p.node.height && h !in p.node.finalized
  {
    FairRunLosesNothing(trace, liars, k);
    assert Accounted(trace[k], tx);
  }

  /** Why Start must not come late: exactly then its proposal waits for a height that is already finalized. */
  lemma LateStartStrands(p: Process)
    requires NothingLost(p) && !p.started && p.node.height == 1
    ensures var t, fin := After(p, Start).node.txs, After(p, Start).node.finalized;
            (forall h :: h in t.proposed ==> h !in fin)
            <==> !(1 in p.node.finalized && p.node.Leads(1) && Without(p.node.txs.pool, p.node.txs.done) != [])
  {
    var p' := After(p, Start);
    assert p'.node.txs == p.node.Taken(1) && p'.node.finalized == p.node.finalized;
    if p.node.Leads(1) && Without(p.node.txs.pool, p.node.txs.done) != [] {
      assert 1 in p'.node.txs.proposed;
    }
  }

  // ---- Whole handlers --------------------------------------------------------------------------

  lemma {:induction false} RunAllAccounts(p: Process, tasks: seq<Task>, liars: set<nat>)
    requires NothingLost(p) && Inv(p, liars) && multiset(tasks) <= p.tasks
    ensures NothingLost(RunAll(p, tasks))
    ensures RunAll(p, tasks).node.finalized == p.node.finalized && RunAll(p, tasks).node.notarized == p.node.notarized
    decreases |tasks|
  {
    if tasks != [] {
      assert tasks == [tasks[0]] + tasks[1..];
      assert tasks[0] in p.tasks;
      RunTaskKeepsInv(p, tasks[0], liars);
      if tasks[0].SignalTxs? { SignalAccounts(p, tasks[0]); } else { AdvanceAccounts(p, tasks[0]); }
      assert p.tasks - multiset{tasks[0]} <= After(p, Run(tasks[0])).tasks;
      TasksFinalizeNothing(p, tasks[0]);
      RunAllAccounts(After(p, Run(tasks[0])), tasks[1..], liars);
    }
  }

  lemma TasksFinalizeNothing(p: Process, task: Task)
    ensures After(p, Run(task)).node.finalized == p.node.finalized
    ensures After(p, Run(task)).node.notarized == p.node.notarized
  {
    if TakesEffect(p, task) {
      AdvanceEnters(p.node, task.height, task.nota);
      EnterFinalizesNothing(p.node.Entering(task.height, task.nota), task.height + 1);
    } else {
      assert p.node.RunTask(task).node
          == if task.SignalTxs? then p.node.(txs := p.node.txs.Signal(task.txs)) else p.node;
    }
  }

  lemma EnterFinalizesNothing(nd: Node, h: nat)
    ensures nd.EnterIteration(h).node.finalized == nd.finalized && nd.EnterIteration(h).node.notarized == nd.notarized
  {
  }

  lemma {:induction false} TasksOnlyFinalizeNothing(p: Process, tasks: seq<Task>)
    ensures RunAll(p, tasks).node.finalized == p.node.finalized && RunAll(p, tasks).node.notarized == p.node.notarized
    decreases |tasks|
  {
    if tasks != [] {
      TasksFinalizeNothing(p, tasks[0]);
      TasksOnlyFinalizeNothing(After(p, Run(tasks[0])), tasks[1..]);
    }
  }

  lemma HandlerAccounts(p: Process, step: Step, liars: set<nat>, initial: Group)
    requires NothingLost(p) && HandlerInv(p, liars, initial) && FewLiars(p, liars)
    requires !step.Run? && Enabled(p, step, liars) && OwnBlockWins(p.node, Handle(p, step).node)
    ensures NothingLost(Handle(p, step))
  {
    TasksOnlyFinalizeNothing(After(p, step), Leaves(p, step));
    StepAccounts(p, step, liars);
    StepKeepsInv(p, step, liars);
    assert multiset(Leaves(p, step)) <= After(p, step).tasks;
    RunAllAccounts(After(p, step), Leaves(p, step), liars);
  }

  lemma HandlerNextAccounts(p: Process, p': Process, liars: set<nat>, initial: Group)
    requires NothingLost(p) && HandlerInv(p, liars, initial) && FewLiars(p, liars)
    requires HandlerNext(p, p', liars) && OwnBlockWins(p.node, p'.node)
    ensures NothingLost(p')
  {
    var step: Step :| !step.Run? && Enabled(p, step, liars) && p' == Handle(p, step);
    HandlerAccounts(p, step, liars, initial);
  }

  ghost predicate OwnBlockWinsAt(trace: seq<Process>, k: nat)
    requires 0 < k < |trace|
  {
    OwnBlockWins(trace[k - 1].node, trace[k].node)
  }

  /** When handlers do not overlap, Start cannot come late and no signal is ever on the way. */
  lemma {:induction false} HandlersLoseNothing(trace: seq<Process>, liars: set<nat>, k: nat, tx: string)
    requires IsHandlerRun(trace, liars) && k < |trace|
    requires forall j :: 0 < j < |trace| ==> OwnBlockWinsAt(trace, j)
    ensures NothingLost(trace[k])
    ensures var p := trace[k];
            tx in p.node.txs.done
            || p.added[tx] == multiset(p.node.txs.pool)[tx] + ProposedTimes(p.node.txs.proposed, p.node.height, tx)
  {
    if k == 0 {
      InitAccounts(trace[0]);
    } else {
      HandlersLoseNothing(trace, liars, k - 1, tx);
      assert OwnBlockWinsAt(trace, k);
      HandlerRunKeepsInv(trace, liars, k - 1);
      HandlerRunStepAccounts(trace, liars, k, trace[0].node.group);
    }
    HandlerRunKeepsInv(trace, liars, k);
    assert Accounted(trace[k], tx);
  }

  lemma HandlerRunStepAccounts(trace: seq<Process>, liars: set<nat>, k: nat, initial: Group)
    requires IsHandlerRun(trace, liars) && 0 < k < |trace| && HandlerInv(trace[k - 1], liars, initial)
    requires NothingLost(trace[k - 1]) && OwnBlockWins(trace[k - 1].node, trace[k].node)
    ensures NothingLost(trace[k])
  {
    HandlerSteps(trace, liars, k);
    HandlerNextAccounts(trace[k - 1], trace[k], liars, initial);
  }

  // ---- Callers that wait -----------------------------------------------------------------------

  /** In the block of some finalized height. */
  ghost predicate Confirmed(nd: Node, tx: string) {
    exists h :: h in nd.finalized && h in nd.finalizedTxs && tx in nd.finalizedTxs[h]
  }

  ghost predicate WaitersOk(p: Process) {
    && (forall h :: h in p.node.finalizedTxs ==> h in p.node.finalized)
    && (forall tx :: tx in p.node.txs.done ==> Confirmed(p.node, tx))
    && (forall task, tx :: task in p.tasks && task.SignalTxs? && tx in task.txs ==> Confirmed(p.node, tx))
    && (forall tx :: tx in p.node.txs.waiting ==>
          p.node.txs.waiting[tx] in p.registered && p.registered[p.node.txs.waiting[tx]] == tx)
    && (forall c :: c in p.node.txs.closed ==> c in p.registered && p.registered[c] in p.node.txs.done)
  }

  /** A lock region confirms at most one more block and leaves the waiting callers alone. */
  ghost predicate ConfirmsOne(nd: Node, r: Result) {
    && r.node.txs.done == nd.txs.done && r.node.txs.waiting == nd.txs.waiting && r.node.txs.closed == nd.txs.closed
    && ((r.node.finalized == nd.finalized && r.node.finalizedTxs == nd.finalizedTxs
         && forall task :: task in r.tasks ==> !task.SignalTxs?)
        || exists h, txs :: ConfirmsAt(nd, r, h, txs))
  }

  ghost predicate ConfirmsAt(nd: Node, r: Result, h: nat, txs: seq<string>) {
    && h !in nd.finalized && r.node.finalized == nd.finalized + {h}
    && (r.node.finalizedTxs == nd.finalizedTxs[h := txs] || (r.node.finalizedTxs == nd.finalizedTxs && txs == []))
    && forall task :: task in r.tasks && task.SignalTxs? ==> task.txs == txs
  }

  lemma TryFinalizeConfirms(nd: Node, h: nat, rest: seq<Task>)
    requires forall task :: task in rest ==> !task.SignalTxs?
    ensures var (nd', final) := nd.TryFinalize(h);
            ConfirmsOne(nd, Result(nd', nd.Signalling(final) + rest, [], []))
  {
    var (nd', final) := nd.TryFinalize(h);
    var r := Result(nd', nd.Signalling(final) + rest, [], []);
    if nd.CanFinalize(h) {
      ConfirmLeavesWaiters(nd, h, nd.notarized[h].block);
      assert ConfirmsAt(nd, r, h, final);
    } else {
      assert nd' == nd && r.tasks == rest;
    }
  }

  lemma ConfirmLeavesWaiters(nd: Node, h: nat, b: Block)
    ensures
      var (nd', final) := nd.Confirm(h, b);
      && nd'.txs.done == nd.txs.done && nd'.txs.waiting == nd.txs.waiting && nd'.txs.closed == nd.txs.closed
      && nd'.finalized == nd.finalized + {h}
      && (nd'.finalizedTxs == nd.finalizedTxs[h := final] || (nd'.finalizedTxs == nd.finalizedTxs && final == []))
  {
    var (nd', final) := nd.Confirm(h, b);
    if b.IsDummy() {
      assert nd' == nd.(finalized := nd.finalized + {h}, txs := nd.txs.Rescue(h)) && final == [];
    } else {
      assert nd'.txs == nd.txs.Settle(h);
    }
  }

  /** Confirmations stay when finalized heights and their transactions do. */
  lemma ConfirmationsStay(nd: Node, nd': Node)
    requires nd.finalized <= nd'.finalized
    requires forall h :: h in nd.finalizedTxs && h in nd.finalized ==>
               h in nd'.finalizedTxs && nd'.finalizedTxs[h] == nd.finalizedTxs[h]
    ensures forall tx :: Confirmed(nd, tx) ==> Confirmed(nd', tx)
  {
    forall tx | Confirmed(nd, tx)
      ensures Confirmed(nd', tx)
    {
      var h :| h in nd.finalized && h in nd.finalizedTxs && tx in nd.finalizedTxs[h];
      assert h in nd'.finalized && h in nd'.finalizedTxs && tx in nd'.finalizedTxs[h];
    }
  }

  lemma RegionKeepsWaiters(p: Process, r: Result)
    requires WaitersOk(p) && ConfirmsOne(p.node, r)
    ensures WaitersOk(Region(p, r))
  {
    var p' := Region(p, r);
    ConfirmationsStay(p.node, p'.node);
    forall task, tx | task in p'.tasks && task.SignalTxs? && tx in task.txs
      ensures Confirmed(p'.node, tx)
    {
      if task !in p.tasks {
        assert task in r.tasks;
        var h, txs :| ConfirmsAt(p.node, r, h, txs);
        assert h in p'.node.finalized && h in p'.node.finalizedTxs && tx in p'.node.finalizedTxs[h];
      }
    }
  }

  lemma CertifyConfirms(nd: Node, h: nat, nota: Notarization)
    ensures ConfirmsOne(nd, nd.Certify(h, nota))
  {
    var mid := nd.(notarized := nd.notarized[h := nota]);
    TryFinalizeConfirms(mid, h, [Task.Advance(h, nota)]);
    var (nd', final) := mid.TryFinalize(h);
    var r := Result(nd', mid.Signalling(final) + [Task.Advance(h, nota)], [], []);
    assert r == nd.Certify(h, nota);
    if !(r.node.finalized == nd.finalized && r.node.finalizedTxs == nd.finalizedTxs
         && forall task :: task in r.tasks ==> !task.SignalTxs?) {
      var k, txs :| ConfirmsAt(mid, r, k, txs);
      assert ConfirmsAt(nd, r, k, txs);
    }
  }

  /** The same node as far as confirmations and waiting callers go. */
  ghost predicate SameForWaiters(nd: Node, nd': Node) {
    && nd'.finalized == nd.finalized && nd'.finalizedTxs == nd.finalizedTxs && nd'.txs.done == nd.txs.done
    && nd'.txs.waiting == nd.txs.waiting && nd'.txs.closed == nd.txs.closed
  }

  lemma ConfirmsFrom(nd: Node, mid: Node, r: Result)
    requires SameForWaiters(nd, mid) && ConfirmsOne(mid, r)
    ensures ConfirmsOne(nd, r)
  {
    if h, txs :| ConfirmsAt(mid, r, h, txs) {
      assert ConfirmsAt(nd, r, h, txs);
    }
  }

  lemma VoteConfirms(nd: Node, v: Vote)
    ensures ConfirmsOne(nd, nd.HandleVote(v))
  {
    VoteCertifies(nd, v);
    if nd.HandleVote(v).tasks != [] {
      var nota := Notarization(v.block, nd.VotesFor(v.height, v.block.ID()) + [v]);
      CertifyConfirms(nd.WithVote(v), v.height, nota);
      ConfirmsFrom(nd, nd.WithVote(v), nd.HandleVote(v));
    } else {
      QuietVoteConfirmsNothing(nd, v);
    }
  }

  lemma QuietVoteConfirmsNothing(nd: Node, v: Vote)
    requires nd.HandleVote(v).tasks == []
    ensures SameForWaiters(nd, nd.HandleVote(v).node)
  {
    QuietVote(nd, v);
  }

  lemma NotarizeConfirms(nd: Node, h: nat, nota: Notarization)
    ensures ConfirmsOne(nd, nd.ApplyNotarization(h, nota))
  {
    if h == nd.height && h !in nd.notarized {
      var padded := Pad(nd.chain, h);
      var mid := nd.(chain := if |padded| + 1 == h then padded + [Some(nota)] else padded);
      CertifyConfirms(mid, h, nota);
      ConfirmsFrom(nd, mid, mid.Certify(h, nota));
      assert nd.ApplyNotarization(h, nota) == mid.Certify(h, nota);
    } else {
      QuietNotarization(nd, h, nota);
    }
  }

  lemma FinalizeConfirms(nd: Node, h: nat, from: nat)
    ensures ConfirmsOne(nd, nd.HandleFinalize(h, from))
  {
    var r := nd.HandleFinalize(h, from);
    if r.node != nd {
      var mid := nd.(finalizes := nd.finalizes[h := nd.Finalizers(h) + {from}]);
      var (nd', final) := mid.TryFinalize(h);
      TryFinalizeConfirms(mid, h, []);
      assert mid.Signalling(final) + [] == mid.Signalling(final);
      assert r == Result(nd', mid.Signalling(final) + [], [], []);
      ConfirmsFrom(nd, mid, r);
    }
  }

  /** A step that confirms nothing, signals nothing and adds no signal. */
  lemma QuietForWaiters(p: Process, p': Process)
    requires WaitersOk(p) && SameForWaiters(p.node, p'.node) && p'.registered == p.registered
    requires forall task :: task in p'.tasks && task.SignalTxs? ==> task in p.tasks
    ensures WaitersOk(p')
  {
    ConfirmationsStay(p.node, p'.node);
  }

  lemma SignalKeepsWaiters(p: Process, txs: seq<string>)
    requires WaitersOk(p) && SignalTxs(txs) in p.tasks
    ensures WaitersOk(After(p, Run(SignalTxs(txs))))
  {
    var p' := After(p, Run(SignalTxs(txs)));
    assert p'.node == p.node.(txs := p.node.txs.Signal(txs));
    assert forall task :: task in p'.tasks ==> task in p.tasks;
    ConfirmationsStay(p.node, p'.node);
  }

  lemma RegisterKeepsWaiters(p: Process, tx: string, channel: nat)
    requires WaitersOk(p) && channel !in p.registered
    ensures WaitersOk(After(p, Register(tx, channel)))
  {
    var p' := After(p, Register(tx, channel));
    ConfirmationsStay(p.node, p'.node);
  }

  lemma CancelKeepsWaiters(p: Process, tx: string)
    requires WaitersOk(p)
    ensures WaitersOk(After(p, Cancel(tx)))
  {
    var p' := After(p, Cancel(tx));
    ConfirmationsStay(p.node, p'.node);
  }

  lemma AdvanceSameForWaiters(nd: Node, h: nat, nota: Notarization)
    ensures SameForWaiters(nd, nd.Advance(h, nota).node)
  {
    if h == nd.height {
      AdvanceEnters(nd, h, nota);
      EnterSameForWaiters(nd.Entering(h, nota), h + 1);
    }
  }

  lemma EnterSameForWaiters(nd: Node, h: nat)
    ensures SameForWaiters(nd, nd.EnterIteration(h).node)
  {
  }

  lemma StartSameForWaiters(nd: Node)
    ensures SameForWaiters(nd, nd.Start().node)
  {
    EnterSameForWaiters(nd, 1);
  }

  lemma ProposeSameForWaiters(nd: Node, m: Proposal)
    ensures SameForWaiters(nd, nd.HandlePropose(m).node)
  {
    ProposeTouches(nd, m);
  }

  lemma StepKeepsWaiters(p: Process, step: Step, liars: set<nat>)
    requires WaitersOk(p) && Enabled(p, step, liars)
    ensures WaitersOk(After(p, step))
  {
    match step
    case Count(v) => VoteConfirms(p.node, v); RegionKeepsWaiters(p, p.node.HandleVote(v));
    case Finalize(h, from) => FinalizeConfirms(p.node, h, from); RegionKeepsWaiters(p, p.node.HandleFinalize(h, from));
    case Notarize(h, nota) =>
      NotarizeConfirms(p.node, h, nota);
      RegionKeepsWaiters(p, p.node.ApplyNotarization(h, nota));
    case Register(tx, channel) => RegisterKeepsWaiters(p, tx, channel);
    case Cancel(tx) => CancelKeepsWaiters(p, tx);
    case _ => OtherStepKeepsWaiters(p, step);
  }

  lemma AdvanceKeepsWaiters(p: Process, h: nat, nota: Notarization)
    requires WaitersOk(p)
    ensures WaitersOk(After(p, Run(Task.Advance(h, nota))))
  {
    AdvanceSameForWaiters(p.node, h, nota);
    QuietForWaiters(p, After(p, Run(Task.Advance(h, nota))));
  }

  lemma StartKeepsWaiters(p: Process)
    requires WaitersOk(p)
    ensures WaitersOk(After(p, Start))
  {
    StartSameForWaiters(p.node);
    QuietForWaiters(p, After(p, Start));
  }

  lemma ProposeKeepsWaiters(p: Process, m: Proposal)
    requires WaitersOk(p)
    ensures WaitersOk(After(p, Step.Propose(m)))
  {
    ProposeSameForWaiters(p.node, m);
    QuietForWaiters(p, After(p, Step.Propose(m)));
  }

  lemma OtherStepKeepsWaiters(p: Process, step: Step)
    requires WaitersOk(p) && (step.Run? ==> step.task in p.tasks)
    requires step.Start? || step.Run? || step.Propose? || step.TimeOut? || step.Add?
    ensures WaitersOk(After(p, step))
  {
    match step
    case Run(task) =>
      match task {
        case SignalTxs(txs) => SignalKeepsWaiters(p, txs);
        case Advance(h, nota) => AdvanceKeepsWaiters(p, h, nota);
      }
    case Start => StartKeepsWaiters(p);
    case Propose(m) => ProposeKeepsWaiters(p, m);
    case _ => QuietForWaiters(p, After(p, step));
  }

  /** A channel is closed only once the transaction registered with it is in the block of a finalized height. */
  lemma {:induction false} ReleasedMeansFinalized(trace: seq<Process>, liars: set<nat>, k: nat)
    requires IsRun(trace, liars) && k < |trace|
    ensures WaitersOk(trace[k])
    ensures var p := trace[k];
            forall c :: c in p.node.txs.closed ==> c in p.registered && Confirmed(p.node, p.registered[c])
  {
    if k > 0 {
      ReleasedMeansFinalized(trace, liars, k - 1);
      RunStepKeepsWaiters(trace, liars, k);
    }
  }

  lemma RunStepKeepsWaiters(trace: seq<Process>, liars: set<nat>, k: nat)
    requires IsRun(trace, liars) && 0 < k < |trace| && WaitersOk(trace[k - 1])
    ensures WaitersOk(trace[k])
  {
    RunSteps(trace, liars, k);
    NextKeepsWaiters(trace[k - 1], trace[k], liars);
  }

  lemma NextKeepsWaiters(p: Process, p': Process, liars: set<nat>)
    requires WaitersOk(p) && Next(p, p', liars)
    ensures WaitersOk(p')
  {
    var step :| Enabled(p, step, liars) && p' == After(p, step);
    StepKeepsWaiters(p, step, liars);
  }
}
