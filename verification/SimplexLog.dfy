/** The finalized log of a Simplex node, and who is told about it. */
module SimplexLog {
  import opened Options
  import opened SimplexTypes
  import opened SimplexNode
  import opened SimplexProcess
  import opened SimplexMembership
  import T = SimplexTransactions
  import C = SimplexCertifying

  // ---- What belongs into the log ---------------------------------------------------------------

  /** The block of a time-out: a height of its own, and no parent. */
  predicate TimedOut(b: Block) {
    b.Block? && b.number > 0 && b.parent == ""
  }

  function ContentOf(b: Block): seq<string> {
    if b.Block? then b.content else []
  }

  /** The log holds the content of exactly the finalized blocks that are no timeout blocks. */
  ghost predicate LogIsFinal(nd: Node) {
    && (forall h :: h in nd.finalized ==> h in nd.notarized)
    && (forall h :: h in nd.finalizedTxs <==> h in nd.finalized && !TimedOut(nd.notarized[h].block))
    && (forall h :: h in nd.finalizedTxs ==> nd.finalizedTxs[h] == ContentOf(nd.notarized[h].block))
  }

  ghost predicate InLog(nd: Node, tx: string) {
    exists h :: h in nd.finalizedTxs && tx in nd.finalizedTxs[h]
  }

  /** A signal that was given, or one that is still to run. */
  ghost predicate Told(done: set<string>, tasks: multiset<Task>, tx: string) {
    tx in done || T.InFlight(tasks, tx)
  }

  ghost predicate LogIsTold(p: Process) {
    forall tx :: InLog(p.node, tx) <==> Told(p.node.txs.done, p.tasks, tx)
  }

  // ---- Finalizing one height -------------------------------------------------------------------

  /** What finalizing may do: nothing, or adding height h with its block. */
  ghost predicate Finalizes(nd: Node, nd': Node, final: seq<string>, h: nat) {
    && nd'.notarized == nd.notarized && nd'.txs.done == nd.txs.done
    && if h in nd'.finalized && h !in nd.finalized then
         && nd'.finalized == nd.finalized + {h} && h in nd.notarized
         && (if TimedOut(nd.notarized[h].block) then nd'.finalizedTxs == nd.finalizedTxs && final == []
             else nd'.finalizedTxs == nd.finalizedTxs[h := final] && final == ContentOf(nd.notarized[h].block))
       else nd'.finalized == nd.finalized && nd'.finalizedTxs == nd.finalizedTxs && final == []
  }

  lemma TryFinalizes(nd: Node, h: nat)
    ensures Finalizes(nd, nd.TryFinalize(h).0, nd.TryFinalize(h).1, h)
  {
    if nd.CanFinalize(h) {
      var b := nd.notarized[h].block;
      if b.IsDummy() {
        assert nd.Confirm(h, b).0 == nd.(finalized := nd.finalized + {h}, txs := nd.txs.Rescue(h));
      } else {
        assert nd.Confirm(h, b).0.txs == nd.txs.Settle(h);
      }
    }
  }

  lemma FinalizesKeepsLog(nd: Node, nd': Node, final: seq<string>, h: nat)
    requires LogIsFinal(nd) && Finalizes(nd, nd', final, h)
    ensures LogIsFinal(nd')
    ensures forall tx :: InLog(nd', tx) <==> InLog(nd, tx) || tx in final
  {
    forall tx
      ensures InLog(nd', tx) <==> InLog(nd, tx) || tx in final
    {
      if tx in final {
        assert h in nd'.finalizedTxs && tx in nd'.finalizedTxs[h];
      }
      if InLog(nd, tx) {
        var k :| k in nd.finalizedTxs && tx in nd.finalizedTxs[k];
        assert k in nd'.finalizedTxs && tx in nd'.finalizedTxs[k];
      }
    }
  }

  // ---- A lock region ---------------------------------------------------------------------------

  lemma SignalsOf(nd: Node, final: seq<string>, rest: seq<Task>, tx: string)
    requires forall task :: task in rest ==> !task.SignalTxs?
    ensures (exists txs :: SignalTxs(txs) in nd.Signalling(final) + rest && tx in txs) <==> tx in final
  {
    if tx in final {
      assert nd.Signalling(final)[0] == SignalTxs(final);
      assert SignalTxs(final) in nd.Signalling(final) + rest;
    }
  }

  /** The region's tasks signal exactly `final`. */
  ghost predicate SignalsExactly(tasks: seq<Task>, final: seq<string>) {
    forall tx :: (exists txs :: SignalTxs(txs) in tasks && tx in txs) <==> tx in final
  }

  lemma ToldAfterwards(p: Process, r: Result, final: seq<string>, tx: string)
    requires SignalsExactly(r.tasks, final) && r.node.txs.done == p.node.txs.done
    ensures Told(Region(p, r).node.txs.done, Region(p, r).tasks, tx) <==>
              Told(p.node.txs.done, p.tasks, tx) || tx in final
  {
    var tasks := p.tasks + multiset(r.tasks);
    if T.InFlight(p.tasks, tx) {
      var txs :| SignalTxs(txs) in p.tasks && tx in txs;
      assert SignalTxs(txs) in tasks;
    }
    if tx in final {
      var txs :| SignalTxs(txs) in r.tasks && tx in txs;
      assert SignalTxs(txs) in tasks;
    }
    if T.InFlight(tasks, tx) {
      var txs :| SignalTxs(txs) in tasks && tx in txs;
      assert SignalTxs(txs) in p.tasks || SignalTxs(txs) in r.tasks;
    }
  }

  ghost predicate LogOk(p: Process) {
    LogIsFinal(p.node) && LogIsTold(p)
  }

  /** A part of a region that at most records certificates where there were none. */
  ghost predicate Records(nd: Node, mid: Node) {
    && mid.finalized == nd.finalized && mid.finalizedTxs == nd.finalizedTxs && mid.txs.done == nd.txs.done
    && forall k :: k in nd.notarized ==> k in mid.notarized && mid.notarized[k] == nd.notarized[k]
  }

  lemma RegionKeepsLog(p: Process, mid: Node, r: Result, final: seq<string>, h: nat)
    requires LogOk(p) && Records(p.node, mid) && Finalizes(mid, r.node, final, h) && SignalsExactly(r.tasks, final)
    ensures LogOk(Region(p, r))
  {
    assert LogIsFinal(mid);
    FinalizesKeepsLog(mid, r.node, final, h);
    forall tx
      ensures InLog(r.node, tx) <==> Told(Region(p, r).node.txs.done, Region(p, r).tasks, tx)
    {
      assert InLog(mid, tx) <==> InLog(p.node, tx);
      ToldAfterwards(p, r, final, tx);
    }
  }

  lemma CertifyKeepsLog(p: Process, nd: Node, h: nat, nota: Notarization)
    requires LogOk(p) && h !in nd.notarized && nd.notarized == p.node.notarized && nd.finalized == p.node.finalized
    requires nd.finalizedTxs == p.node.finalizedTxs && nd.txs == p.node.txs
    ensures LogOk(Region(p, nd.Certify(h, nota)))
  {
    var mid := nd.(notarized := nd.notarized[h := nota]);
    TryFinalizes(mid, h);
    var (nd', final) := mid.TryFinalize(h);
    forall tx
      ensures (exists txs :: SignalTxs(txs) in nd.Certify(h, nota).tasks && tx in txs) <==> tx in final
    {
      SignalsOf(nd, final, [Task.Advance(h, nota)], tx);
    }
    RegionKeepsLog(p, mid, nd.Certify(h, nota), final, h);
  }

  /** A region that changes nothing of all this. */
  lemma QuietKeepsLog(p: Process, p': Process)
    requires LogOk(p) && p'.node.finalized == p.node.finalized && p'.node.finalizedTxs == p.node.finalizedTxs
    requires p'.node.notarized == p.node.notarized && p'.node.txs.done == p.node.txs.done
    requires forall task: Task :: task.SignalTxs? ==> (task in p'.tasks <==> task in p.tasks)
    ensures LogOk(p')
  {
    forall tx
      ensures InLog(p'.node, tx) <==> Told(p'.node.txs.done, p'.tasks, tx)
    {
      assert InLog(p'.node, tx) <==> InLog(p.node, tx);
      assert T.InFlight(p'.tasks, tx) <==> T.InFlight(p.tasks, tx);
    }
  }

  // ---- The steps -------------------------------------------------------------------------------

  lemma VoteKeepsLog(p: Process, v: Vote)
    requires LogOk(p)
    ensures LogOk(After(p, Count(v)))
  {
    var nd, r := p.node, p.node.HandleVote(v);
    VoteCertifies(nd, v);
    if r.tasks != [] {
      T.CertifiesOnce(nd, v);
      CertifyKeepsLog(p, nd.WithVote(v), v.height, Notarization(v.block, nd.VotesFor(v.height, v.block.ID()) + [v]));
    } else {
      T.QuietVote(nd, v);
      QuietKeepsLog(p, Region(p, r));
    }
  }

  lemma TimelyCertifies(nd: Node, h: nat, nota: Notarization, mid: Node)
    requires h == nd.height && h !in nd.notarized
    requires var padded := Pad(nd.chain, h);
             mid == nd.(chain := if |padded| + 1 == h then padded + [Some(nota)] else padded)
    ensures nd.ApplyNotarization(h, nota) == mid.Certify(h, nota)
  {
  }

  lemma NotarizationKeepsLog(p: Process, h: nat, nota: Notarization)
    requires LogOk(p)
    ensures LogOk(After(p, Notarize(h, nota)))
  {
    var nd, r := p.node, p.node.ApplyNotarization(h, nota);
    if h == nd.height && h !in nd.notarized {
      var padded := Pad(nd.chain, h);
      var mid := nd.(chain := if |padded| + 1 == h then padded + [Some(nota)] else padded);
      TimelyCertifies(nd, h, nota, mid);
      CertifyKeepsLog(p, mid, h, nota);
    } else {
      T.QuietNotarization(nd, h, nota);
      QuietKeepsLog(p, Region(p, r));
    }
  }

  lemma FinalizeKeepsLog(p: Process, h: nat, from: nat)
    requires LogOk(p)
    ensures LogOk(After(p, Finalize(h, from)))
  {
    var nd, r := p.node, p.node.HandleFinalize(h, from);
    if r == Result(nd, [], [], []) {
      QuietKeepsLog(p, Region(p, r));
    } else {
      var mid := nd.(finalizes := nd.finalizes[h := nd.Finalizers(h) + {from}]);
      TryFinalizes(mid, h);
      var final := mid.TryFinalize(h).1;
      assert nd.Signalling(final) + [] == nd.Signalling(final);
      forall tx
        ensures (exists txs :: SignalTxs(txs) in r.tasks && tx in txs) <==> tx in final
      {
        SignalsOf(nd, final, [], tx);
      }
      RegionKeepsLog(p, mid, r, final, h);
    }
  }

  /** A signal that runs is given instead of being on its way. */
  lemma SignalKeepsLog(p: Process, final: seq<string>)
    requires LogOk(p) && SignalTxs(final) in p.tasks
    ensures LogOk(After(p, Run(SignalTxs(final))))
  {
    var p' := After(p, Run(SignalTxs(final)));
    assert p'.node == p.node.(txs := p.node.txs.Signal(final));
    assert p'.tasks == p.tasks - multiset{SignalTxs(final)};
    forall tx
      ensures InLog(p'.node, tx) <==> Told(p'.node.txs.done, p'.tasks, tx)
    {
      assert InLog(p'.node, tx) <==> InLog(p.node, tx);
      if T.InFlight(p.tasks, tx) {
        var txs :| SignalTxs(txs) in p.tasks && tx in txs;
        assert txs == final || SignalTxs(txs) in p'.tasks;
      }
      if tx in final {
        assert T.InFlight(p.tasks, tx);
      }
    }
  }

  lemma AdvanceKeepsLog(p: Process, h: nat, nota: Notarization)
    requires LogOk(p)
    ensures LogOk(After(p, Run(Task.Advance(h, nota))))
  {
    T.AdvanceSameForWaiters(p.node, h, nota);
    C.AdvanceKeepsVotes(p.node, h, nota);
    QuietKeepsLog(p, After(p, Run(Task.Advance(h, nota))));
  }

  lemma StartKeepsLog(p: Process)
    requires LogOk(p)
    ensures LogOk(After(p, Start))
  {
    T.StartSameForWaiters(p.node);
    C.StartKeepsVotes(p);
    QuietKeepsLog(p, After(p, Start));
  }

  lemma LocalStepKeepsLog(p: Process, step: Step)
    requires LogOk(p)
    requires step.TimeOut? || step.Propose? || step.Add? || step.Register? || step.Cancel?
    ensures LogOk(After(p, step))
  {
    C.LocalStepKeepsVotes(p, step);
    LocalStepIsQuietForLog(p, step);
    QuietKeepsLog(p, After(p, step));
  }

  lemma LocalStepIsQuietForLog(p: Process, step: Step)
    requires step.TimeOut? || step.Propose? || step.Add? || step.Register? || step.Cancel?
    ensures
      var p' := After(p, step);
      && p'.node.finalized == p.node.finalized && p'.node.finalizedTxs == p.node.finalizedTxs
      && p'.node.txs.done == p.node.txs.done && p'.tasks == p.tasks
  {
    match step
    case TimeOut(h) => assert After(p, step).node == p.node.(timerFired := p.node.TimeOut(h).node.timerFired);
    case Propose(m) => ProposeTouches(p.node, m);
    case Add(tx) => assert After(p, step).node == p.node.(txs := p.node.txs.Add(tx));
    case Register(tx, channel) => assert After(p, step).node == p.node.(txs := p.node.txs.Register(tx, channel));
    case Cancel(tx) => assert After(p, step).node == p.node.(txs := p.node.txs.Cancel(tx));
  }

  lemma StepKeepsLog(p: Process, step: Step, liars: set<nat>)
    requires LogOk(p) && Enabled(p, step, liars)
    ensures LogOk(After(p, step))
  {
    match step
    case Count(v) => VoteKeepsLog(p, v);
    case Notarize(h, nota) => NotarizationKeepsLog(p, h, nota);
    case Finalize(h, from) => FinalizeKeepsLog(p, h, from);
    case Start => StartKeepsLog(p);
    case Run(task) =>
      match task {
        case SignalTxs(final) => SignalKeepsLog(p, final);
        case Advance(h, nota) => AdvanceKeepsLog(p, h, nota);
      }
    case _ => LocalStepKeepsLog(p, step);
  }

  // ---- Over every run --------------------------------------------------------------------------

  /**
   * Under every interleaving: the log has an entry for exactly the finalized heights whose block is no timeout block,
   * and it is that block's content. A transaction is in it if and only if its signal was given or is on its way, so
   * that no finalized transaction goes without a signal and none is signalled without.
   */
  lemma {:induction false} LogIsExact(trace: seq<Process>, liars: set<nat>, k: nat)
    requires IsRun(trace, liars) && k < |trace|
    ensures LogIsFinal(trace[k].node) && LogIsTold(trace[k])
  {
    if k > 0 {
      LogIsExact(trace, liars, k - 1);
      RunStepKeepsLog(trace, liars, k);
    }
  }

  lemma RunStepKeepsLog(trace: seq<Process>, liars: set<nat>, k: nat)
    requires IsRun(trace, liars) && 0 < k < |trace| && LogOk(trace[k - 1])
    ensures LogOk(trace[k])
  {
    RunSteps(trace, liars, k);
    NextKeepsLog(trace[k - 1], trace[k], liars);
  }

  lemma NextKeepsLog(p: Process, p': Process, liars: set<nat>)
    requires LogOk(p) && Next(p, p', liars)
    ensures LogOk(p')
  {
    var step :| Enabled(p, step, liars) && p' == After(p, step);
    StepKeepsLog(p, step, liars);
  }
}
