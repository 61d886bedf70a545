/** Execution in turn, and the checkpoint votes that go with it: none too many, and none missing. */
module PbftExecution {
  import opened PbftMessages
  import opened PbftLog
  import opened PbftDelivery
  import opened PbftNewView
  import opened PbftReplica
  import opened PbftSystem
  import opened PbftAgreement
  import opened PbftSkipping
  import opened Quorum

  /** Numbers at which a replica votes for a checkpoint. */
  predicate Marked(num: nat) {
    num > 0 && num % 10000 == 0
  }

  /** The number whose turn it is: the one after the last, or the first beyond what became stable elsewhere. */
  function Turn(r: ReplicaState): nat {
    if r.buffer.next <= r.log.low then r.log.low + 1 else r.buffer.next
  }

  /** Replica i's vote for the number is in its tally, or the tally is settled, or a later checkpoint replaced it. */
  ghost predicate VoteCounted(l: Log, num: nat, i: nat) {
    i in l.TallyAt(num).voters || l.TallyAt(num).stable || num < l.lastStable
  }

  /** The entry waiting for its turn is executed, and nothing else is; at a marked number that is voted on. */
  ghost predicate ExecutesTurn(r: ReplicaState, o: Outcome) {
    var num := Turn(r);
    && o.decided.None?
    && if num in r.buffer.pending then
         && o.state.executed == r.executed + [r.buffer.pending[num]] && o.state.buffer.next == num + 1
         && o.sent == (if Marked(num) then [Checkpoint(r.id, num, OfState(num))] else [])
         && (if Marked(num) then VoteCounted(o.state.log, num, r.id) else o.state.log == r.log)
       else
         o.state.executed == r.executed && o.state.buffer.next == num && o.sent == [] && o.state.log == r.log
  }

  /** Nothing waiting is dropped but what was executed or skipped. */
  ghost predicate KeepsWaiting(r: ReplicaState, o: Outcome) {
    forall s :: s in o.state.buffer.pending <==>
      s in r.buffer.pending && s != Turn(r) && (r.buffer.next <= r.log.low ==> s > r.log.low)
  }

  /** One round of the delivery loop. */
  lemma TurnIsExact(r: ReplicaState)
    requires r.n > 0 && DeliveryOk(r)
    ensures ExecutesTurn(r, r.DeliverNext()) && KeepsWaiting(r, r.DeliverNext())
  {
    var b, num := r.buffer.SkipTo(r.log.low), Turn(r);
    assert b.next == num && (num in b.pending <==> num in r.buffer.pending);
    if num in b.pending {
      assert b.pending[num] == r.buffer.pending[num] && b.pending[num].num == num;
      OwnVoteCounts(r.log, Checkpoint(r.id, num, OfState(num)), r.F());
    }
  }

  lemma OwnVoteCounts(l: Log, m: Message, f: nat)
    requires m.Checkpoint?
    ensures VoteCounted(l.RecordCheckpoint(m, f).0, m.num, m.from)
  {
  }

  // ---- Over a whole run ------------------------------------------------------------------------

  /** Every correct replica has voted on every marked number it executed. */
  ghost predicate AllVoted(s: System) {
    forall i, num :: i in s.replicas && Executes(s.replicas[i].executed, num) && Marked(num) ==>
      Checkpoint(i, num, OfState(num)) in s.own
  }

  lemma OnlyTurnsExecute(r: ReplicaState, ev: Event)
    requires Enabled(r, ev) && !ev.Deliver?
    ensures Handle(r, ev).state.executed == r.executed
  {
    if ev.Receive? && (ev.m.ViewChange? || ev.m.NewView?) {
      EnterKeepsCheckpoints(r, ev);
    } else if ev.Receive? && !ev.m.Checkpoint? {
      VotesKeepCheckpoints(r, ev);
    }
  }

  lemma EventKeepsVoted(s: System, i: nat, ev: Event)
    requires AllVoted(s) && Locals(s) && CanHandle(s, i, ev)
    ensures AllVoted(After(s, i, ev))
  {
    var r, s' := s.replicas[i], After(s, i, ev);
    forall k, num | k in s'.replicas && Executes(s'.replicas[k].executed, num) && Marked(num)
      ensures Checkpoint(k, num, OfState(num)) in s'.own
    {
      if k == i {
        NewlyVoted(r, ev, num);
      }
    }
  }

  lemma NewlyVoted(r: ReplicaState, ev: Event, num: nat)
    requires Enabled(r, ev) && DeliveryOk(r) && Executes(Handle(r, ev).state.executed, num) && Marked(num)
    ensures Executes(r.executed, num) || Checkpoint(r.id, num, OfState(num)) in Elements(Handle(r, ev).sent)
  {
    if ev.Deliver? {
      TurnIsExact(r);
      var o, turn := r.DeliverNext(), Turn(r);
      if turn in r.buffer.pending {
        var e := r.buffer.pending[turn];
        ExecutesConcat(r.executed, [e], num);
        assert e.num == turn && [e][0] == e;
        if !Executes(r.executed, num) {
          var k :| 0 <= k < 1 && [e][k].num == num;
          assert o.sent[0] in Elements(o.sent);
        }
      }
    } else {
      OnlyTurnsExecute(r, ev);
    }
  }

  lemma {:induction false} RunKeepsVoted(trace: seq<System>, k: nat)
    requires IsRun(trace) && k < |trace|
    ensures AllVoted(trace[k])
  {
    if k > 0 {
      RunKeepsVoted(trace, k - 1);
      RunKeepsInv(trace, k - 1);
      RunStepKeepsVoted(trace, k);
    }
  }

  lemma RunStepKeepsVoted(trace: seq<System>, k: nat)
    requires IsRun(trace) && 0 < k < |trace| && AllVoted(trace[k - 1]) && Locals(trace[k - 1])
    ensures AllVoted(trace[k])
  {
    assert StepOf(trace, k);
    NextKeepsVoted(trace[k - 1], trace[k]);
  }

  lemma NextKeepsVoted(s: System, s': System)
    requires AllVoted(s) && Locals(s) && Next(s, s')
    ensures AllVoted(s')
  {
    if CorrectStep(s, s') {
      var i, ev :| CanHandle(s, i, ev) && s' == After(s, i, ev);
      EventKeepsVoted(s, i, ev);
    }
  }

  /**
   * At every moment of every run a correct replica has sent its vote for exactly the marked numbers that it executed: a
   * vote says that it did, and executing one is enough.
   */
  lemma VotesAreExact(trace: seq<System>, k: nat, i: nat, num: nat)
    requires IsRun(trace) && k < |trace| && i in trace[k].replicas
    ensures
      VotedFor(trace[k], i, num) <==> Executes(trace[k].replicas[i].executed, num) && Marked(num)
  {
    RunKeepsVoted(trace, k);
    RunKeepsSkipInv(trace, k);
    VotesMeanExecution(trace[k], i, num);
  }

  lemma VotesMeanExecution(s: System, i: nat, num: nat)
    requires AllVoted(s) && VotesAfterExecution(s) && SentOwned(s) && i in s.replicas
    ensures VotedFor(s, i, num) <==> Executes(s.replicas[i].executed, num) && Marked(num)
  {
    if VotedFor(s, i, num) {
      VotedMeansExecuted(s, i, num);
    }
  }

  ghost predicate VotedFor(s: System, i: nat, num: nat) {
    exists d :: Checkpoint(i, num, d) in s.own
  }

  lemma VotedMeansExecuted(s: System, i: nat, num: nat)
    requires VotesAfterExecution(s) && SentOwned(s) && i in s.replicas && VotedFor(s, i, num)
    ensures Executes(s.replicas[i].executed, num) && Marked(num)
  {
    var d :| Checkpoint(i, num, d) in s.own;
    var m := Checkpoint(i, num, d);
    assert m in s.sent && m.from in s.replicas;
  }

  /** So once all correct replicas have executed a marked number, 2f+1 votes for it are on the network. */
  lemma ExecutionCertifies(trace: seq<System>, k: nat, num: nat)
    requires IsRun(trace) && k < |trace| && Marked(num)
    requires forall i :: i in trace[k].replicas ==> Executes(trace[k].replicas[i].executed, num)
    ensures |CheckpointSenders(trace[k], num, OfState(num))| >= 2 * trace[k].f + 1
  {
    var s := trace[k];
    RunKeepsVoted(trace, k);
    RunKeepsInv(trace, k);
    forall i | i in s.replicas.Keys
      ensures i in CheckpointSenders(s, num, OfState(num))
    {
      assert Checkpoint(i, num, OfState(num)) in s.own;
    }
    ClusterSize(s.n);
    DifferenceSize(Cluster(s.n), s.faulty);
    SubsetSize(s.replicas.Keys, CheckpointSenders(s, num, OfState(num)));
  }
}
