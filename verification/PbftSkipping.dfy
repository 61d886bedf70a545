/** Nothing a replica jumps over is lost. */
module PbftSkipping {
  import opened PbftMessages
  import opened PbftLog
  import opened PbftLogProperties
  import opened PbftDelivery
  import opened PbftNewView
  import opened PbftReplica
  import opened PbftSystem
  import opened PbftAgreement
  import opened Quorum

  /** Every vote a tally holds is in `known`. */
  ghost predicate ProofsIn(l: Log, known: set<Message>) {
    forall num, m :: num in l.checkpoints && m in l.checkpoints[num].proof ==> m in known
  }

  ghost function Received(ev: Event): set<Message> {
    if ev.Receive? then {ev.m} else {}
  }

  /** What one handler does to checkpoints and to execution. */
  ghost predicate CheckpointSummary(r: ReplicaState, o: Outcome) {
    && (forall m :: m in o.sent && m.Checkpoint? ==>
          ShouldCheckpoint(m.num) && Executes(o.state.executed, m.num) && m.num < o.state.buffer.next)
    && (forall t :: Executes(r.executed, t) ==> Executes(o.state.executed, t))
    && o.state.buffer.next >= r.buffer.next
    && (forall t :: r.buffer.next <= t < o.state.buffer.next ==> t <= r.log.low || Executes(o.state.executed, t))
  }

  lemma RecordKeepsProofs(l: Log, m: Message, f: nat, known: set<Message>)
    requires m.Checkpoint? && ProofsIn(l, known)
    ensures ProofsIn(l.RecordCheckpoint(m, f).0, known + {m})
  {
  }

  /** Entering a view touches neither checkpoints nor execution. */
  lemma {:induction false} ReplayKeepsCheckpoints(r: ReplicaState, ps: seq<Proposal>)
    ensures
      var o := r.ReplayAll(ps);
      && o.state == r.(log := o.state.log) && o.state.log == r.log.(entries := o.state.log.entries)
      && forall m :: m in o.sent ==> !m.Checkpoint?
  {
    if ps != [] {
      ReplayKeepsCheckpoints(r, ps[..|ps| - 1]);
    }
  }

  lemma EnterKeepsCheckpoints(r: ReplicaState, ev: Event)
    requires Enabled(r, ev) && ev.Receive? && (ev.m.ViewChange? || ev.m.NewView?)
    ensures
      var o := Handle(r, ev);
      && o.state.log == r.log.(entries := o.state.log.entries)
      && o.state.executed == r.executed && o.state.buffer == r.buffer
      && forall m :: m in o.sent ==> !m.Checkpoint?
  {
    if ev.m.ViewChange? {
      ReplayKeepsCheckpoints(r.(viewChangeMsgs := r.CollectViewChange(ev.m)).InView(ev.m.newView, MaxNum(ev.proposals)),
                             ev.proposals);
    } else {
      ReplayKeepsCheckpoints(r.InView(ev.m.newView, MaxNum(ev.m.proposals)), ev.m.proposals);
    }
  }

  lemma DeliverExecutes(r: ReplicaState)
    requires r.n > 0 && DeliveryOk(r)
    ensures CheckpointSummary(r, r.DeliverNext())
  {
    var b := r.buffer.SkipTo(r.log.low);
    if b.Ready() {
      var e := b.pending[b.next];
      forall t {
        ExecutesConcat(r.executed, [e], t);
      }
      assert [e][0].num == e.num;
    }
  }

  lemma DeliverKeepsLog(r: ReplicaState, known: set<Message>)
    requires r.n > 0 && LogInv(r.log, r.F()) && ProofsIn(r.log, known)
    ensures
      var o := r.DeliverNext();
      LogInv(o.state.log, r.F()) && ProofsIn(o.state.log, known + Elements(o.sent))
  {
    var b := r.buffer.SkipTo(r.log.low);
    if b.Ready() && ShouldCheckpoint(b.pending[b.next].num) {
      var num := b.pending[b.next].num;
      var vote := Checkpoint(r.id, num, OfState(num));
      RecordKeepsInv(r.log, vote, r.F());
      RecordKeepsProofs(r.log, vote, r.F(), known);
      assert Elements([vote]) == {vote};
    }
  }

  lemma PrePrepareKeepsCheckpoints(r: ReplicaState, m: Message, connected: bool)
    requires r.n > 0 && m.PrePrepare?
    ensures
      var o := r.OnPrePrepare(m, connected);
      && o.state.log == r.log.(entries := o.state.log.entries)
      && o.state.executed == r.executed && o.state.buffer == r.buffer
      && forall m :: m in o.sent ==> !m.Checkpoint?
  {
    EchoSettles(r, m, r.log.At(m.num).RecordPrePrepare(r.id, r.view, m.ts).0);
  }

  /** The vote handlers touch neither checkpoints nor execution. */
  lemma VotesKeepCheckpoints(r: ReplicaState, ev: Event)
    requires Enabled(r, ev) && ev.Receive? && (ev.m.PrePrepare? || ev.m.Prepare? || ev.m.Commit?)
    ensures
      var o := Handle(r, ev);
      && o.state.log == r.log.(entries := o.state.log.entries)
      && o.state.executed == r.executed && o.state.buffer == r.buffer
      && forall m :: m in o.sent ==> !m.Checkpoint?
  {
    if ev.m.PrePrepare? {
      PrePrepareKeepsCheckpoints(r, ev.m, ev.connected);
    }
  }

  lemma HandleExecutes(r: ReplicaState, ev: Event)
    requires Enabled(r, ev) && DeliveryOk(r)
    ensures CheckpointSummary(r, Handle(r, ev))
  {
    if ev.Receive? && (ev.m.ViewChange? || ev.m.NewView?) {
      EnterKeepsCheckpoints(r, ev);
    } else if ev.Receive? && !ev.m.Checkpoint? {
      VotesKeepCheckpoints(r, ev);
    } else if ev.Deliver? {
      DeliverExecutes(r);
    }
  }

  lemma HandleKeepsLog(r: ReplicaState, ev: Event, known: set<Message>)
    requires Enabled(r, ev) && LogInv(r.log, r.F()) && ProofsIn(r.log, known)
    ensures
      var o := Handle(r, ev);
      LogInv(o.state.log, r.F()) && ProofsIn(o.state.log, known + Received(ev) + Elements(o.sent))
  {
    var o := Handle(r, ev);
    var later := known + Received(ev) + Elements(o.sent);
    if ev.Receive? && ev.m.Checkpoint? {
      RecordKeepsInv(r.log, ev.m, r.F());
      RecordKeepsProofs(r.log, ev.m, r.F(), known);
      ProofsMonotone(o.state.log, known + {ev.m}, later);
    } else if ev.Deliver? {
      DeliverKeepsLog(r, known);
      ProofsMonotone(o.state.log, known + Elements(o.sent), later);
    } else {
      if ev.Receive? && (ev.m.ViewChange? || ev.m.NewView?) {
        EnterKeepsCheckpoints(r, ev);
      } else if ev.Receive? {
        VotesKeepCheckpoints(r, ev);
      }
      SameCheckpoints(r.log, o.state.log, r.F());
      ProofsMonotone(o.state.log, known, later);
    }
  }

  lemma SameCheckpoints(l: Log, l': Log, f: nat)
    requires LogInv(l, f) && l' == l.(entries := l'.entries)
    ensures LogInv(l', f) && forall known :: ProofsIn(l, known) ==> ProofsIn(l', known)
  {
  }

  // ---- The cluster invariant -------------------------------------------------------------------

  ghost function CheckpointSenders(s: System, num: nat, d: Digest): set<nat> {
    set j | j in Cluster(s.n) && Checkpoint(j, num, d) in s.sent
  }

  /** Correct replicas that executed number `t`. */
  ghost function Executors(s: System, t: nat): set<nat> {
    set j | j in s.replicas && Executes(s.replicas[j].executed, t)
  }

  ghost predicate LogsOk(s: System) {
    forall i :: i in s.replicas ==> LogInv(s.replicas[i].log, s.f) && ProofsIn(s.replicas[i].log, s.sent)
  }

  /** A correct replica votes for a checkpoint only after executing it, at a multiple of the interval. */
  ghost predicate VotesAfterExecution(s: System) {
    forall m :: m in s.sent && m.Checkpoint? && m.from in s.replicas ==>
      ShouldCheckpoint(m.num) && Executes(s.replicas[m.from].executed, m.num) && m.num < s.replicas[m.from].buffer.next
  }

  /** Every number below the next one to execute was executed here or by f+1 correct replicas. */
  ghost predicate PassedNotLost(s: System) {
    forall i, t :: i in s.replicas && 1 <= t < s.replicas[i].buffer.next ==>
      Executes(s.replicas[i].executed, t) || |Executors(s, t)| >= s.f + 1
  }

  ghost predicate SkipInv(s: System) {
    Inv(s) && LogsOk(s) && VotesAfterExecution(s) && PassedNotLost(s)
  }

  /** f+1 correct replicas have executed everything up to a certified checkpoint. */
  lemma CertifiedMeansExecuted(s: System, num: nat, d: Digest, t: nat)
    requires Shape(s) && VotesAfterExecution(s) && PassedNotLost(s)
    requires |CheckpointSenders(s, num, d)| >= 2 * s.f + 1 && 1 <= t <= num
    ensures |Executors(s, t)| >= s.f + 1 && ShouldCheckpoint(num)
  {
    var correct := CheckpointSenders(s, num, d) - s.faulty;
    DifferenceSize(CheckpointSenders(s, num, d), s.faulty);
    assert forall j :: j in correct ==> Checkpoint(j, num, d) in s.sent && j in s.replicas;
    assert exists j :: j in correct by {
      assert correct != {};
    }
    if |Executors(s, t)| < s.f + 1 {
      forall j | j in correct
        ensures j in Executors(s, t)
      {
        assert Checkpoint(j, num, d).from == j;
      }
      SubsetSize(correct, Executors(s, t));
      assert false;
    }
  }

  /** A replica's low water mark is 0 or a certified checkpoint. */
  lemma LowIsCertified(s: System, i: nat) returns (d: Digest)
    requires Shape(s) && LogsOk(s) && i in s.replicas && s.replicas[i].log.low > 0
    ensures |CheckpointSenders(s, s.replicas[i].log.low, d)| >= 2 * s.f + 1
  {
    var l := s.replicas[i].log;
    d := StableIsCertified(l, l.low, s.f);
    var proof := l.checkpoints[l.low].proof;
    forall j | j in VotersFor(proof, d)
      ensures j in CheckpointSenders(s, l.low, d)
    {
      var k :| 0 <= k < |proof| && proof[k].digest == d && proof[k].from == j;
      assert proof[k] == Checkpoint(j, l.low, d) && proof[k] in proof;
    }
    SubsetSize(VotersFor(proof, d), CheckpointSenders(s, l.low, d));
  }

  lemma InitSkipInv(s: System)
    requires Init(s)
    ensures SkipInv(s)
  {
    InitInv(s);
  }

  lemma ExecutorsGrow(s: System, s': System, t: nat)
    requires s'.replicas.Keys == s.replicas.Keys
    requires forall i :: i in s.replicas && Executes(s.replicas[i].executed, t) ==> Executes(s'.replicas[i].executed, t)
    ensures |Executors(s', t)| >= |Executors(s, t)|
  {
    SubsetSize(Executors(s, t), Executors(s', t));
  }

  lemma ExecutorsGrowBy(s: System, i: nat, ev: Event, t: nat)
    requires CanHandle(s, i, ev) && DeliveryOk(s.replicas[i])
    ensures |Executors(After(s, i, ev), t)| >= |Executors(s, t)|
  {
    HandleExecutes(s.replicas[i], ev);
    ExecutorsGrow(s, After(s, i, ev), t);
  }

  lemma PassedKept(s: System, i: nat, ev: Event)
    requires SkipInv(s) && CanHandle(s, i, ev)
    ensures PassedNotLost(After(s, i, ev))
  {
    var s' := After(s, i, ev);
    HandleExecutes(s.replicas[i], ev);
    forall k, t | k in s'.replicas && 1 <= t < s'.replicas[k].buffer.next
      ensures Executes(s'.replicas[k].executed, t) || |Executors(s', t)| >= s'.f + 1
    {
      ExecutorsGrowBy(s, i, ev, t);
      PassedAt(s, i, Handle(s.replicas[i], ev), k, t);
    }
  }

  lemma PassedAt(s: System, i: nat, o: Outcome, k: nat, t: nat)
    requires Shape(s) && LogsOk(s) && VotesAfterExecution(s) && PassedNotLost(s) && i in s.replicas && k in s.replicas
    requires CheckpointSummary(s.replicas[i], o) && 1 <= t < s.replicas[i := o.state][k].buffer.next
    ensures Executes(s.replicas[i := o.state][k].executed, t) || |Executors(s, t)| >= s.f + 1
  {
    if k == i {
      OwnPassed(s, i, o, t);
    }
  }

  /** A number the replica passes by this step, or passed earlier. */
  lemma OwnPassed(s: System, i: nat, o: Outcome, t: nat)
    requires Shape(s) && LogsOk(s) && VotesAfterExecution(s) && PassedNotLost(s) && i in s.replicas
    requires CheckpointSummary(s.replicas[i], o) && 1 <= t < o.state.buffer.next
    ensures Executes(o.state.executed, t) || |Executors(s, t)| >= s.f + 1
  {
    var r := s.replicas[i];
    if r.buffer.next <= t <= r.log.low {
      LowIsExecuted(s, i, t);
    }
  }

  lemma FaultBound(s: System, i: nat)
    requires Shape(s) && Locals(s) && i in s.replicas
    ensures s.replicas[i].n > 0 && s.replicas[i].F() == s.f
  {
  }

  lemma OwnLogKept(s: System, i: nat, ev: Event)
    requires Shape(s) && Locals(s) && LogsOk(s) && CanHandle(s, i, ev)
    ensures LogInv(After(s, i, ev).replicas[i].log, s.f)
        && ProofsIn(After(s, i, ev).replicas[i].log, After(s, i, ev).sent)
  {
    var r, s' := s.replicas[i], After(s, i, ev);
    FaultBound(s, i);
    assert LogInv(r.log, s.f) && ProofsIn(r.log, s.sent);
    HandleKeepsLog(r, ev, s.sent);
    ProofsMonotone(s'.replicas[i].log, s.sent + Received(ev) + Elements(Handle(r, ev).sent), s'.sent);
  }

  lemma LogsKept(s: System, i: nat, ev: Event)
    requires Shape(s) && Locals(s) && LogsOk(s) && CanHandle(s, i, ev)
    ensures LogsOk(After(s, i, ev))
  {
    var s' := After(s, i, ev);
    OwnLogKept(s, i, ev);
    forall k | k in s'.replicas && k != i
      ensures LogInv(s'.replicas[k].log, s'.f) && ProofsIn(s'.replicas[k].log, s'.sent)
    {
      assert s'.replicas[k] == s.replicas[k];
      ProofsMonotone(s'.replicas[k].log, s.sent, s'.sent);
    }
  }

  lemma ProofsMonotone(l: Log, known: set<Message>, more: set<Message>)
    requires ProofsIn(l, known) && known <= more
    ensures ProofsIn(l, more)
  {
  }

  lemma VotesKept(s: System, i: nat, ev: Event)
    requires SkipInv(s) && CanHandle(s, i, ev)
    ensures VotesAfterExecution(After(s, i, ev))
  {
    HandleExecutes(s.replicas[i], ev);
    HandlerOutput(s, i, ev);
    NewVotesKept(s, i, ev, Handle(s.replicas[i], ev));
  }

  lemma NewVotesKept(s: System, i: nat, ev: Event, o: Outcome)
    requires VotesAfterExecution(s) && CanHandle(s, i, ev) && o == Handle(s.replicas[i], ev)
    requires CheckpointSummary(s.replicas[i], o) && forall m :: m in o.sent ==> m.from == i
    ensures VotesAfterExecution(After(s, i, ev))
  {
  }

  /** A checkpoint vote is signed in full: neither a faulty replica nor a reused signature makes one for another. */
  lemma CheckpointsUnchanged(s: System, s': System)
    requires Shape(s) && VotesAfterExecution(s) && LogsOk(s) && (FaultyStep(s, s') || ReuseStep(s, s'))
    ensures VotesAfterExecution(s') && LogsOk(s')
    ensures s'.replicas == s.replicas && s'.f == s.f
  {
    if FaultyStep(s, s') {
      var m: Message :| m.from in s.faulty && s' == s.(sent := s.sent + {m});
      MoreSentKeepsCheckpoints(s, s', m);
    } else {
      var m, m' :| Reuses(s, m, m') && s' == s.(sent := s.sent + {m'});
      if m'.Checkpoint? {
        ReusedCheckpoint(s, m, m');
      }
      MoreSentKeepsCheckpoints(s, s', m');
    }
  }

  lemma ReusedCheckpoint(s: System, m: Message, m': Message)
    requires Reuses(s, m, m') && m'.Checkpoint?
    ensures m' == m
  {
  }

  lemma MoreSentKeepsCheckpoints(s: System, s': System, m: Message)
    requires VotesAfterExecution(s) && LogsOk(s) && s' == s.(sent := s.sent + {m})
    requires m.Checkpoint? && m.from in s.replicas ==> m in s.sent
    ensures VotesAfterExecution(s') && LogsOk(s')
  {
    forall k | k in s'.replicas
      ensures LogInv(s'.replicas[k].log, s'.f) && ProofsIn(s'.replicas[k].log, s'.sent)
    {
      ProofsMonotone(s'.replicas[k].log, s.sent, s'.sent);
    }
  }

  lemma NextKeepsSkipInv(s: System, s': System)
    requires SkipInv(s) && Next(s, s')
    ensures SkipInv(s')
  {
    NextKeepsInv(s, s');
    if CorrectStep(s, s') {
      var i, ev :| CanHandle(s, i, ev) && s' == After(s, i, ev);
      LogsKept(s, i, ev);
      VotesKept(s, i, ev);
      PassedKept(s, i, ev);
    } else {
      CheckpointsUnchanged(s, s');
      forall i, t | i in s'.replicas && 1 <= t < s'.replicas[i].buffer.next
        ensures Executes(s'.replicas[i].executed, t) || |Executors(s', t)| >= s'.f + 1
      {
        ExecutorsGrow(s, s', t);
      }
    }
  }

  lemma {:induction false} RunKeepsSkipInv(trace: seq<System>, k: nat)
    requires IsRun(trace) && k < |trace|
    ensures SkipInv(trace[k])
  {
    if k == 0 {
      InitSkipInv(trace[0]);
    } else {
      RunKeepsSkipInv(trace, k - 1);
      RunStepKeepsSkipInv(trace, k);
    }
  }

  lemma RunStepKeepsSkipInv(trace: seq<System>, k: nat)
    requires IsRun(trace) && 0 < k < |trace| && SkipInv(trace[k - 1])
    ensures SkipInv(trace[k])
  {
    assert StepOf(trace, k);
    NextKeepsSkipInv(trace[k - 1], trace[k]);
  }

  // ---- Main results ----------------------------------------------------------------------------

  /** A number a correct replica passed without executing it was executed by at least f+1 correct replicas. */
  lemma NothingSkippedIsLost(trace: seq<System>, k: nat, i: nat, t: nat)
    requires IsRun(trace) && k < |trace| && i in trace[k].replicas
    requires 1 <= t < trace[k].replicas[i].buffer.next && !Executes(trace[k].replicas[i].executed, t)
    ensures |Executors(trace[k], t)| >= trace[k].f + 1
  {
    RunKeepsSkipInv(trace, k);
  }

  /**
   * Water marks over a whole run: low is the stable number and high one window above it, low is a multiple of the
   * interval, and f+1 correct replicas executed every number up to it.
   */
  lemma WaterMarksAreSound(trace: seq<System>, k: nat, i: nat)
    requires IsRun(trace) && k < |trace| && i in trace[k].replicas
    ensures
      var l := trace[k].replicas[i].log;
      && l.low == l.lastStable && l.high == l.low + 12000 && l.low % 10000 == 0
      && forall t :: 1 <= t <= l.low ==> |Executors(trace[k], t)| >= trace[k].f + 1
  {
    RunKeepsSkipInv(trace, k);
    MarksStable(trace[k], i);
    LowIsCheckpoint(trace[k], i);
    IntervalDivides(trace[k].replicas[i].log.low);
    forall t | 1 <= t <= trace[k].replicas[i].log.low
      ensures |Executors(trace[k], t)| >= trace[k].f + 1
    {
      LowIsExecuted(trace[k], i, t);
    }
  }

  lemma MarksStable(s: System, i: nat)
    requires LogsOk(s) && i in s.replicas
    ensures var l := s.replicas[i].log; l.low == l.lastStable && l.high == l.low + 12000
  {
  }

  lemma LowIsCheckpoint(s: System, i: nat)
    requires Shape(s) && LogsOk(s) && VotesAfterExecution(s) && PassedNotLost(s) && i in s.replicas
    ensures s.replicas[i].log.low == 0 || ShouldCheckpoint(s.replicas[i].log.low)
  {
    var low := s.replicas[i].log.low;
    if low > 0 {
      var d := LowIsCertified(s, i);
      CertifiedMeansExecuted(s, low, d, low);
    }
  }

  lemma IntervalDivides(num: nat)
    requires num == 0 || ShouldCheckpoint(num)
    ensures num % 10000 == 0
  {
  }

  lemma LowIsExecuted(s: System, i: nat, t: nat)
    requires Shape(s) && LogsOk(s) && VotesAfterExecution(s) && PassedNotLost(s) && i in s.replicas
    requires 1 <= t <= s.replicas[i].log.low
    ensures |Executors(s, t)| >= s.f + 1
  {
    var low := s.replicas[i].log.low;
    var d := LowIsCertified(s, i);
    CertifiedMeansExecuted(s, low, d, t);
  }
}
