/**
 * Agreement of BFT-SMaRt when a signed proposal, write or accept serves for the other two, and when a batch need not be
 * the one its digest belongs to: neither is covered by the signature.
 */
module BftSmartSignatures {
  import opened Quorum
  import opened BftSmartEntry
  import opened BftSmartReplica
  import opened BftSmartAgreement

  // ---- What the handlers would have to check ---------------------------------------------------

  ghost predicate Recorded(r: ReplicaState, cid: nat) {
    cid in r.entries && r.entries[cid].propose.Some?
  }

  ghost predicate RecordedAs(r: ReplicaState, cid: nat, d: Digest) {
    Recorded(r, cid) && r.entries[cid].propose.value.digest == d
  }

  /** Every write and accept sent names the digest of the proposal recorded for its instance. */
  ghost predicate FaithfulVotes(o: Outcome) {
    forall m :: m in o.sent && !m.Propose? ==> RecordedAs(o.state, m.cid, m.digest)
  }

  /** The write completes a quorum and is answered with an accept. */
  predicate Fires(r: ReplicaState, ev: Event)
    requires r.n > 0 && ev.Receive? && ev.m.Write?
  {
    && r.Admits(ev.m) && ev.connected
    && r.At(ev.m.cid).RecordWrite(r.F(), ev.m.from, ev.m.Vote(), ev.writeRef).1
  }

  /** The check on arrival that the program leaves out: a write that is answered names the own write's digest. */
  ghost predicate VotesChecked(r: ReplicaState, ev: Event)
    requires r.n > 0
  {
    ev.Receive? && ev.m.Write? && Fires(r, ev) ==> RecordedAs(r, ev.m.cid, ev.m.digest)
  }

  ghost predicate EntriesOk(r: ReplicaState) {
    WellFormed(r) && forall c :: c in r.entries ==> (r.entries[c].sentWrite <==> r.entries[c].propose.Some?)
  }

  /** For every event: the votes sent name the recorded digest exactly when the message passed the check. */
  lemma ChecksAreExact(r: ReplicaState, ev: Event)
    requires EntriesOk(r)
    ensures VotesChecked(r, ev) <==> FaithfulVotes(Handle(r, ev))
  {
    if ev.Receive? && ev.m.Write? {
      WriteChecked(r, ev);
    } else if ev.Receive? && ev.m.Propose? {
      ProposalStep(r, ev);
    }
  }

  lemma WriteChecked(r: ReplicaState, ev: Event)
    requires EntriesOk(r) && ev.Receive? && ev.m.Write?
    ensures VotesChecked(r, ev) <==> FaithfulVotes(Handle(r, ev))
  {
    var m, o := ev.m, Handle(r, ev);
    if Fires(r, ev) {
      assert o.sent == [Accept(r.id, m.cid, m.view, m.digest)];
      assert o.sent[0] in o.sent;
      assert RecordedAs(o.state, m.cid, m.digest) <==> RecordedAs(r, m.cid, m.digest);
    } else {
      assert o.sent == [];
    }
  }

  // ---- What every handler does, checked or not -------------------------------------------------

  /** The proposal that this event would record for an instance: only the leader's counts. */
  ghost predicate Brings(r: ReplicaState, ev: Event, cid: nat, d: Digest)
    requires r.n > 0
  {
    ev.Receive? && ev.m.Propose? && ev.m.from == r.Leader() && ev.m.cid == cid && ev.m.digest == d
  }

  ghost predicate RecordsStay(r: ReplicaState, ev: Event, o: Outcome)
    requires r.n > 0
  {
    && (forall cid: nat, d: Digest ::
          RecordedAs(r, cid, d) ==> cid <= o.state.low || RecordedAs(o.state, cid, d))
    && (forall cid: nat, d: Digest ::
          RecordedAs(o.state, cid, d) ==> RecordedAs(r, cid, d) || (!Recorded(r, cid) && Brings(r, ev, cid, d)))
  }

  ghost predicate Steps(r: ReplicaState, ev: Event, o: Outcome)
    requires r.n > 0
  {
    && EntriesOk(o.state) && RecordsStay(r, ev, o)
    && o.state.id == r.id && o.state.n == r.n && o.state.view == r.view
    && o.state.low >= r.low && o.state.counter >= r.counter
    && (forall m :: m in o.sent ==> m.from == r.id)
    && (forall m :: m in o.sent && m.Propose? ==>
          ev.Lead? && r.id == r.Leader() && m.cid == r.counter + 1 == o.state.counter && o.sent == [m])
    && (forall m :: m in o.sent && !m.Propose? ==> m.cid > o.state.low)
  }

  /** Replacing one entry by one with the same proposal, or recording a first proposal. */
  lemma PutRecords(r: ReplicaState, cid: nat, e: Entry)
    requires EntriesOk(r) && e.cid == cid && (e.sentWrite <==> e.propose.Some?)
    requires r.At(cid).propose.Some? ==> e.propose == r.At(cid).propose
    ensures EntriesOk(r.Put(cid, e))
    ensures forall c: nat, d: Digest :: RecordedAs(r, c, d) ==> RecordedAs(r.Put(cid, e), c, d)
    ensures forall c: nat, d: Digest :: RecordedAs(r.Put(cid, e), c, d) ==>
              RecordedAs(r, c, d) || (c == cid && r.At(cid).propose.None? && e.propose.value.digest == d)
  {
  }

  lemma WriteStep(r: ReplicaState, ev: Event)
    requires EntriesOk(r) && ev.Receive? && ev.m.Write?
    ensures Steps(r, ev, Handle(r, ev))
  {
    if r.Admits(ev.m) {
      PutRecords(r, ev.m.cid, r.At(ev.m.cid).RecordWrite(r.F(), ev.m.from, ev.m.Vote(), ev.writeRef).0);
    }
  }

  lemma AcceptStep(r: ReplicaState, ev: Event)
    requires EntriesOk(r) && ev.Receive? && ev.m.Accept?
    ensures Steps(r, ev, Handle(r, ev))
  {
    if r.Admits(ev.m) {
      PutRecords(r, ev.m.cid, r.At(ev.m.cid).RecordAccept(r.F(), ev.m.from, ev.m.Vote(), ev.acceptRef).0);
    }
  }

  /** The own votes on a proposal name its digest. */
  lemma ProposalStep(r: ReplicaState, ev: Event)
    requires EntriesOk(r) && ev.Receive? && ev.m.Propose?
    ensures Steps(r, ev, Handle(r, ev)) && FaithfulVotes(Handle(r, ev))
  {
    var m, o := ev.m, Handle(r, ev);
    if r.Admits(m) {
      var (e, first) := r.At(m.cid).RecordPropose(r.id, r.view, m.batch, m.digest);
      if first && ev.connected {
        FirstProposalStep(r, ev);
      } else {
        assert o.state == r.Put(m.cid, e) && o.sent == [];
        PutRecords(r, m.cid, e);
      }
    }
  }

  lemma FirstProposalStep(r: ReplicaState, ev: Event)
    requires EntriesOk(r) && ev.Receive? && ev.m.Propose? && r.Admits(ev.m) && ev.connected
    requires r.At(ev.m.cid).RecordPropose(r.id, r.view, ev.m.batch, ev.m.digest).1
    ensures Steps(r, ev, Handle(r, ev)) && FaithfulVotes(Handle(r, ev))
  {
    var m, o := ev.m, Handle(r, ev);
    var e := r.At(m.cid).RecordPropose(r.id, r.view, m.batch, m.digest).0;
    var (e1, ready) := e.CheckWritten(r.F(), ev.writeRef);
    var e2 := if ready then e1.CheckAccepted(r.F(), ev.acceptRef).0 else e1;
    PutTwice(r, m.cid, e, e2);
    assert r.Put(m.cid, e).At(m.cid) == e;
    assert o.state == r.Put(m.cid, e2) && e2.propose == e.propose && e2.sentWrite;
    var write, accept := Write(r.id, m.cid, m.view, m.digest), Accept(r.id, m.cid, m.view, m.digest);
    assert o.sent == if ready then [write] + [accept] else [write] + [];
    VotedSteps(r, ev, e2, o);
  }

  /** The entry of a proposal was recorded, and own votes that name its digest went out. */
  lemma VotedSteps(r: ReplicaState, ev: Event, e: Entry, o: Outcome)
    requires EntriesOk(r) && ev.Receive? && ev.m.Propose? && r.Admits(ev.m) && o.state == r.Put(ev.m.cid, e)
    requires e.cid == ev.m.cid && e.sentWrite && e.propose.Some? && e.propose.value.digest == ev.m.digest
    requires r.At(ev.m.cid).propose.Some? ==> e.propose == r.At(ev.m.cid).propose
    requires forall x :: x in o.sent ==>
               || x == Write(r.id, ev.m.cid, ev.m.view, ev.m.digest)
               || x == Accept(r.id, ev.m.cid, ev.m.view, ev.m.digest)
    ensures Steps(r, ev, o) && FaithfulVotes(o)
  {
    PutRecords(r, ev.m.cid, e);
    assert RecordedAs(o.state, ev.m.cid, ev.m.digest);
  }

  lemma EventSteps(r: ReplicaState, ev: Event)
    requires EntriesOk(r)
    ensures Steps(r, ev, Handle(r, ev))
  {
    if ev.Receive? {
      match ev.m {
        case Propose(_, _, _, _, _) => ProposalStep(r, ev);
        case Write(_, _, _, _) => WriteStep(r, ev);
        case Accept(_, _, _, _) => AcceptStep(r, ev);
      }
    }
  }

  // ---- Runs in which correct replicas check ----------------------------------------------------

  ghost predicate CheckedStep(s: System, s': System) {
    exists i, ev :: CanHandle(s, i, ev) && s' == After(s, i, ev) && VotesChecked(s.replicas[i], ev)
  }

  ghost predicate CheckedNext(s: System, s': System) {
    CheckedStep(s, s') || FaultyStep(s, s') || ReuseStep(s, s')
  }

  ghost predicate IsCheckedRun(trace: seq<System>) {
    && trace != [] && Init(trace[0])
    && forall k :: 0 <= k < |trace| - 1 ==> CheckedNext(trace[k], trace[k + 1])
  }

  lemma CheckedIsNext(s: System, s': System)
    requires CheckedNext(s, s')
    ensures Next(s, s')
  {
    if CheckedStep(s, s') {
      var i, ev :| CanHandle(s, i, ev) && s' == After(s, i, ev) && VotesChecked(s.replicas[i], ev);
      assert CorrectStep(s, s');
    }
  }

  /** What a correct replica said about an instance and what it recorded for it go together. */
  ghost predicate Named(r: ReplicaState, m: Message) {
    || m.cid <= r.low
    || ((m.Propose? || Recorded(r, m.cid)) && (Recorded(r, m.cid) ==> RecordedAs(r, m.cid, m.digest)))
  }

  ghost predicate AllNamed(s: System) {
    forall m :: m in s.own && m.from in s.replicas ==> Named(s.replicas[m.from], m)
  }

  /** The leader's counter is past all it spoke about and recorded; nobody else proposes. */
  ghost predicate LeaderAhead(r: ReplicaState, own: set<Message>)
    requires r.n > 0
  {
    && (r.id == r.Leader() ==>
          && (forall m :: m in own && m.from == r.id ==> m.cid <= r.counter)
          && (forall cid: nat :: Recorded(r, cid) ==> cid <= r.counter))
    && (r.id != r.Leader() ==> forall m :: m in own && m.from == r.id ==> !m.Propose?)
  }

  ghost predicate LeadersAhead(s: System) {
    forall i :: i in s.replicas ==> EntriesOk(s.replicas[i]) && LeaderAhead(s.replicas[i], s.own)
  }

  /** All that a correct replica says about one instance names one digest. */
  ghost predicate OneDigest(s: System) {
    forall m, m' :: m in s.own && m' in s.own && m.from == m'.from && m.cid == m'.cid ==> m.digest == m'.digest
  }

  ghost predicate CheckedInv(s: System) {
    Inv(s) && LeadersAhead(s) && AllNamed(s) && OneDigest(s)
  }

  /** A proposal that the leader receives as its own goes back to a message it sent. */
  lemma OwnProposal(s: System, i: nat, m: Message) returns (own: Message)
    requires SentOwned(s) && m in s.sent && m.from == i && i in s.replicas
    ensures own in s.own && own.from == i && own.cid == m.cid && own.digest == m.digest
  {
    assert Owned(s, m);
    own :| own in s.own && SignedPart(own) == SignedPart(m);
  }

  lemma LeaderStaysAhead(s: System, i: nat, ev: Event, o: Outcome)
    requires ReplicasOk(s) && SentOwned(s) && LeadersAhead(s) && CanHandle(s, i, ev)
    requires o == Handle(s.replicas[i], ev) && Steps(s.replicas[i], ev, o) && FaithfulVotes(o)
    ensures LeadersAhead(After(s, i, ev))
  {
    var r, s' := s.replicas[i], After(s, i, ev);
    assert r.id == i;
    if i == r.Leader() {
      forall cid: nat | Recorded(o.state, cid)
        ensures cid <= o.state.counter
      {
        var d := o.state.entries[cid].propose.value.digest;
        assert RecordedAs(o.state, cid, d);
        if !RecordedAs(r, cid, d) {
          var own := OwnProposal(s, i, ev.m);
        }
      }
      forall m | m in s'.own && m.from == i
        ensures m.cid <= o.state.counter
      {
        if m in o.sent && !m.Propose? {
          assert RecordedAs(o.state, m.cid, m.digest);
        }
      }
    }
    assert LeaderAhead(o.state, s'.own);
    forall j | j in s'.replicas
      ensures EntriesOk(s'.replicas[j]) && LeaderAhead(s'.replicas[j], s'.own)
    {
      if j != i {
        assert s'.replicas[j] == s.replicas[j] && LeaderAhead(s.replicas[j], s.own);
        assert forall m :: m in s'.own && m.from == j ==> m in s.own;
      }
    }
  }

  /** A message from before stays named. */
  lemma StaysNamed(s: System, i: nat, ev: Event, o: Outcome, m: Message)
    requires ReplicasOk(s) && SentOwned(s) && LeadersAhead(s) && AllNamed(s) && OneDigest(s) && CanHandle(s, i, ev)
    requires o == Handle(s.replicas[i], ev) && Steps(s.replicas[i], ev, o)
    requires m in s.own && m.from == i
    ensures Named(o.state, m)
  {
    var r := s.replicas[i];
    assert Named(r, m) && r.id == i;
    if m.cid > o.state.low {
      if Recorded(r, m.cid) {
        assert RecordedAs(r, m.cid, m.digest);
        assert RecordedAs(o.state, m.cid, m.digest);
      } else if Recorded(o.state, m.cid) {
        var d := o.state.entries[m.cid].propose.value.digest;
        assert RecordedAs(o.state, m.cid, d) && Brings(r, ev, m.cid, d);
        assert m.Propose? && LeaderAhead(r, s.own);
        assert ev.m.from == i;
        var own := OwnProposal(s, i, ev.m);
      }
    }
  }

  /** A message just sent is named as well. */
  lemma NewlyNamed(s: System, i: nat, ev: Event, o: Outcome, m: Message)
    requires LeadersAhead(s) && CanHandle(s, i, ev)
    requires o == Handle(s.replicas[i], ev) && Steps(s.replicas[i], ev, o) && FaithfulVotes(o)
    requires m in o.sent
    ensures Named(o.state, m)
  {
    if m.Propose? {
      assert LeaderAhead(s.replicas[i], s.own);
      assert o.state.entries == s.replicas[i].entries && !Recorded(s.replicas[i], m.cid);
    }
  }

  lemma AllStayNamed(s: System, i: nat, ev: Event, o: Outcome)
    requires ReplicasOk(s) && SentOwned(s) && LeadersAhead(s) && AllNamed(s) && OneDigest(s) && CanHandle(s, i, ev)
    requires o == Handle(s.replicas[i], ev) && Steps(s.replicas[i], ev, o) && FaithfulVotes(o)
    ensures AllNamed(After(s, i, ev))
  {
    var s' := After(s, i, ev);
    forall m | m in s'.own && m.from in s'.replicas
      ensures Named(s'.replicas[m.from], m)
    {
      if m in o.sent {
        NewlyNamed(s, i, ev, o, m);
      } else if m.from == i {
        StaysNamed(s, i, ev, o, m);
      }
    }
  }

  /** What is sent agrees with everything the replica says about the instance, before or at the same time. */
  lemma NewMatches(s: System, i: nat, ev: Event, o: Outcome, m: Message, m': Message)
    requires ReplicasOk(s) && LeadersAhead(s) && CanHandle(s, i, ev) && AllNamed(After(s, i, ev))
    requires o == Handle(s.replicas[i], ev) && Steps(s.replicas[i], ev, o) && FaithfulVotes(o)
    requires m in o.sent && m' in After(s, i, ev).own && m'.from == i && m'.cid == m.cid
    ensures m.digest == m'.digest
  {
    var r, s' := s.replicas[i], After(s, i, ev);
    if m.Propose? {
      assert o.sent == [m] && LeaderAhead(r, s.own) && r.id == i;
      assert m' in s.own ==> m'.cid <= r.counter;
    } else {
      assert RecordedAs(o.state, m.cid, m.digest);
      assert s'.replicas[i] == o.state && Named(o.state, m');
    }
  }

  lemma CheckedStepKeepsInv(s: System, i: nat, ev: Event)
    requires CheckedInv(s) && CanHandle(s, i, ev) && VotesChecked(s.replicas[i], ev)
    ensures CheckedInv(After(s, i, ev))
  {
    var o, s' := Handle(s.replicas[i], ev), After(s, i, ev);
    EventKeepsInv(s, i, ev);
    assert EntriesOk(s.replicas[i]);
    EventSteps(s.replicas[i], ev);
    ChecksAreExact(s.replicas[i], ev);
    LeaderStaysAhead(s, i, ev, o);
    AllStayNamed(s, i, ev, o);
    DigestsStayAlike(s, i, ev, o);
  }

  lemma DigestsStayAlike(s: System, i: nat, ev: Event, o: Outcome)
    requires ReplicasOk(s) && OneDigest(s) && LeadersAhead(s) && CanHandle(s, i, ev) && AllNamed(After(s, i, ev))
    requires o == Handle(s.replicas[i], ev) && Steps(s.replicas[i], ev, o) && FaithfulVotes(o)
    ensures OneDigest(After(s, i, ev))
  {
    var s' := After(s, i, ev);
    forall m, m' | m in s'.own && m' in s'.own && m.from == m'.from && m.cid == m'.cid
      ensures m.digest == m'.digest
    {
      if m in o.sent {
        NewMatches(s, i, ev, o, m, m');
      } else if m' in o.sent {
        NewMatches(s, i, ev, o, m', m);
      }
    }
  }

  lemma InitChecked(s: System)
    requires Init(s)
    ensures CheckedInv(s)
  {
    InitInv(s);
  }

  /** Nothing that only touches the network matters. */
  lemma UncheckedKeepsInv(s: System, s': System)
    requires CheckedInv(s) && (FaultyStep(s, s') || ReuseStep(s, s'))
    ensures CheckedInv(s')
  {
    assert Next(s, s');
    NextKeepsInv(s, s');
    assert s'.own == s.own && s'.replicas == s.replicas;
  }

  lemma CheckedNextKeepsInv(s: System, s': System)
    requires CheckedInv(s) && CheckedNext(s, s')
    ensures CheckedInv(s')
  {
    if CheckedStep(s, s') {
      var i, ev :| CanHandle(s, i, ev) && s' == After(s, i, ev) && VotesChecked(s.replicas[i], ev);
      CheckedStepKeepsInv(s, i, ev);
    } else {
      UncheckedKeepsInv(s, s');
    }
  }

  lemma {:induction false} CheckedRunKeepsInv(trace: seq<System>, k: nat)
    requires IsCheckedRun(trace) && k < |trace|
    ensures CheckedInv(trace[k])
  {
    if k == 0 {
      InitChecked(trace[0]);
    } else {
      CheckedRunKeepsInv(trace, k - 1);
      assert CheckedNext(trace[k - 1], trace[k - 1 + 1]);
      CheckedNextKeepsInv(trace[k - 1], trace[k]);
    }
  }

  // ---- Agreement -------------------------------------------------------------------------------

  /** A correct replica that seems to have accepted a digest named it in a message of its own. */
  lemma AcceptWasNamed(s: System, w: nat, v: Vote) returns (m: Message)
    requires SentOwned(s) && w in s.replicas && w in AcceptSenders(s, v)
    ensures m in s.own && m.from == w && m.cid == v.cid && m.digest == v.digest
  {
    m := OwnProposal(s, w, Accept(w, v.cid, v.view, v.digest));
  }

  /** Over any run: either signatures are never reused, or correct replicas make the check. */
  ghost predicate Guarded(trace: seq<System>) {
    trace != [] && if trace[0].reuse then IsCheckedRun(trace) else IsRun(trace)
  }

  /**
   * Two correct replicas whose accept check fires for one instance, at whatever moments and whichever references the
   * checks pick, have accepted one digest: in every run without reuse of signatures, and in every run with it whose
   * correct replicas check the writes they answer.
   */
  lemma Agreement(trace: seq<System>, k: nat, a: (nat, Decision), b: (nat, Decision))
    requires Guarded(trace) && k < |trace|
    requires a in trace[k].decided && b in trace[k].decided && a.1.accepted.cid == b.1.accepted.cid
    ensures a.1.accepted.digest == b.1.accepted.digest
  {
    if trace[0].reuse {
      CheckedRunKeepsInv(trace, k);
      var s, v, w := trace[k], a.1.accepted, b.1.accepted;
      var i := CorrectWitness(AcceptSenders(s, v), AcceptSenders(s, w), s.faulty, s.n, s.f);
      assert i in s.replicas;
      var m := AcceptWasNamed(s, i, v);
      var m' := AcceptWasNamed(s, i, w);
    } else {
      AgreementWithoutReuse(trace, k, k, a, b);
    }
  }

  /** The batch handed over is the one that was accepted. */
  predicate RightBatch(d: Decision) {
    OfBatch(d.batch) == d.accepted.digest
  }

  // ---- Batches ---------------------------------------------------------------------------------

  /** The record that the accept check looks at, when this event makes it look. */
  ghost function Checked(r: ReplicaState, ev: Event): Entry
    requires r.n > 0 && ev.Receive?
  {
    var e := r.At(ev.m.cid);
    match ev.m
    case Propose(_, _, _, batch, digest) =>
      e.RecordPropose(r.id, r.view, batch, digest).0.CheckWritten(r.F(), ev.writeRef).0
    case Write(_, _, _, _) => e
    case Accept(_, _, _, _) => e.(accepts := e.accepts[ev.m.from := ev.m.Vote()])
  }

  /** The accept check is made and fires. */
  ghost predicate Completes(r: ReplicaState, ev: Event)
    requires r.n > 0 && ev.Receive?
  {
    && r.Admits(ev.m) && Checked(r, ev).CheckAccepted(r.F(), ev.acceptRef).1
    && (ev.m.Propose? ==>
          && !r.At(ev.m.cid).sentWrite && ev.connected
          && r.At(ev.m.cid).RecordPropose(r.id, r.view, ev.m.batch, ev.m.digest).0.CheckWritten(r.F(), ev.writeRef).1)
    && (ev.m.Accept? ==> ev.m.from !in r.At(ev.m.cid).accepts)
    && !ev.m.Write?
  }

  /** The comparison the program leaves out: a completed instance has the batch that its reference accept names. */
  ghost predicate BatchCompared(r: ReplicaState, ev: Event)
    requires r.n > 0
  {
    ev.Receive? && Completes(r, ev) ==>
      var e := Checked(r, ev);
      ev.acceptRef in e.accepts && OfBatch(e.batch) == e.accepts[ev.acceptRef].digest
  }

  lemma AcceptCompared(r: ReplicaState, ev: Event)
    requires r.n > 0 && ev.Receive? && ev.m.Accept?
    ensures BatchCompared(r, ev) <==> (Handle(r, ev).decided.Some? ==> RightBatch(Handle(r, ev).decided.value))
  {
  }

  lemma ProposalCompared(r: ReplicaState, ev: Event)
    requires r.n > 0 && ev.Receive? && ev.m.Propose?
    ensures BatchCompared(r, ev) <==> (Handle(r, ev).decided.Some? ==> RightBatch(Handle(r, ev).decided.value))
  {
    var m := ev.m;
    if r.Admits(m) && !r.At(m.cid).sentWrite && ev.connected {
      var e := r.At(m.cid).RecordPropose(r.id, r.view, m.batch, m.digest).0;
      assert r.Put(m.cid, e).At(m.cid) == e;
    }
  }

  /** For every event: what is handed over is the accepted batch exactly when the comparison holds. */
  lemma ComparisonIsExact(r: ReplicaState, ev: Event)
    requires r.n > 0
    ensures BatchCompared(r, ev) <==> (Handle(r, ev).decided.Some? ==> RightBatch(Handle(r, ev).decided.value))
  {
    if ev.Receive? {
      match ev.m {
        case Propose(_, _, _, _, _) => ProposalCompared(r, ev);
        case Accept(_, _, _, _) => AcceptCompared(r, ev);
        case Write(_, _, _, _) =>
      }
    }
  }

  ghost predicate ComparedStep(s: System, s': System) {
    exists i, ev ::
      && CanHandle(s, i, ev) && s' == After(s, i, ev)
      && BatchCompared(s.replicas[i], ev) && (s.reuse ==> VotesChecked(s.replicas[i], ev))
  }

  ghost predicate ComparedNext(s: System, s': System) {
    ComparedStep(s, s') || FaultyStep(s, s') || ReuseStep(s, s')
  }

  /** Runs whose correct replicas compare batches and, where signatures are reused, check the writes they answer. */
  ghost predicate IsComparedRun(trace: seq<System>) {
    && trace != [] && Init(trace[0])
    && forall k :: 0 <= k < |trace| - 1 ==> ComparedNext(trace[k], trace[k + 1])
  }

  ghost predicate RightBatches(s: System) {
    forall d :: d in s.decided ==> RightBatch(d.1)
  }

  lemma ComparedStepKeeps(s: System, s': System)
    requires ComparedNext(s, s') && RightBatches(s)
    ensures RightBatches(s') && s'.reuse == s.reuse && Next(s, s') && (s.reuse ==> CheckedNext(s, s'))
  {
    if ComparedStep(s, s') {
      var i, ev :|
        && CanHandle(s, i, ev) && s' == After(s, i, ev)
        && BatchCompared(s.replicas[i], ev) && (s.reuse ==> VotesChecked(s.replicas[i], ev));
      ComparisonIsExact(s.replicas[i], ev);
      assert CorrectStep(s, s');
    }
  }

  lemma {:induction false} ComparedRunKeeps(trace: seq<System>, k: nat)
    requires IsComparedRun(trace) && k < |trace|
    ensures RightBatches(trace[k]) && trace[k].reuse == trace[0].reuse
  {
    if k > 0 {
      ComparedRunKeeps(trace, k - 1);
      assert ComparedNext(trace[k - 1], trace[k - 1 + 1]);
      ComparedStepKeeps(trace[k - 1], trace[k]);
    }
  }

  lemma ComparedIsGuarded(trace: seq<System>)
    requires IsComparedRun(trace)
    ensures Guarded(trace)
  {
    forall k | 0 <= k < |trace| - 1
      ensures Next(trace[k], trace[k + 1]) && (trace[0].reuse ==> CheckedNext(trace[k], trace[k + 1]))
    {
      ComparedRunKeeps(trace, k);
      ComparedStepKeeps(trace[k], trace[k + 1]);
    }
  }

  /** If correct replicas compare, any two of them hand over one batch for one instance: the one they accepted. */
  lemma OneBatchPerInstance(trace: seq<System>, k: nat, a: (nat, Decision), b: (nat, Decision))
    requires IsComparedRun(trace) && k < |trace|
    requires a in trace[k].decided && b in trace[k].decided && a.1.accepted.cid == b.1.accepted.cid
    ensures a.1.batch == b.1.batch && RightBatch(a.1) && RightBatch(b.1)
  {
    ComparedIsGuarded(trace);
    ComparedRunKeeps(trace, k);
    Agreement(trace, k, a, b);
  }
}
