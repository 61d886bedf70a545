/**
 * What a new primary would have to check so that a new view carries every committed digest whatever the faulty replicas
 * claim: enough view-changes, and certificates that enough prepares stand behind.
 */
module PbftGuardedNewView {
  import opened Options
  import opened PbftMessages
  import opened PbftEntry
  import opened PbftLog
  import opened PbftNewView
  import opened PbftReplica
  import opened PbftSystem
  import opened PbftAgreement
  import opened PbftNewViewSafety
  import C = PbftNewViewCarriesCommits
  import opened PbftSignatures
  import opened Quorum

  // ---- The guard -------------------------------------------------------------------------------

  /**
   * 2f, as the program has it, where multicasts do not reach their sender; one more where they do, because a replica
   * may then count its own commit.
   */
  ghost function Needed(s: System): nat {
    2 * s.f + if s.loopback then 1 else 0
  }

  ghost function PrepareSenders(s: System, v: Vote): set<nat> {
    set j | j in Cluster(s.n) && Prepare(j, v.view, v.num, v.digest) in s.sent
  }

  /** Every certificate that could be chosen has enough matching prepares behind it. */
  ghost predicate CertificatesBacked(s: System, ms: set<Message>)
    requires ViewChanges(ms)
  {
    forall v :: Certified(ms, v) && Highest(ms, v) ==> |PrepareSenders(s, v)| >= Needed(s)
  }

  /** One view-change or more from each sender; those of correct replicas are built from the present state. */
  ghost predicate Collected(s: System, senders: set<nat>, ms: set<Message>) {
    && senders <= Cluster(s.n) && ViewChanges(ms)
    && (forall i :: i in senders ==> exists m :: m in ms && m.from == i)
    && (forall m :: m in ms && m.from in s.replicas ==>
          && m.lastStable == s.replicas[m.from].log.lastStable
          && s.replicas[m.from].PreparedCertificates(m.prepared))
  }

  // ---- What correct replicas keep of a decision ------------------------------------------------

  /** The number is prepared under the digest, or past. */
  ghost predicate Held(l: Log, v: Vote) {
    v.num <= l.low || (Prepared(l, v.num) && RecordedAs(l, v.num, v.digest))
  }

  ghost predicate DecisionsHeld(s: System) {
    forall p :: p in s.decided ==> p.0 in s.replicas && Held(s.replicas[p.0].log, p.1.vote)
  }

  /** All votes of the deciding replica for the number name the digest. */
  ghost predicate DecisionsNamed(s: System) {
    forall p, m :: p in s.decided && m in s.own && IsVote(m) && m.from == p.0 && m.num == p.1.vote.num ==>
      m.digest == p.1.vote.digest
  }

  ghost predicate NoReplayCommitted(s: System) {
    forall m :: m in s.own && m.Commit? ==> m.digest != REPLAYED
  }

  ghost predicate GuardInv(s: System) {
    && CheckedInv(s) && !s.reuse
    && NoReplayCommitted(s) && DecisionsHeld(s) && DecisionsNamed(s)
    && (!s.loopback ==> C.NoOwnCommit(s) && C.CertifiedByOthers(s))
  }

  // ---- Every step keeps it ---------------------------------------------------------------------

  /** A decision is about an entry above the mark that is prepared and recorded as decided. */
  ghost predicate Settled(r: ReplicaState, o: Outcome) {
    o.decided.Some? ==>
      var v := o.decided.value.vote;
      && v.num > o.state.log.low && Prepared(o.state.log, v.num)
      && o.state.log.entries[v.num].prePrepare == Some(v)
  }

  lemma EchoSettled(r: ReplicaState, m: Message, connected: bool)
    requires r.n > 0 && LogOk(r.log) && m.PrePrepare?
    ensures Settled(r, r.OnPrePrepare(m, connected))
  {
    var before := r.log.At(m.num);
    assert EntryOk(before, m.num);
    EchoSettles(r, m, before.RecordPrePrepare(r.id, r.view, m.ts).0);
  }

  lemma CommitSettled(r: ReplicaState, m: Message)
    requires r.n > 0 && LogOk(r.log) && m.Commit?
    ensures Settled(r, r.OnCommit(m))
  {
    assert EntryOk(r.log.At(m.num), m.num);
  }

  lemma HandlerSettled(r: ReplicaState, ev: Event)
    requires Enabled(r, ev) && LogOk(r.log)
    ensures Settled(r, Handle(r, ev))
  {
    if ev.Receive? {
      match ev.m {
        case PrePrepare(_, _, _, _, _) => EchoSettled(r, ev.m, ev.connected);
        case Commit(_, _, _, _) => CommitSettled(r, ev.m);
        case ViewChange(_, _, _, _) => ViewChangeSummary(r, ev.m, ev.proposals); EnteringDecidesNothing(r, ev);
        case NewView(_, _, _) => EnteringDecidesNothing(r, ev);
        case _ =>
      }
    }
  }

  lemma EnteringDecidesNothing(r: ReplicaState, ev: Event)
    requires Enabled(r, ev) && LogOk(r.log) && ev.Receive? && (ev.m.ViewChange? || ev.m.NewView?)
    ensures Handle(r, ev).decided.None?
  {
    if ev.m.ViewChange? {
      ReplayEntries(r.(viewChangeMsgs := r.CollectViewChange(ev.m)).InView(ev.m.newView, MaxNum(ev.proposals)),
                    ev.proposals);
    } else {
      ReplayEntries(r.InView(ev.m.newView, MaxNum(ev.m.proposals)), ev.m.proposals);
    }
  }

  /** What the step lemmas use of a handler that checked. */
  ghost predicate GuardFacts(r: ReplicaState, o: Outcome, extra: Option<Message>)
    requires r.n > 0
  {
    CheckedFacts(r, o, extra) && Grows(r.log, o.state.log) && Settled(r, o)
  }

  lemma HeldKept(r: ReplicaState, o: Outcome, extra: Option<Message>, v: Vote)
    requires r.n > 0 && GuardFacts(r, o, extra) && Held(r.log, v)
    ensures Held(o.state.log, v)
  {
    if v.num > o.state.log.low {
      assert EntryStep(r.log.At(v.num), o.state.log.entries[v.num], r.id, r.F(), extra);
    }
  }

  lemma DecisionsHeldKept(s: System, i: nat, ev: Event, o: Outcome)
    requires DecisionsHeld(s) && CanHandle(s, i, ev) && o == Handle(s.replicas[i], ev)
    requires s.replicas[i].n > 0 && GuardFacts(s.replicas[i], o, ExtraPrepare(ev))
    ensures DecisionsHeld(After(s, i, ev))
  {
    var s' := After(s, i, ev);
    forall p | p in s'.decided
      ensures p.0 in s'.replicas && Held(s'.replicas[p.0].log, p.1.vote)
    {
      if p in s.decided && p.0 == i {
        HeldKept(s.replicas[i], o, ExtraPrepare(ev), p.1.vote);
      }
    }
  }

  lemma NoReplayCommittedKept(s: System, i: nat, ev: Event, o: Outcome)
    requires NoReplayCommitted(s) && CanHandle(s, i, ev) && o == Handle(s.replicas[i], ev) && FaithfulVotes(o)
    ensures NoReplayCommitted(After(s, i, ev))
  {
  }

  /** A replica that holds a decision votes on its number no more. */
  lemma NoVoteAfterHolding(r: ReplicaState, o: Outcome, extra: Option<Message>, v: Vote, m: Message)
    requires r.n > 0 && GuardFacts(r, o, extra) && Held(r.log, v) && m in o.sent && IsVote(m)
    ensures m.num != v.num
  {
  }

  /** Correct replicas among the committers committed to something that is no replay. */
  lemma DecisionIsReal(s: System, v: Vote)
    requires Shape(s) && SentOwned(s) && !s.reuse && NoReplayCommitted(s)
    requires |CommitSenders(s, v)| >= 2 * s.f + 1
    ensures v.digest != REPLAYED
  {
    var w := CorrectWitness(CommitSenders(s, v), CommitSenders(s, v), s.faulty, s.n, s.f);
    assert Commit(w, v.view, v.num, v.digest) in s.own;
  }

  lemma NewDecisionNamed(s: System, i: nat, ev: Event, o: Outcome, m: Message)
    requires CanHandle(s, i, ev) && o == Handle(s.replicas[i], ev) && o.decided.Some?
    requires s.replicas[i].n > 0 && GuardFacts(s.replicas[i], o, ExtraPrepare(ev))
    requires NamesRemembered(After(s, i, ev)) && o.decided.value.vote.digest != REPLAYED
    requires m in After(s, i, ev).own && IsVote(m) && m.from == i && m.num == o.decided.value.vote.num
    ensures m.digest == o.decided.value.vote.digest
  {
    assert After(s, i, ev).replicas[i] == o.state && Remembered(o.state.log, m);
  }

  lemma DecisionsNamedKept(s: System, i: nat, ev: Event, o: Outcome)
    requires DecisionsHeld(s) && DecisionsNamed(s) && CanHandle(s, i, ev) && o == Handle(s.replicas[i], ev)
    requires s.replicas[i].n > 0 && GuardFacts(s.replicas[i], o, ExtraPrepare(ev))
    requires forall m :: m in o.sent ==> m.from == i
    requires NamesRemembered(After(s, i, ev)) && (o.decided.Some? ==> o.decided.value.vote.digest != REPLAYED)
    ensures DecisionsNamed(After(s, i, ev))
  {
    var s' := After(s, i, ev);
    forall p, m | p in s'.decided && m in s'.own && IsVote(m) && m.from == p.0 && m.num == p.1.vote.num
      ensures m.digest == p.1.vote.digest
    {
      if p !in s.decided {
        NewDecisionNamed(s, i, ev, o, m);
      } else if m in o.sent {
        NoVoteAfterHolding(s.replicas[i], o, ExtraPrepare(ev), p.1.vote, m);
      }
    }
  }

  lemma HandlerGuarded(r: ReplicaState, ev: Event)
    requires Enabled(r, ev) && LogOk(r.log) && DigestsChecked(r, ev)
    ensures GuardFacts(r, Handle(r, ev), ExtraPrepare(ev)) && CommitsFrom(r.log, Handle(r, ev).state.log, Extra(ev))
  {
    HandleStep(r, ev);
    HandlerChecked(r, ev);
    HandlerSettled(r, ev);
  }

  lemma GuardStepKeepsInv(s: System, i: nat, ev: Event)
    requires GuardInv(s) && CanHandle(s, i, ev) && DigestsChecked(s.replicas[i], ev)
    ensures GuardInv(After(s, i, ev))
  {
    var o, s' := Handle(s.replicas[i], ev), After(s, i, ev);
    CheckedStepKeepsInv(s, i, ev);
    HandlerOutput(s, i, ev);
    HandlerGuarded(s.replicas[i], ev);
    NoReplayCommittedKept(s, i, ev, o);
    DecisionsHeldKept(s, i, ev, o);
    if o.decided.Some? {
      assert (i, o.decided.value) in s'.decided;
      DecisionIsReal(s', o.decided.value.vote);
    }
    DecisionsNamedKept(s, i, ev, o);
    if !s.loopback {
      OthersCertify(s, i, ev);
    }
  }

  lemma OthersCertify(s: System, i: nat, ev: Event)
    requires CanHandle(s, i, ev) && Inv(s) && Inv(After(s, i, ev))
    requires C.NoOwnCommit(s) && C.CertifiedByOthers(s) && !s.loopback
    requires CommitsFrom(s.replicas[i].log, Handle(s.replicas[i], ev).state.log, Extra(ev))
    ensures C.NoOwnCommit(After(s, i, ev)) && C.CertifiedByOthers(After(s, i, ev))
  {
    var d := Handle(s.replicas[i], ev).decided;
    C.NoOwnCommitStep(s, i, ev);
    if d.Some? {
      HandlerBacksDecision(s.replicas[i], ev, s.f);
      C.BackedDecisionCertified(After(s, i, ev), i, d.value);
    }
    C.CertifiedByOthersStep(s, i, ev);
  }

  lemma FaultyKeepsInv(s: System, s': System)
    requires GuardInv(s) && FaultyStep(s, s')
    ensures GuardInv(s')
  {
    assert Next(s, s');
    NextKeepsInv(s, s');
    forall p | p in s'.decided
      ensures |CommitSenders(s', p.1.vote) - {p.0}| >= |CommitSenders(s, p.1.vote) - {p.0}|
    {
      SubsetSize(CommitSenders(s, p.1.vote) - {p.0}, CommitSenders(s', p.1.vote) - {p.0});
    }
  }

  lemma GuardNextKeepsInv(s: System, s': System)
    requires GuardInv(s) && CheckedNext(s, s')
    ensures GuardInv(s')
  {
    if CheckedStep(s, s') {
      var i, ev :| CanHandle(s, i, ev) && s' == After(s, i, ev) && DigestsChecked(s.replicas[i], ev);
      GuardStepKeepsInv(s, i, ev);
    } else {
      FaultyKeepsInv(s, s');
    }
  }

  lemma InitGuarded(s: System)
    requires Init(s) && !s.reuse
    ensures GuardInv(s)
  {
    InitInv(s);
  }

  lemma {:induction false} GuardRunKeepsInv(trace: seq<System>, k: nat)
    requires IsCheckedRun(trace) && !trace[0].reuse && k < |trace|
    ensures GuardInv(trace[k])
  {
    if k == 0 {
      InitGuarded(trace[0]);
    } else {
      GuardRunKeepsInv(trace, k - 1);
      assert CheckedStepOf(trace, k);
      GuardNextKeepsInv(trace[k - 1], trace[k]);
    }
  }

  // ---- The committed digest is carried ---------------------------------------------------------

  /** Who has spoken for a decision: its committers and the replica that made it. */
  ghost function Voters(s: System, p: (nat, Decision)): set<nat> {
    CommitSenders(s, p.1.vote) + {p.0}
  }

  lemma VotersAreMany(s: System, p: (nat, Decision))
    requires GuardInv(s) && p in s.decided
    ensures Voters(s, p) <= Cluster(s.n) && |Voters(s, p)| + Needed(s) >= s.n + s.f + 1
  {
    var q := CommitSenders(s, p.1.vote);
    if s.loopback {
      SubsetSize(q, Voters(s, p));
    } else {
      assert Voters(s, p) == (q - {p.0}) + {p.0};
      assert |Voters(s, p)| == |q - {p.0}| + 1;
    }
  }

  /** Any set of the needed size shares a correct replica with them. */
  lemma CorrectVoter(s: System, p: (nat, Decision), others: set<nat>) returns (i: nat)
    requires GuardInv(s) && p in s.decided && others <= Cluster(s.n) && |others| >= Needed(s)
    ensures i in others && i in Voters(s, p) && i in s.replicas
  {
    VotersAreMany(s, p);
    ClusterSize(s.n);
    Overlap(others, Voters(s, p), Cluster(s.n));
    DifferenceSize(others * Voters(s, p), s.faulty);
    assert others * Voters(s, p) - s.faulty != {};
    i :| i in others * Voters(s, p) - s.faulty;
  }

  /** A correct one among them names the digest in all its votes for the number, and holds the decision. */
  lemma VoterHolds(s: System, p: (nat, Decision), i: nat)
    requires GuardInv(s) && p in s.decided && i in Voters(s, p) && i in s.replicas
    ensures Held(s.replicas[i].log, p.1.vote)
    ensures forall m :: m in s.own && IsVote(m) && m.from == i && m.num == p.1.vote.num ==> m.digest == p.1.vote.digest
  {
    if i != p.0 {
      var c := Commit(i, p.1.vote.view, p.1.vote.num, p.1.vote.digest);
      assert c in s.own && Remembered(s.replicas[i].log, c);
    }
  }

  /** So its view-change names a later stable checkpoint or certifies the number. */
  lemma VoterCertifies(s: System, p: (nat, Decision), m: Message)
    requires GuardInv(s) && p in s.decided && m.ViewChange? && m.from in Voters(s, p) && m.from in s.replicas
    requires m.lastStable == s.replicas[m.from].log.lastStable < p.1.vote.num
    requires s.replicas[m.from].PreparedCertificates(m.prepared)
    ensures exists v :: v in m.prepared && v.num == p.1.vote.num
  {
    VoterHolds(s, p, m.from);
    assert LogOk(s.replicas[m.from].log);
    var v := C.CertificateFor(s.replicas[m.from], m.prepared, p.1.vote.num);
  }

  lemma BackedNamesDecision(s: System, p: (nat, Decision), v: Vote)
    requires GuardInv(s) && p in s.decided && v.num == p.1.vote.num && |PrepareSenders(s, v)| >= Needed(s)
    ensures v.digest == p.1.vote.digest
  {
    var i := CorrectVoter(s, p, PrepareSenders(s, v));
    VoterHolds(s, p, i);
    assert Prepare(i, v.view, v.num, v.digest) in s.own;
  }

  /**
   * Over every run whose correct replicas check the digests on arrival, without reuse of signatures, with at most f
   * replicas that send anything: if a correct replica has committed a digest at a number, then every new-view set
   * over view-changes that pass the guard starts above the number or re-proposes it with that digest. The guard is what
   * the new primary can see: as many senders as needed, and as many prepares behind each certificate of highest view.
   */
  lemma GuardedNewViewCarriesCommits(trace: seq<System>, k: nat, p: (nat, Decision), senders: set<nat>,
                                     ms: set<Message>, own: nat, minS: nat, maxS: nat, ps: seq<Proposal>)
    requires IsCheckedRun(trace) && !trace[0].reuse && k < |trace| && p in trace[k].decided
    requires Collected(trace[k], senders, ms)
    requires |senders| >= Needed(trace[k]) && CertificatesBacked(trace[k], ms)
    requires IsMinS(own, ms, minS) && IsMaxS(ms, maxS) && Covers(ms, minS, maxS, ps)
    ensures minS >= p.1.vote.num || Reproposes(ps, p.1.vote.num, p.1.vote.digest)
  {
    GuardRunKeepsInv(trace, k);
    var s, v := trace[k], p.1.vote;
    if minS < v.num {
      var i := CorrectVoter(s, p, senders);
      var m :| m in ms && m.from == i;
      VoterCertifies(s, p, m);
      assert exists w :: Certified(ms, w) && w.num == v.num;
      forall w | Certified(ms, w) && w.num == v.num && Highest(ms, w)
        ensures w.digest == v.digest
      {
        BackedNamesDecision(s, p, w);
      }
      CarriedByHighest(ms, minS, maxS, ps, v.num, v.digest);
    }
  }

  lemma CarriedByHighest(ms: set<Message>, minS: nat, maxS: nat, ps: seq<Proposal>, num: nat, d: Digest)
    requires ViewChanges(ms) && IsMaxS(ms, maxS) && Covers(ms, minS, maxS, ps) && minS < num
    requires HighestCarry(ms, num, d)
    ensures Reproposes(ps, num, d)
  {
    var v :| Certified(ms, v) && v.num == num;
    var x := ps[num - minS - 1];
    assert x in ps && x.num == num && Chosen(ms, num, x.digest);
  }
}
