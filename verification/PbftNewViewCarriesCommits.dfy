/** Runs with crash faults only: what a new view is sure to carry. */
module PbftNewViewCarriesCommits {
  import opened Options
  import opened PbftMessages
  import opened PbftEntry
  import opened PbftLog
  import opened PbftNewView
  import opened PbftReplica
  import opened PbftSystem
  import opened PbftAgreement
  import opened PbftNewViewSafety
  import opened Quorum

  /**
   * Replicas may stop but do not lie or reuse signatures, a multicast does not reach its sender, and request
   * timestamps are not 0.
   */
  ghost predicate CrashSetting(s: System) {
    s.faulty == {} && !s.loopback && !s.reuse && s.f >= 1
  }

  ghost predicate CrashNext(s: System, s': System) {
    exists i, ev :: CanHandle(s, i, ev) && s' == After(s, i, ev) && (ev.Propose? ==> ev.ts != 0)
  }

  ghost predicate CrashStepOf(trace: seq<System>, k: nat)
    requires 0 < k < |trace|
  {
    CrashNext(trace[k - 1], trace[k])
  }

  ghost predicate IsCrashRun(trace: seq<System>) {
    && trace != [] && Init(trace[0]) && CrashSetting(trace[0])
    && forall k :: 0 < k < |trace| ==> CrashStepOf(trace, k)
  }

  // ---- Invariant -------------------------------------------------------------------------------

  ghost predicate HonestMessages(s: System) {
    && (forall m :: m in s.sent ==> Honest(m))
    && (forall i, m :: i in s.replicas && m in s.replicas[i].viewChangeMsgs.Values ==> m in s.sent && m.ViewChange?)
  }

  ghost predicate RecordedPreparesSent(s: System) {
    forall i, num, j :: i in s.replicas && num in s.replicas[i].log.entries && Holds(s, i, num, j) && j != i ==>
      var v := s.replicas[i].log.entries[num].prepares[j];
      v.num == num && Prepare(j, v.view, num, v.digest) in s.sent
  }

  ghost predicate Holds(s: System, i: nat, num: nat, j: nat)
    requires i in s.replicas && num in s.replicas[i].log.entries
  {
    j in s.replicas[i].log.entries[num].prepares
  }

  ghost function PrepareSenders(s: System, num: nat, d: Digest): set<nat> {
    set m | m in s.sent && m.Prepare? && m.num == num && m.digest == d :: m.from
  }

  /** A prepared entry is backed by the prepares of 2f-1 other replicas. */
  ghost predicate PreparedBacked(s: System) {
    forall i, num :: i in s.replicas && Prepared(s.replicas[i].log, num) ==>
      var e := s.replicas[i].log.entries[num];
      e.prePrepare.Some? && |PrepareSenders(s, num, e.prePrepare.value.digest) - {i}| >= 2 * s.f - 1
  }

  /** A replica that sent a prepare still has the entry it recorded then, or is past it. */
  ghost predicate PreparesRemembered(s: System) {
    forall m :: m in s.sent && m.Prepare? && m.from in s.replicas ==>
      RemembersPrepare(s.replicas[m.from].log, m, s.f)
  }

  ghost predicate RemembersPrepare(l: Log, m: Message, f: nat)
    requires m.Prepare?
  {
    || m.num <= l.low
    || RecordedAs(l, m.num, REPLAYED)
    || (RecordedAs(l, m.num, m.digest) && Tight(l.entries[m.num], f))
  }

  ghost predicate CommitsMatchPrepares(s: System) {
    forall p, c :: (p in s.sent && c in s.sent && p.Prepare? && c.Commit? && p.from == c.from && p.num == c.num)
      ==> p.digest == c.digest
  }

  ghost predicate DecisionsRemembered(s: System) {
    forall p :: p in s.decided ==>
      && p.0 in s.replicas
      && var l := s.replicas[p.0].log;
         p.1.vote.num <= l.low || (Prepared(l, p.1.vote.num) && l.entries[p.1.vote.num].prePrepare == Some(p.1.vote))
  }

  ghost predicate DecisionsMatchPrepares(s: System) {
    forall p, m :: (p in s.decided && m in s.sent && m.Prepare? && m.from == p.0 && m.num == p.1.vote.num)
      ==> m.digest == p.1.vote.digest
  }

  ghost predicate NoOwnCommit(s: System) {
    forall i, num :: i in s.replicas && num in s.replicas[i].log.entries
        ==> i !in s.replicas[i].log.entries[num].commits
  }

  ghost predicate CertifiedByOthers(s: System) {
    forall p :: p in s.decided ==> |CommitSenders(s, p.1.vote) - {p.0}| >= 2 * s.f + 1
  }

  ghost predicate CrashInv(s: System) {
    && Inv(s) && CrashSetting(s)
    && HonestMessages(s) && RecordedPreparesSent(s) && PreparedBacked(s)
    && PreparesRemembered(s) && CommitsMatchPrepares(s)
    && DecisionsRemembered(s) && DecisionsMatchPrepares(s) && NoOwnCommit(s) && CertifiedByOthers(s)
  }

  /** What every step starts from: the invariant, the step, and what the handler did. */
  ghost predicate StepOk(s: System, i: nat, ev: Event) {
    CrashInv(s) && CanHandle(s, i, ev) && (ev.Propose? ==> ev.ts != 0)
  }

  lemma Summaries(s: System, i: nat, ev: Event)
    requires StepOk(s, i, ev)
    ensures
      var r := s.replicas[i];
      var o := Handle(r, ev);
      && Inv(After(s, i, ev)) && r.id == i && LogOk(r.log)
      && AgreementStep(r, o, Extra(ev)) && Summary(r, o, s.f, ExtraPrepare(ev))
      && (forall m :: m in o.sent ==> m.from == i)
  {
    CorrectStepKeepsInv(s, i, ev);
    HandleStep(s.replicas[i], ev);
    assert s.replicas[i].F() == s.f;
    HandleSummary(s.replicas[i], ev);
    HandlerOutput(s, i, ev);
  }

  /** An entry replayed with timestamp 0 never prepares: nobody prepares its digest. */
  lemma ReplayedNeverPrepares(s: System, i: nat, num: nat)
    requires CrashSetting(s) && HonestMessages(s) && PreparedBacked(s)
    requires i in s.replicas && Prepared(s.replicas[i].log, num)
    ensures !RecordedAs(s.replicas[i].log, num, REPLAYED)
  {
    var d := s.replicas[i].log.entries[num].prePrepare.value.digest;
    assert PrepareSenders(s, num, d) - {i} != {};
    var j :| j in PrepareSenders(s, num, d) - {i};
    var m :| m in s.sent && m.Prepare? && m.num == num && m.digest == d && m.from == j;
  }

  // ---- Messages --------------------------------------------------------------------------------

  lemma {:induction false} ReplayHonest(r: ReplicaState, ps: seq<Proposal>)
    requires forall p :: p in ps ==> p.digest != REPLAYED
    ensures forall m :: m in r.ReplayAll(ps).sent ==> Honest(m)
    ensures r.ReplayAll(ps).state.viewChangeMsgs == r.viewChangeMsgs
  {
    if ps != [] {
      ReplayHonest(r, ps[..|ps| - 1]);
      assert ps[|ps| - 1] in ps;
    }
  }

  /** Chosen digests are the null digest or come from an honest view-change. */
  lemma NewViewSetHonest(own: nat, ms: set<Message>, ps: seq<Proposal>)
    requires ViewChanges(ms) && IsNewViewSet(own, ms, ps) && forall m :: m in ms ==> Honest(m)
    ensures forall p :: p in ps ==> p.digest != REPLAYED
  {
    var minS, maxS :| IsMinS(own, ms, minS) && IsMaxS(ms, maxS) && Covers(ms, minS, maxS, ps);
    forall p | p in ps
      ensures p.digest != REPLAYED
    {
      var k :| 0 <= k < |ps| && ps[k] == p;
      if p.digest != OfNull {
        var v :| Certified(ms, v) && v.num == p.num && v.digest == p.digest && Highest(ms, v);
        var m :| m in ms && v in m.prepared;
      }
    }
  }

  lemma CompletionHonest(s: System, i: nat, ev: Event)
    requires HonestMessages(s) && CanHandle(s, i, ev) && ev.Receive? && ev.m.ViewChange?
    requires s.replicas[i].CompletesViewChange(ev.m)
    ensures forall m :: m in Handle(s.replicas[i], ev).sent ==> Honest(m)
    ensures Handle(s.replicas[i], ev).state.viewChangeMsgs == map[]
  {
    var r := s.replicas[i];
    var ms := r.CollectViewChange(ev.m).Values;
    assert forall m :: m in ms ==> m == ev.m || m in r.viewChangeMsgs.Values;
    NewViewSetHonest(r.log.lastStable, ms, ev.proposals);
    ReplayHonest(r.(viewChangeMsgs := r.CollectViewChange(ev.m)).InView(ev.m.newView, MaxNum(ev.proposals)),
        ev.proposals);
  }

  lemma TimeoutHonest(s: System, i: nat, certs: seq<Vote>)
    requires CrashSetting(s) && HonestMessages(s) && PreparedBacked(s)
    requires i in s.replicas && s.replicas[i].PreparedCertificates(certs)
    ensures forall v :: v in certs ==> v.digest != REPLAYED
  {
    var l := s.replicas[i].log;
    forall v | v in certs
      ensures v.digest != REPLAYED
    {
      var num :| num in l.PreparedEntries(l.lastStable) && l.entries[num].prePrepare == Some(v);
      ReplayedNeverPrepares(s, i, num);
    }
  }

  lemma VotesHonest(r: ReplicaState, ev: Event)
    requires Enabled(r, ev) && ev.Receive? && (ev.m.PrePrepare? || ev.m.Prepare? || ev.m.Commit?) && Honest(ev.m)
    ensures forall m :: m in Handle(r, ev).sent ==> Honest(m)
    ensures Handle(r, ev).state.viewChangeMsgs == r.viewChangeMsgs
  {
    if ev.m.PrePrepare? {
      EchoSettles(r, ev.m, r.log.At(ev.m.num).RecordPrePrepare(r.id, r.view, ev.m.ts).0);
    }
  }

  ghost predicate Clean(r: ReplicaState, ev: Event, o: Outcome) {
    && (forall m :: m in o.sent ==> Honest(m))
    && (forall m :: m in o.state.viewChangeMsgs.Values ==>
          m in r.viewChangeMsgs.Values || (ev.Receive? && ev.m == m && m.ViewChange?))
  }

  lemma ReceiveClean(s: System, i: nat, ev: Event)
    requires HonestMessages(s) && CanHandle(s, i, ev) && ev.Receive?
    ensures Clean(s.replicas[i], ev, Handle(s.replicas[i], ev))
  {
    var r, m := s.replicas[i], ev.m;
    assert Honest(m);
    if m.ViewChange? && r.CompletesViewChange(m) {
      CompletionHonest(s, i, ev);
    } else if m.NewView? {
      ReplayHonest(r.InView(m.newView, MaxNum(m.proposals)), m.proposals);
    } else if m.PrePrepare? || m.Prepare? || m.Commit? {
      VotesHonest(r, ev);
    }
  }

  lemma OutputClean(s: System, i: nat, ev: Event)
    requires CrashSetting(s) && HonestMessages(s) && PreparedBacked(s)
    requires CanHandle(s, i, ev) && (ev.Propose? ==> ev.ts != 0)
    ensures Clean(s.replicas[i], ev, Handle(s.replicas[i], ev))
  {
    if ev.Receive? {
      ReceiveClean(s, i, ev);
    } else if ev.Timeout? {
      TimeoutHonest(s, i, ev.certs);
    }
  }

  lemma HonestKept(s: System, i: nat, ev: Event)
    requires HonestMessages(s) && CanHandle(s, i, ev) && Clean(s.replicas[i], ev, Handle(s.replicas[i], ev))
    ensures HonestMessages(After(s, i, ev))
  {
    var s' := After(s, i, ev);
    forall k, m | k in s'.replicas && m in s'.replicas[k].viewChangeMsgs.Values
      ensures m in s'.sent && m.ViewChange?
    {
      assert k != i ==> s'.replicas[k] == s.replicas[k];
      if m in s.replicas[k].viewChangeMsgs.Values {
        assert m in s.sent;
      }
    }
  }

  // ---- Prepares --------------------------------------------------------------------------------

  /** The handler's own contribution, for a prepare recorded by replica i. */
  lemma OwnPrepareKept(s: System, i: nat, ev: Event, num: nat, j: nat)
    requires RecordedPreparesSent(s) && CanHandle(s, i, ev)
    requires LogStep(s.replicas[i].log, Handle(s.replicas[i], ev).state.log, i, s.f, ExtraPrepare(ev))
    requires LogOk(Handle(s.replicas[i], ev).state.log)
    requires num in Handle(s.replicas[i], ev).state.log.entries && j != i
    requires j in Handle(s.replicas[i], ev).state.log.entries[num].prepares
    ensures
      var v := Handle(s.replicas[i], ev).state.log.entries[num].prepares[j];
      v.num == num && Prepare(j, v.view, num, v.digest) in s.sent
  {
    var l, e' := s.replicas[i].log, Handle(s.replicas[i], ev).state.log.entries[num];
    assert EntryOk(e', num);
    assert EntryStep(l.At(num), e', i, s.f, ExtraPrepare(ev));
    if j in l.At(num).prepares && l.At(num).prepares[j] == e'.prepares[j] {
      assert Holds(s, i, num, j);
    }
  }

  lemma RecordedPreparesKept(s: System, i: nat, ev: Event)
    requires RecordedPreparesSent(s) && CanHandle(s, i, ev)
    requires LogStep(s.replicas[i].log, Handle(s.replicas[i], ev).state.log, i, s.f, ExtraPrepare(ev))
    requires LogOk(Handle(s.replicas[i], ev).state.log)
    ensures RecordedPreparesSent(After(s, i, ev))
  {
    var s' := After(s, i, ev);
    forall k, num, j | k in s'.replicas && num in s'.replicas[k].log.entries && Holds(s', k, num, j) && j != k
      ensures
        var v := s'.replicas[k].log.entries[num].prepares[j];
        v.num == num && Prepare(j, v.view, num, v.digest) in s'.sent
    {
      if k == i {
        OwnPrepareKept(s, i, ev, num, j);
      } else {
        assert Holds(s, k, num, j);
      }
    }
  }

  lemma PrepareSendersGrow(s: System, s': System, num: nat, d: Digest, i: nat)
    requires s.sent <= s'.sent
    ensures |PrepareSenders(s', num, d) - {i}| >= |PrepareSenders(s, num, d) - {i}|
  {
    forall j | j in PrepareSenders(s, num, d)
      ensures j in PrepareSenders(s', num, d)
    {
      var m :| m in s.sent && m.Prepare? && m.num == num && m.digest == d && m.from == j;
      assert m in s'.sent;
    }
    SubsetSize(PrepareSenders(s, num, d) - {i}, PrepareSenders(s', num, d) - {i});
  }

  /** 2f matching prepares, the replica's own among them or not, are prepares of 2f-1 others. */
  lemma MatchingBacks(s: System, i: nat, num: nat)
    requires RecordedPreparesSent(s) && i in s.replicas && Recorded(s.replicas[i].log, num)
    requires |Matching(s.replicas[i].log.entries[num].prepares,
        s.replicas[i].log.entries[num].prePrepare.value)| >= 2 * s.f
    ensures |PrepareSenders(s, num, s.replicas[i].log.entries[num].prePrepare.value.digest) - {i}| >= 2 * s.f - 1
  {
    var e := s.replicas[i].log.entries[num];
    var v := e.prePrepare.value;
    forall j | j in Matching(e.prepares, v) - {i}
      ensures j in PrepareSenders(s, num, v.digest) - {i}
    {
      assert Holds(s, i, num, j);
      var m := Prepare(j, v.view, num, v.digest);
      assert m in s.sent && m.from == j;
    }
    DifferenceSize(Matching(e.prepares, v), {i});
    SubsetSize(Matching(e.prepares, v) - {i}, PrepareSenders(s, num, v.digest) - {i});
  }

  lemma BackedKept(s: System, i: nat, ev: Event)
    requires StepOk(s, i, ev)
    ensures PreparedBacked(After(s, i, ev))
  {
    Summaries(s, i, ev);
    RecordedPreparesKept(s, i, ev);
    BackedStep(s, i, ev);
  }

  lemma BackedStep(s: System, i: nat, ev: Event)
    requires PreparedBacked(s) && CanHandle(s, i, ev) && RecordedPreparesSent(After(s, i, ev))
    requires LogOk(s.replicas[i].log)
    requires LogStep(s.replicas[i].log, Handle(s.replicas[i], ev).state.log, i, s.f, ExtraPrepare(ev))
    requires LogOk(Handle(s.replicas[i], ev).state.log)
    ensures PreparedBacked(After(s, i, ev))
  {
    var r, s' := s.replicas[i], After(s, i, ev);
    forall k, num | k in s'.replicas && Prepared(s'.replicas[k].log, num)
      ensures
        var e := s'.replicas[k].log.entries[num];
        e.prePrepare.Some? && |PrepareSenders(s', num, e.prePrepare.value.digest) - {k}| >= 2 * s'.f - 1
    {
      var e := s'.replicas[k].log.entries[num];
      PrepareSendersGrow(s, s', num, e.prePrepare.value.digest, k);
      if k == i {
        assert EntryStep(r.log.At(num), e, i, s.f, ExtraPrepare(ev));
        if r.log.At(num).prepared {
          assert EntryOk(r.log.At(num), num);
          assert Prepared(s.replicas[i].log, num);
        } else {
          MatchingBacks(s', i, num);
        }
      }
    }
  }

  // ---- Memory of prepares, commits and decisions -----------------------------------------------

  /** State and summary facts the remaining steps share. */
  ghost predicate Facts(s: System, i: nat, ev: Event) {
    && CrashInv(s) && CanHandle(s, i, ev)
    && Inv(After(s, i, ev)) && HonestMessages(After(s, i, ev)) && PreparedBacked(After(s, i, ev))
    && LogOk(s.replicas[i].log)
    && AgreementStep(s.replicas[i], Handle(s.replicas[i], ev), Extra(ev))
    && Summary(s.replicas[i], Handle(s.replicas[i], ev), s.f, ExtraPrepare(ev))
    && (forall m :: m in Handle(s.replicas[i], ev).sent ==> m.from == i)
  }

  lemma EstablishFacts(s: System, i: nat, ev: Event)
    requires StepOk(s, i, ev)
    ensures Facts(s, i, ev) && RecordedPreparesSent(After(s, i, ev))
  {
    Summaries(s, i, ev);
    OutputClean(s, i, ev);
    HonestKept(s, i, ev);
    RecordedPreparesKept(s, i, ev);
    BackedKept(s, i, ev);
  }

  /** What a replica recorded stays recorded above its low water mark. */
  lemma RecordPersists(l: Log, l': Log, id: nat, f: nat, extra: Option<Message>, num: nat)
    requires LogStep(l, l', id, f, extra) && Recorded(l, num) && num > l'.low
    ensures Recorded(l', num) && l'.entries[num].prePrepare == l.entries[num].prePrepare
    ensures Tight(l.entries[num], f) ==> Tight(l'.entries[num], f)
    ensures l.entries[num].prepared ==> l'.entries[num].prepared
  {
    assert EntryStep(l.At(num), l'.entries[num], id, f, extra);
  }

  lemma StillRemembers(l: Log, l': Log, id: nat, f: nat, extra: Option<Message>, m: Message)
    requires LogStep(l, l', id, f, extra) && m.Prepare? && RemembersPrepare(l, m, f) && l.low <= l'.low
    ensures RemembersPrepare(l', m, f)
  {
    if m.num > l'.low {
      RecordPersists(l, l', id, f, extra, m.num);
    }
  }

  lemma PreparesRememberedKept(s: System, i: nat, ev: Event)
    requires Facts(s, i, ev)
    ensures PreparesRemembered(After(s, i, ev))
  {
    PreparesStayRemembered(s, i, ev, Handle(s.replicas[i], ev));
  }

  lemma PreparesStayRemembered(s: System, i: nat, ev: Event, o: Outcome)
    requires PreparesRemembered(s) && CanHandle(s, i, ev) && o == Handle(s.replicas[i], ev)
    requires LogStep(s.replicas[i].log, o.state.log, s.replicas[i].id, s.f, ExtraPrepare(ev))
    requires PreparesOnce(s.replicas[i], o, s.f) && s.replicas[i].log.low <= o.state.log.low
    requires forall m :: m in o.sent ==> m.from == i
    ensures PreparesRemembered(After(s, i, ev))
  {
    var r, s' := s.replicas[i], After(s, i, ev);
    forall m | m in s'.sent && m.Prepare? && m.from in s'.replicas
      ensures RemembersPrepare(s'.replicas[m.from].log, m, s'.f)
    {
      if m.from == i && m in s.sent {
        assert RemembersPrepare(r.log, m, s.f);
        StillRemembers(r.log, o.state.log, r.id, s.f, ExtraPrepare(ev), m);
      }
    }
  }

  /** A commit going out agrees with any prepare its replica ever sent for the number. */
  lemma NewCommitMatches(s: System, i: nat, ev: Event, p: Message, c: Message)
    requires Facts(s, i, ev) && p.Prepare? && c.Commit? && p.from == i && p.num == c.num
    requires p in After(s, i, ev).sent && c in Handle(s.replicas[i], ev).sent
    ensures p.digest == c.digest
  {
    var s' := After(s, i, ev);
    var l, l' := s.replicas[i].log, s'.replicas[i].log;
    assert c.num > l.low && Prepared(l', c.num) && Recorded(l', c.num);
    ReplayedNeverPrepares(s', i, c.num);
    assert EntryStep(l.At(c.num), l'.entries[c.num], i, s.f, ExtraPrepare(ev));
    if p in s.sent {
      assert RecordedAs(l, c.num, p.digest) && Tight(l.At(c.num), s.f);
    }
  }

  /** A prepare going out is for an entry just recorded, never for one already prepared or passed. */
  lemma NoPrepareAfterPrepared(s: System, i: nat, ev: Event, m: Message)
    requires Facts(s, i, ev) && m in Handle(s.replicas[i], ev).sent && m.Prepare?
    ensures m.num > s.replicas[i].log.low && !Prepared(s.replicas[i].log, m.num)
  {
    PreparedIsRecorded(s.replicas[i].log, m.num);
  }

  lemma PreparedIsRecorded(l: Log, num: nat)
    requires LogOk(l)
    ensures Prepared(l, num) ==> Recorded(l, num)
  {
    assert num in l.entries ==> EntryOk(l.entries[num], num);
  }

  lemma CommitsMatchKept(s: System, i: nat, ev: Event)
    requires Facts(s, i, ev)
    ensures CommitsMatchPrepares(After(s, i, ev))
  {
    var s' := After(s, i, ev);
    var l := s.replicas[i].log;
    forall p, c | p in s'.sent && c in s'.sent && p.Prepare? && c.Commit? && p.from == c.from && p.num == c.num
      ensures p.digest == c.digest
    {
      if c !in s.sent {
        NewCommitMatches(s, i, ev, p, c);
      } else if p !in s.sent {
        NoPrepareAfterPrepared(s, i, ev, p);
        assert false;
      }
    }
  }

  lemma DecisionsRememberedKept(s: System, i: nat, ev: Event)
    requires Facts(s, i, ev)
    ensures DecisionsRemembered(After(s, i, ev))
  {
    DecisionsRememberedStep(s, i, ev);
  }

  lemma DecisionsRememberedStep(s: System, i: nat, ev: Event)
    requires DecisionsRemembered(s) && CanHandle(s, i, ev) && LogOk(s.replicas[i].log)
    requires AgreementStep(s.replicas[i], Handle(s.replicas[i], ev), Extra(ev))
    requires Summary(s.replicas[i], Handle(s.replicas[i], ev), s.f, ExtraPrepare(ev)) && s.replicas[i].id == i
    ensures DecisionsRemembered(After(s, i, ev))
  {
    var s' := After(s, i, ev);
    var l, l' := s.replicas[i].log, s'.replicas[i].log;
    forall p | p in s'.decided
      ensures
        && p.0 in s'.replicas
        && var l' := s'.replicas[p.0].log;
           p.1.vote.num <= l'.low
               || (Prepared(l', p.1.vote.num) && l'.entries[p.1.vote.num].prePrepare == Some(p.1.vote))
    {
      if p in s.decided && p.0 == i && p.1.vote.num > l'.low {
        RecordPersists(l, l', i, s.f, ExtraPrepare(ev), p.1.vote.num);
      }
    }
  }

  /** A decision being made agrees with any prepare its replica ever sent for the number. */
  lemma NewDecisionMatches(s: System, i: nat, ev: Event, d: Decision, m: Message)
    requires Facts(s, i, ev) && Handle(s.replicas[i], ev).decided == Some(d)
    requires m in After(s, i, ev).sent && m.Prepare? && m.from == i && m.num == d.vote.num
    ensures m.digest == d.vote.digest
  {
    NewDecisionMatchesStep(s, i, ev, d, m);
  }

  lemma NewDecisionMatchesStep(s: System, i: nat, ev: Event, d: Decision, m: Message)
    requires CanHandle(s, i, ev) && Handle(s.replicas[i], ev).decided == Some(d)
    requires PreparesRemembered(s) && CrashSetting(After(s, i, ev))
    requires HonestMessages(After(s, i, ev)) && PreparedBacked(After(s, i, ev))
    requires Summary(s.replicas[i], Handle(s.replicas[i], ev), s.f, ExtraPrepare(ev)) && s.replicas[i].id == i
    requires m in After(s, i, ev).sent && m.Prepare? && m.from == i && m.num == d.vote.num
    ensures m.digest == d.vote.digest
  {
    var l, o := s.replicas[i].log, Handle(s.replicas[i], ev);
    ReplayedNeverPrepares(After(s, i, ev), i, m.num);
    if m in s.sent {
      RememberedDigest(l, o.state.log, i, s.f, ExtraPrepare(ev), m, d.vote);
    } else {
      assert m in o.sent;
    }
  }

  /** An entry keeps the digest of the prepare that was sent when it was recorded. */
  lemma RememberedDigest(l: Log, l': Log, id: nat, f: nat, extra: Option<Message>, m: Message, v: Vote)
    requires LogStep(l, l', id, f, extra) && m.Prepare? && RemembersPrepare(l, m, f) && m.num > l.low
    requires m.num in l'.entries && l'.entries[m.num].prePrepare == Some(v) && !RecordedAs(l', m.num, REPLAYED)
    ensures m.digest == v.digest
  {
    assert EntryStep(l.At(m.num), l'.entries[m.num], id, f, extra);
  }

  lemma DecisionsMatchKept(s: System, i: nat, ev: Event)
    requires Facts(s, i, ev)
    ensures DecisionsMatchPrepares(After(s, i, ev))
  {
    var s' := After(s, i, ev);
    var l := s.replicas[i].log;
    forall p, m | p in s'.decided && m in s'.sent && m.Prepare? && m.from == p.0 && m.num == p.1.vote.num
      ensures m.digest == p.1.vote.digest
    {
      if p !in s.decided {
        NewDecisionMatches(s, i, ev, p.1, m);
      } else if m !in s.sent {
        NoPrepareAfterPrepared(s, i, ev, m);
        assert false;
      }
    }
  }

  lemma NoOwnCommitKept(s: System, i: nat, ev: Event)
    requires Facts(s, i, ev)
    ensures NoOwnCommit(After(s, i, ev))
  {
    NoOwnCommitStep(s, i, ev);
  }

  lemma NoOwnCommitStep(s: System, i: nat, ev: Event)
    requires NoOwnCommit(s) && CanHandle(s, i, ev) && !s.loopback
    requires CommitsFrom(s.replicas[i].log, After(s, i, ev).replicas[i].log, Extra(ev))
    ensures NoOwnCommit(After(s, i, ev))
  {
    var s' := After(s, i, ev);
    forall k, num | k in s'.replicas && num in s'.replicas[k].log.entries
      ensures k !in s'.replicas[k].log.entries[num].commits
    {
      assert k != i ==> s'.replicas[k] == s.replicas[k];
    }
  }

  lemma BackedDecisionCertified(s: System, i: nat, d: Decision)
    requires Shape(s) && RecordedCommitsSent(s) && NoOwnCommit(s) && i in s.replicas
    requires DecisionBacked(s.replicas[i].log, d, s.f)
    ensures |CommitSenders(s, d.vote) - {i}| >= 2 * s.f + 1
  {
    var e := s.replicas[i].log.entries[d.vote.num];
    forall j | j in Matching(e.commits, d.vote)
      ensures j in CommitSenders(s, d.vote) - {i}
    {
      assert s.replicas[i].log.entries[d.vote.num].commits[j] == d.vote;
      var m := Commit(j, d.vote.view, d.vote.num, d.vote.digest);
      assert m in s.sent && m.from == j;
    }
    SubsetSize(Matching(e.commits, d.vote), CommitSenders(s, d.vote) - {i});
  }

  lemma NewDecisionCertified(s: System, i: nat, ev: Event, d: Decision)
    requires Facts(s, i, ev) && NoOwnCommit(After(s, i, ev)) && Handle(s.replicas[i], ev).decided == Some(d)
    ensures |CommitSenders(After(s, i, ev), d.vote) - {i}| >= 2 * s.f + 1
  {
    assert s.replicas[i].F() == s.f;
    BackedDecisionCertified(After(s, i, ev), i, d);
  }

  lemma CertifiedByOthersKept(s: System, i: nat, ev: Event)
    requires Facts(s, i, ev) && NoOwnCommit(After(s, i, ev))
    ensures CertifiedByOthers(After(s, i, ev))
  {
    var d := Handle(s.replicas[i], ev).decided;
    if d.Some? {
      NewDecisionCertified(s, i, ev, d.value);
    }
    CertifiedByOthersStep(s, i, ev);
  }

  lemma CertifiedByOthersStep(s: System, i: nat, ev: Event)
    requires CertifiedByOthers(s) && CanHandle(s, i, ev)
    requires
      var d := Handle(s.replicas[i], ev).decided;
      d.Some? ==> |CommitSenders(After(s, i, ev), d.value.vote) - {i}| >= 2 * s.f + 1
    ensures CertifiedByOthers(After(s, i, ev))
  {
    var s' := After(s, i, ev);
    forall p | p in s'.decided
      ensures |CommitSenders(s', p.1.vote) - {p.0}| >= 2 * s'.f + 1
    {
      if p in s.decided {
        SubsetSize(CommitSenders(s, p.1.vote) - {p.0}, CommitSenders(s', p.1.vote) - {p.0});
      }
    }
  }

  lemma CrashNextKeepsInv(s: System, s': System)
    requires CrashInv(s) && CrashNext(s, s')
    ensures CrashInv(s')
  {
    var i, ev :| CanHandle(s, i, ev) && s' == After(s, i, ev) && (ev.Propose? ==> ev.ts != 0);
    EstablishFacts(s, i, ev);
    PreparesRememberedKept(s, i, ev);
    CommitsMatchKept(s, i, ev);
    DecisionsRememberedKept(s, i, ev);
    DecisionsMatchKept(s, i, ev);
    NoOwnCommitKept(s, i, ev);
    CertifiedByOthersKept(s, i, ev);
  }

  lemma {:induction false} CrashRunKeepsInv(trace: seq<System>, k: nat)
    requires IsCrashRun(trace) && k < |trace|
    ensures CrashInv(trace[k])
  {
    if k == 0 {
      InitInv(trace[0]);
    } else {
      CrashRunKeepsInv(trace, k - 1);
      CrashRunStepKeepsInv(trace, k);
    }
  }

  lemma CrashRunStepKeepsInv(trace: seq<System>, k: nat)
    requires IsCrashRun(trace) && 0 < k < |trace| && CrashInv(trace[k - 1])
    ensures CrashInv(trace[k])
  {
    assert CrashStepOf(trace, k);
    CrashNextKeepsInv(trace[k - 1], trace[k]);
  }

  // ---- Main results ----------------------------------------------------------------------------

  /** Replicas that prepared another digest neither committed this one nor decided it. */
  lemma OtherPreparersAreOthers(s: System, p: (nat, Decision), d: Digest, w: nat)
    requires CrashInv(s) && p in s.decided && d != p.1.vote.digest && w in PrepareSenders(s, p.1.vote.num, d)
    ensures w in Cluster(s.n) && w != p.0 && w !in CommitSenders(s, p.1.vote)
  {
    var m :| m in s.sent && m.Prepare? && m.num == p.1.vote.num && m.digest == d && m.from == w;
    if w in CommitSenders(s, p.1.vote) {
      SameDigest(s, p.1.vote, d, w);
    }
  }

  lemma SameDigest(s: System, v: Vote, d: Digest, w: nat)
    requires CommitsMatchPrepares(s) && w in PrepareSenders(s, v.num, d) && w in CommitSenders(s, v)
    ensures d == v.digest
  {
    var m :| m in s.sent && m.Prepare? && m.num == v.num && m.digest == d && m.from == w;
    var c := Commit(w, v.view, v.num, v.digest);
    assert c in s.sent && c.from == m.from && c.num == m.num;
  }

  lemma ThreeDisjoint(a: set<nat>, b: set<nat>, x: nat, u: set<nat>)
    requires a <= u && b <= u && x in u && a * b == {} && x !in a && x !in b
    ensures |a| + |b| + 1 <= |u|
  {
    SubsetSize(a + b + {x}, u);
    assert |a + b| == |a| + |b|;
  }

  /** Once some replica committed a digest at a number, no log holds a prepared entry for another digest there. */
  lemma PreparedMatchesDecision(s: System, p: (nat, Decision), j: nat)
    requires CrashInv(s) && p in s.decided && j in s.replicas && Prepared(s.replicas[j].log, p.1.vote.num)
    ensures s.replicas[j].log.entries[p.1.vote.num].prePrepare.Some?
    ensures s.replicas[j].log.entries[p.1.vote.num].prePrepare.value.digest == p.1.vote.digest
  {
    var d := s.replicas[j].log.entries[p.1.vote.num].prePrepare.value.digest;
    if d != p.1.vote.digest {
      var b, q := PrepareSenders(s, p.1.vote.num, d) - {j}, CommitSenders(s, p.1.vote) - {p.0};
      forall w | w in b
        ensures w in Cluster(s.n) && w !in q && w != p.0
      {
        OtherPreparersAreOthers(s, p, d, w);
      }
      ClusterSize(s.n);
      ThreeDisjoint(b, q, p.0, Cluster(s.n));
      assert false;
    }
  }

  /** View-changes built by the replicas `senders` from one state. */
  ghost predicate BuiltFrom(s: System, newView: nat, senders: set<nat>, ms: set<Message>) {
    && senders <= s.replicas.Keys && ViewChanges(ms)
    && (forall i :: i in senders ==> exists m :: m in ms && m.from == i)
    && (forall m :: m in ms ==>
          && m.from in senders && m.newView == newView
          && m.lastStable == s.replicas[m.from].log.lastStable
          && s.replicas[m.from].PreparedCertificates(m.prepared))
  }

  /** Some view-change of 2f comes from a replica whose commit certified the decision. */
  lemma WitnessViewChange(s: System, p: (nat, Decision), newView: nat, senders: set<nat>, ms: set<Message>)
      returns (m: Message)
    requires CrashInv(s) && p in s.decided && BuiltFrom(s, newView, senders, ms) && |senders| == 2 * s.f
    ensures m in ms && Commit(m.from, p.1.vote.view, p.1.vote.num, p.1.vote.digest) in s.sent
  {
    var q := CommitSenders(s, p.1.vote);
    ClusterSize(s.n);
    Overlap(senders, q, Cluster(s.n));
    assert senders * q != {};
    var w :| w in senders * q;
    m :| m in ms && m.from == w;
  }

  /** That replica's view-change names a later stable checkpoint or certifies the decided number. */
  lemma WitnessCertificate(s: System, p: (nat, Decision), m: Message) returns (v: Vote)
    requires CrashInv(s) && p in s.decided && m.ViewChange? && m.from in s.replicas
    requires Commit(m.from, p.1.vote.view, p.1.vote.num, p.1.vote.digest) in s.sent
    requires m.lastStable == s.replicas[m.from].log.lastStable < p.1.vote.num
    requires s.replicas[m.from].PreparedCertificates(m.prepared)
    ensures v in m.prepared && v.num == p.1.vote.num
  {
    var c := Commit(m.from, p.1.vote.view, p.1.vote.num, p.1.vote.digest);
    assert LogOk(s.replicas[m.from].log) && c.num > s.replicas[m.from].log.low;
    assert Prepared(s.replicas[m.from].log, c.num);
    v := CertificateFor(s.replicas[m.from], m.prepared, c.num);
  }

  lemma CertificateFor(r: ReplicaState, certs: seq<Vote>, num: nat) returns (v: Vote)
    requires LogOk(r.log) && Prepared(r.log, num) && num > r.log.lastStable && r.PreparedCertificates(certs)
    ensures v in certs && v.num == num
  {
    assert EntryOk(r.log.entries[num], num);
    v := r.log.entries[num].prePrepare.value;
    assert num in r.log.PreparedEntries(r.log.lastStable);
  }

  lemma CertifiedDigest(s: System, p: (nat, Decision), newView: nat, senders: set<nat>, ms: set<Message>, v: Vote)
    requires CrashInv(s) && p in s.decided && BuiltFrom(s, newView, senders, ms)
    requires Certified(ms, v) && v.num == p.1.vote.num
    ensures v.digest == p.1.vote.digest
  {
    var m :| m in ms && v in m.prepared;
    var l := s.replicas[m.from].log;
    var num :| num in l.PreparedEntries(l.lastStable) && l.entries[num].prePrepare == Some(v);
    assert EntryOk(l.entries[num], num);
    PreparedMatchesDecision(s, p, m.from);
  }

  /**
   * Crash faults, f >= 1: if some replica has committed digest d at number s and 2f distinct replicas build their
   * view-changes from that state, then every new-view set a primary can compute from them starts above s, because
   * min-s >= s, or contains a re-proposal of s, and that re-proposal has digest d.
   */
  lemma NewViewCarriesCommits(trace: seq<System>, k: nat, p: (nat, Decision), newView: nat, senders: set<nat>,
                              ms: set<Message>, own: nat, minS: nat, maxS: nat, ps: seq<Proposal>)
    requires IsCrashRun(trace) && k < |trace| && p in trace[k].decided
    requires |senders| == 2 * trace[k].f && BuiltFrom(trace[k], newView, senders, ms)
    requires IsMinS(own, ms, minS) && IsMaxS(ms, maxS) && Covers(ms, minS, maxS, ps)
    ensures minS >= p.1.vote.num || exists x :: x in ps && x.num == p.1.vote.num && x.digest == p.1.vote.digest
  {
    CrashRunKeepsInv(trace, k);
    if minS < p.1.vote.num {
      ReproposalHasDigest(trace[k], p, newView, senders, ms, minS, maxS, ps);
    }
  }

  lemma ReproposalHasDigest(s: System, p: (nat, Decision), newView: nat, senders: set<nat>, ms: set<Message>,
                            minS: nat, maxS: nat, ps: seq<Proposal>)
    requires CrashInv(s) && p in s.decided && |senders| == 2 * s.f && BuiltFrom(s, newView, senders, ms)
    requires IsMaxS(ms, maxS) && Covers(ms, minS, maxS, ps)
    requires minS < p.1.vote.num && forall m :: m in ms ==> m.lastStable <= minS
    ensures exists x :: x in ps && x.num == p.1.vote.num && x.digest == p.1.vote.digest
  {
    var num := p.1.vote.num;
    var m := WitnessViewChange(s, p, newView, senders, ms);
    var v := WitnessCertificate(s, p, m);
    forall w | Certified(ms, w) && w.num == num
      ensures w.digest == p.1.vote.digest
    {
      CertifiedDigest(s, p, newView, senders, ms, w);
    }
    OnlyDigestIsChosen(ms, minS, maxS, ps, m, v, p.1.vote.digest);
  }

  /** When all certificates for a number agree on a digest, its re-proposal has that digest. */
  lemma OnlyDigestIsChosen(ms: set<Message>, minS: nat, maxS: nat, ps: seq<Proposal>, m: Message, v: Vote, d: Digest)
    requires ViewChanges(ms) && IsMaxS(ms, maxS) && Covers(ms, minS, maxS, ps)
    requires m in ms && v in m.prepared && v.num > minS
    requires forall w :: Certified(ms, w) && w.num == v.num ==> w.digest == d
    ensures exists x :: x in ps && x.num == v.num && x.digest == d
  {
    assert Certified(ms, v);
    var x := ps[v.num - minS - 1];
    assert x in ps && x.num == v.num && Chosen(ms, x.num, x.digest);
  }

  /** The counter never goes back, and entering a view puts it at or beyond every re-proposed number. */
  lemma {:induction false} ReplayKeepsCounter(r: ReplicaState, ps: seq<Proposal>)
    ensures r.ReplayAll(ps).state.counter == r.counter
  {
    if ps != [] {
      ReplayKeepsCounter(r, ps[..|ps| - 1]);
    }
  }

  lemma CounterIsMonotone(r: ReplicaState, ev: Event)
    requires Enabled(r, ev)
    ensures Handle(r, ev).state.counter >= r.counter
  {
    if ev.Receive? && ev.m.ViewChange? {
      ReplayKeepsCounter(r.(viewChangeMsgs := r.CollectViewChange(ev.m)).InView(ev.m.newView, MaxNum(ev.proposals)),
          ev.proposals);
    } else if ev.Receive? && ev.m.NewView? {
      ReplayKeepsCounter(r.InView(ev.m.newView, MaxNum(ev.m.proposals)), ev.m.proposals);
    } else if ev.Receive? && ev.m.PrePrepare? {
      EchoSettles(r, ev.m, r.log.At(ev.m.num).RecordPrePrepare(r.id, r.view, ev.m.ts).0);
    }
  }

  // ---- Re-proposed numbers over a run ----------------------------------------------------------

  lemma EnteringRaisesCounter(r: ReplicaState, newView: nat, ps: seq<Proposal>, k: nat)
    requires r.n > 0 && k < |ps|
    ensures r.EnterNewView(newView, ps).state.counter >= ps[k].num
  {
    ReplayKeepsCounter(r.InView(newView, MaxNum(ps)), ps);
    MaxNumBounds(ps, k);
  }

  /** The event makes the replica enter a view with these re-proposals, as its primary or on the primary's word. */
  ghost predicate EntersWith(r: ReplicaState, ev: Event, ps: seq<Proposal>) {
    && Enabled(r, ev) && ev.Receive?
    && ((ev.m.NewView? && ev.m.from == PrimaryOf(ev.m.newView, r.n) && ps == ev.m.proposals)
        || (ev.m.ViewChange? && r.CompletesViewChange(ev.m) && ps == ev.proposals))
  }

  lemma EventRaisesCounter(r: ReplicaState, ev: Event, ps: seq<Proposal>, k: nat)
    requires EntersWith(r, ev, ps) && k < |ps|
    ensures Handle(r, ev).state.counter >= ps[k].num
  {
    if ev.m.NewView? {
      EnteringRaisesCounter(r, ev.m.newView, ps, k);
    } else {
      EnteringRaisesCounter(r.(viewChangeMsgs := r.CollectViewChange(ev.m)), ev.m.newView, ps, k);
    }
  }

  lemma NextRaisesCounter(s: System, s': System, i: nat)
    requires Next(s, s') && i in s.replicas
    ensures i in s'.replicas && s'.replicas[i].counter >= s.replicas[i].counter
  {
    if CorrectStep(s, s') {
      var j, ev :| CanHandle(s, j, ev) && s' == After(s, j, ev);
      CounterIsMonotone(s.replicas[j], ev);
    }
  }

  ghost predicate StepGrows(trace: seq<System>, i: nat, b: nat)
    requires 0 < b < |trace|
  {
    i in trace[b - 1].replicas ==>
      i in trace[b].replicas && trace[b].replicas[i].counter >= trace[b - 1].replicas[i].counter
  }

  lemma StepRaisesCounter(trace: seq<System>, i: nat, b: nat)
    requires IsRun(trace) && 0 < b < |trace|
    ensures StepGrows(trace, i, b)
  {
    assert StepOf(trace, b);
    if i in trace[b - 1].replicas {
      NextRaisesCounter(trace[b - 1], trace[b], i);
    }
  }

  lemma {:induction false} CounterGrowsStepwise(trace: seq<System>, i: nat, a: nat, b: nat)
    requires a <= b < |trace| && i in trace[a].replicas && forall k: nat :: a < k <= b ==> StepGrows(trace, i, k)
    ensures i in trace[b].replicas && trace[b].replicas[i].counter >= trace[a].replicas[i].counter
    decreases b
  {
    if a < b {
      CounterGrowsStepwise(trace, i, a, b - 1);
      assert StepGrows(trace, i, b);
    }
  }

  lemma CounterGrows(trace: seq<System>, i: nat, a: nat, b: nat)
    requires IsRun(trace) && a <= b < |trace| && i in trace[a].replicas
    ensures i in trace[b].replicas && trace[b].replicas[i].counter >= trace[a].replicas[i].counter
  {
    forall k: nat | a < k <= b
      ensures StepGrows(trace, i, k)
    {
      StepRaisesCounter(trace, i, k);
    }
    CounterGrowsStepwise(trace, i, a, b);
  }

  /**
   * Over any run: once a replica entered a view with some re-proposals, every request it proposes later, in whatever
   * view, gets a number above all of theirs.
   */
  lemma ReproposedNotReassigned(trace: seq<System>, i: nat, a: nat, b: nat, ev: Event, ps: seq<Proposal>, ts: int,
      k: nat)
    requires IsRun(trace) && a < b < |trace| && i in trace[a].replicas && k < |ps|
    requires CanHandle(trace[a], i, ev) && trace[a + 1] == After(trace[a], i, ev)
        && EntersWith(trace[a].replicas[i], ev, ps)
    ensures i in trace[b].replicas
    ensures forall m :: m in trace[b].replicas[i].Propose(ts).sent ==> m.PrePrepare? && m.num > ps[k].num
  {
    EntryRaisesCounter(trace[a], i, ev, ps, k);
    CounterGrows(trace, i, a + 1, b);
    ProposesAbove(trace[b].replicas[i], ts, ps[k].num);
  }

  lemma EntryRaisesCounter(s: System, i: nat, ev: Event, ps: seq<Proposal>, k: nat)
    requires CanHandle(s, i, ev) && EntersWith(s.replicas[i], ev, ps) && k < |ps|
    ensures i in After(s, i, ev).replicas && After(s, i, ev).replicas[i].counter >= ps[k].num
  {
    EventRaisesCounter(s.replicas[i], ev, ps, k);
    assert After(s, i, ev).replicas[i] == Handle(s.replicas[i], ev).state;
  }

  lemma ProposesAbove(r: ReplicaState, ts: int, num: nat)
    requires r.counter >= num
    ensures forall m :: m in r.Propose(ts).sent ==> m.PrePrepare? && m.num > num
  {
  }
}
