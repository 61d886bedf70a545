/**
 * Agreement when one signature fits more than one message: a prepare and a commit of the same fields are signed alike,
 * and a pre-prepare's timestamp is not signed at all.
 */
module PbftSignatures {
  import opened Options
  import opened PbftMessages
  import opened PbftEntry
  import opened PbftLog
  import opened PbftDelivery
  import opened PbftNewView
  import opened PbftReplica
  import opened PbftSystem
  import opened PbftAgreement
  import opened PbftNewViewSafety
  import opened Quorum

  // ---- What a handler would have to check ------------------------------------------------------

  /**
   * Every vote a handler sends names the digest recorded for its number. A replayed entry records no request, so its
   * prepare is exempt and it must not lead to a commit.
   */
  ghost predicate FaithfulVotes(o: Outcome) {
    forall m :: m in o.sent ==>
      && (m.Prepare? ==> RecordedAs(o.state.log, m.num, m.digest) || RecordedAs(o.state.log, m.num, REPLAYED))
      && (m.Commit? ==> RecordedAs(o.state.log, m.num, m.digest) && !RecordedAs(o.state.log, m.num, REPLAYED))
  }

  /** The pre-prepare is the first for its number and gets an answer. */
  predicate Answers(r: ReplicaState, m: Message, connected: bool)
    requires m.PrePrepare? && r.n > 0
  {
    && !r.inViewChange && m.from == PrimaryOf(r.view, r.n) && r.log.WithinWaterMarks(m.num)
    && !r.log.At(m.num).sentPrepare && connected
  }

  /** The prepares recorded so far complete the pre-prepare at once. */
  predicate CompletesAtOnce(r: ReplicaState, m: Message)
    requires m.PrePrepare? && r.n > 0
  {
    r.log.At(m.num).RecordPrePrepare(r.id, r.view, m.ts).0.CheckPrepared(r.F()).1
  }

  /** The prepare completes its entry and gets an answer. */
  predicate Completes(r: ReplicaState, m: Message, connected: bool)
    requires m.Prepare? && r.n > 0
  {
    && !r.inViewChange && r.log.WithinWaterMarks(m.num) && connected
    && r.log.At(m.num).TryPrepare(r.F(), m.from, Vote(m.view, m.num, m.digest)).1
  }

  /**
   * The checks on arrival that the program leaves out: an answered pre-prepare has the digest of its timestamp, and a
   * prepare that completes an entry names that entry's digest, which is not the one of a replay.
   */
  ghost predicate DigestsChecked(r: ReplicaState, ev: Event)
    requires r.n > 0
  {
    ev.Receive? ==>
      match ev.m
      case PrePrepare(_, _, _, ts, digest) =>
        Answers(r, ev.m, ev.connected) ==>
          && (ts != 0 ==> digest == OfRequest(ts))
          && (CompletesAtOnce(r, ev.m) ==> ts != 0)
      case Prepare(_, _, num, digest) =>
        Completes(r, ev.m, ev.connected) ==>
          digest == r.log.At(num).prePrepare.value.digest && digest != REPLAYED
      case _ => true
  }

  lemma PrePrepareChecked(r: ReplicaState, m: Message, connected: bool, ps: seq<Proposal>)
    requires r.n > 0 && LogOk(r.log) && m.PrePrepare?
    ensures DigestsChecked(r, Receive(m, connected, ps)) <==> FaithfulVotes(r.OnPrePrepare(m, connected))
  {
    var o := r.OnPrePrepare(m, connected);
    var before := r.log.At(m.num);
    assert EntryOk(before, m.num);
    if Answers(r, m, connected) {
      var e := before.RecordPrePrepare(r.id, r.view, m.ts).0;
      var (e1, ready) := e.CheckPrepared(r.F());
      EchoSettles(r, m, e);
      AnswerChecked(o, r.id, m, ready);
    } else {
      assert o.sent == [];
    }
  }

  lemma AnswerChecked(o: Outcome, id: nat, m: Message, ready: bool)
    requires m.PrePrepare? && RecordedAs(o.state.log, m.num, OfRequest(m.ts))
    requires
      var prepare, commit := Prepare(id, m.view, m.num, m.digest), Commit(id, m.view, m.num, m.digest);
      o.sent == if ready then [prepare, commit] else [prepare]
    ensures FaithfulVotes(o) <==> (m.ts != 0 ==> m.digest == OfRequest(m.ts)) && (ready ==> m.ts != 0)
  {
    assert o.sent[0] in o.sent && (ready ==> o.sent[1] in o.sent);
  }

  lemma PrepareChecked(r: ReplicaState, m: Message, connected: bool, ps: seq<Proposal>)
    requires r.n > 0 && LogOk(r.log) && m.Prepare?
    ensures DigestsChecked(r, Receive(m, connected, ps)) <==> FaithfulVotes(r.OnPrepare(m, connected))
  {
    var o := r.OnPrepare(m, connected);
    assert EntryOk(r.log.At(m.num), m.num);
    if Completes(r, m, connected) {
      assert o.sent == [Commit(r.id, m.view, m.num, m.digest)];
      assert o.sent[0] in o.sent;
      assert RecordedAs(o.state.log, m.num, r.log.At(m.num).prePrepare.value.digest);
    } else {
      assert o.sent == [];
    }
  }

  /** For every event: the votes sent name the recorded digest exactly when the message passed the checks. */
  lemma ChecksAreExact(r: ReplicaState, ev: Event)
    requires Enabled(r, ev) && LogOk(r.log)
    ensures DigestsChecked(r, ev) <==> FaithfulVotes(Handle(r, ev))
  {
    if ev.Receive? && ev.m.PrePrepare? {
      PrePrepareChecked(r, ev.m, ev.connected, ev.proposals);
    } else if ev.Receive? && ev.m.Prepare? {
      PrepareChecked(r, ev.m, ev.connected, ev.proposals);
    } else {
      OthersAreFaithful(r, ev);
    }
  }

  lemma OthersAreFaithful(r: ReplicaState, ev: Event)
    requires Enabled(r, ev) && LogOk(r.log) && !(ev.Receive? && (ev.m.PrePrepare? || ev.m.Prepare?))
    ensures FaithfulVotes(Handle(r, ev))
  {
    if ev.Receive? && ev.m.ViewChange? && r.CompletesViewChange(ev.m) {
      ReplaysAreFaithful(r.(viewChangeMsgs := r.CollectViewChange(ev.m)), ev.m.newView, ev.proposals);
    } else if ev.Receive? && ev.m.NewView? {
      ReplaysAreFaithful(r, ev.m.newView, ev.m.proposals);
    }
  }

  lemma ReplaysAreFaithful(r: ReplicaState, newView: nat, ps: seq<Proposal>)
    requires r.n > 0 && LogOk(r.log)
    ensures FaithfulVotes(r.EnterNewView(newView, ps))
    ensures VotesFresh(r, r.EnterNewView(newView, ps))
  {
    ReplayEntries(r.InView(newView, MaxNum(ps)), ps);
    ReplayPreparesOnce(r.InView(newView, MaxNum(ps)), ps);
  }

  // ---- What every handler does, checked or not -------------------------------------------------

  /** A prepare goes out for a number above the mark that gets recorded by it, and only one for a number. */
  ghost predicate VotesFresh(r: ReplicaState, o: Outcome) {
    && (forall m :: m in o.sent && m.Prepare? ==>
          m.num > r.log.low && !Recorded(r.log, m.num) && Recorded(o.state.log, m.num))
    && (forall m, m' :: m in o.sent && m' in o.sent && m.Prepare? && m'.Prepare? && m.num == m'.num ==> m == m')
  }

  lemma {:induction false} ReplayPreparesOnce(r: ReplicaState, ps: seq<Proposal>)
    requires LogOk(r.log)
    ensures
      var o := r.ReplayAll(ps);
      forall m, m' :: m in o.sent && m' in o.sent && m.Prepare? && m'.Prepare? && m.num == m'.num ==> m == m'
  {
    if ps != [] {
      var before := r.ReplayAll(ps[..|ps| - 1]);
      ReplayPreparesOnce(r, ps[..|ps| - 1]);
      ReplayEntries(r, ps[..|ps| - 1]);
      ReplayOneEntries(before.state, ps[|ps| - 1]);
    }
  }

  lemma EchoFresh(r: ReplicaState, m: Message, connected: bool)
    requires r.n > 0 && LogOk(r.log) && m.PrePrepare?
    ensures var o := r.OnPrePrepare(m, connected); LogStep(r.log, o.state.log, r.id, r.F(), None) && VotesFresh(r, o)
  {
    var before := r.log.At(m.num);
    assert EntryOk(before, m.num);
    if Answers(r, m, connected) {
      AnswerFresh(r, m, before.RecordPrePrepare(r.id, r.view, m.ts).0);
    } else {
      var o := r.OnPrePrepare(m, connected);
      KeptSummary(r.log, r.id, r.F());
      RecordStep(before, r.id, r.view, m.ts, r.F());
      PutSummary(r.log, m.num, before.RecordPrePrepare(r.id, r.view, m.ts).0, r.id, r.F(), None);
      assert o.sent == [];
    }
  }

  lemma AnswerFresh(r: ReplicaState, m: Message, e: Entry)
    requires r.n > 0 && LogOk(r.log) && m.PrePrepare? && m.num > r.log.low && r.log.At(m.num).num == m.num
    requires !r.log.At(m.num).sentPrepare && r.log.At(m.num).prePrepare.None? && !r.log.At(m.num).prepared
    requires e == r.log.At(m.num).RecordPrePrepare(r.id, r.view, m.ts).0
    ensures var o := r.WithEntry(m.num, e).Echo(m); LogStep(r.log, o.state.log, r.id, r.F(), None) && VotesFresh(r, o)
  {
    EchoEntry(r.log.At(m.num), r.id, r.view, m.ts, r.F());
    EchoSettles(r, m, e);
    var (e1, ready) := e.CheckPrepared(r.F());
    var (e2, done) := e1.CheckCommitted(r.F());
    var prepare := Prepare(r.id, m.view, m.num, m.digest);
    if ready {
      SettledFresh(r, m, e2, done, [prepare, Commit(r.id, m.view, m.num, m.digest)]);
    } else {
      SettledFresh(r, m, e1, false, [prepare]);
    }
  }

  lemma SettledFresh(r: ReplicaState, m: Message, e: Entry, done: bool, sent: seq<Message>)
    requires r.n > 0 && m.PrePrepare? && m.num > r.log.low && r.log.At(m.num).prePrepare.None?
    requires EntryStep(r.log.At(m.num), e, r.id, r.F(), None) && e.prePrepare.Some?
    requires forall x :: x in sent && x.Prepare? ==> x == Prepare(r.id, m.view, m.num, m.digest)
    ensures var o := r.Settle(m.num, e, done, sent); LogStep(r.log, o.state.log, r.id, r.F(), None) && VotesFresh(r, o)
  {
    PutSummary(r.log, m.num, e, r.id, r.F(), None);
  }

  lemma ViewChangeFresh(r: ReplicaState, m: Message, ps: seq<Proposal>)
    requires r.n > 0 && LogOk(r.log) && m.ViewChange?
    ensures VotesFresh(r, r.OnViewChange(m, ps))
  {
    if r.CompletesViewChange(m) {
      ReplaysAreFaithful(r.(viewChangeMsgs := r.CollectViewChange(m)), m.newView, ps);
    }
  }

  lemma HandlerFresh(r: ReplicaState, ev: Event)
    requires Enabled(r, ev) && LogOk(r.log)
    ensures
      var o := Handle(r, ev);
      LogStep(r.log, o.state.log, r.id, r.F(), ExtraPrepare(ev)) && VotesFresh(r, o)
  {
    HandlerLogStep(r, ev);
    HandlerVotesFresh(r, ev);
  }

  lemma HandlerLogStep(r: ReplicaState, ev: Event)
    requires Enabled(r, ev) && LogOk(r.log)
    ensures LogStep(r.log, Handle(r, ev).state.log, r.id, r.F(), ExtraPrepare(ev))
  {
    KeptSummary(r.log, r.id, r.F());
    match ev
    case Receive(m, connected, ps) =>
      match m {
        case PrePrepare(_, _, _, _, _) => EchoFresh(r, m, connected);
        case Prepare(_, _, _, _) => PrepareSummary(r, m, connected);
        case Commit(_, _, _, _) => CommitSummary(r, m);
        case Checkpoint(_, _, _) => CollectSummary(r.log, m, r.id, r.F());
        case ViewChange(_, _, _, _) => ViewChangeSummary(r, m, ps);
        case NewView(_, _, _) => EnterSummary(r, m.newView, m.proposals);
      }
    case Propose(ts) => ProposeSummary(r, ts);
    case Deliver => DeliverSummary(r);
    case _ =>
  }

  lemma HandlerVotesFresh(r: ReplicaState, ev: Event)
    requires Enabled(r, ev) && LogOk(r.log)
    ensures VotesFresh(r, Handle(r, ev))
  {
    if ev.Receive? && ev.m.PrePrepare? {
      EchoFresh(r, ev.m, ev.connected);
    } else if ev.Receive? && ev.m.ViewChange? {
      ViewChangeFresh(r, ev.m, ev.proposals);
    } else if ev.Receive? && ev.m.NewView? {
      ReplaysAreFaithful(r, ev.m.newView, ev.m.proposals);
    } else {
      assert forall m :: m in Handle(r, ev).sent ==> !m.Prepare?;
    }
  }

  // ---- Runs in which correct replicas check ----------------------------------------------------

  ghost predicate CheckedStep(s: System, s': System) {
    exists i, ev :: CanHandle(s, i, ev) && s' == After(s, i, ev) && DigestsChecked(s.replicas[i], ev)
  }

  ghost predicate CheckedNext(s: System, s': System) {
    CheckedStep(s, s') || FaultyStep(s, s') || ReuseStep(s, s')
  }

  ghost predicate CheckedStepOf(trace: seq<System>, k: nat)
    requires 0 < k < |trace|
  {
    CheckedNext(trace[k - 1], trace[k])
  }

  ghost predicate IsCheckedRun(trace: seq<System>) {
    && trace != [] && Init(trace[0])
    && forall k :: 0 < k < |trace| ==> CheckedStepOf(trace, k)
  }

  lemma CheckedIsNext(s: System, s': System)
    requires CheckedNext(s, s')
    ensures Next(s, s')
  {
    if CheckedStep(s, s') {
      var i, ev :| CanHandle(s, i, ev) && s' == After(s, i, ev) && DigestsChecked(s.replicas[i], ev);
      assert CorrectStep(s, s');
    }
  }

  lemma CheckedIsRun(trace: seq<System>)
    requires IsCheckedRun(trace)
    ensures IsRun(trace)
  {
    forall k | 0 < k < |trace|
      ensures StepOf(trace, k)
    {
      assert CheckedStepOf(trace, k);
      CheckedIsNext(trace[k - 1], trace[k]);
    }
  }

  predicate IsVote(m: Message) {
    m.Prepare? || m.Commit?
  }

  /** A vote sent for a number above the mark has its entry recorded: under the digest it named, or as a replay. */
  ghost predicate Remembered(l: Log, m: Message)
    requires IsVote(m)
  {
    || m.num <= l.low
    || (RecordedAs(l, m.num, m.digest) && !RecordedAs(l, m.num, REPLAYED))
    || (RecordedAs(l, m.num, REPLAYED) && m.Prepare?)
  }

  ghost predicate NamesRemembered(s: System) {
    forall m :: m in s.own && IsVote(m) && m.from in s.replicas ==> Remembered(s.replicas[m.from].log, m)
  }

  /** All votes a correct replica sends for one number name one digest. */
  ghost predicate OneDigest(s: System) {
    forall m, m' ::
      (m in s.own && m' in s.own && IsVote(m) && IsVote(m') && m.from == m'.from && m.num == m'.num)
      ==> m.digest == m'.digest
  }

  ghost predicate CheckedInv(s: System) {
    Inv(s) && NamesRemembered(s) && OneDigest(s)
  }

  /** What the next lemmas use of a handler that checked. */
  ghost predicate CheckedFacts(r: ReplicaState, o: Outcome, extra: Option<Message>)
    requires r.n > 0
  {
    && LogStep(r.log, o.state.log, r.id, r.F(), extra) && VotesFresh(r, o) && FaithfulVotes(o)
    && CommitsOnce(r, o) && o.state.log.low >= r.log.low
  }

  lemma RememberedKept(r: ReplicaState, o: Outcome, extra: Option<Message>, m: Message)
    requires r.n > 0 && CheckedFacts(r, o, extra) && IsVote(m) && Remembered(r.log, m)
    ensures Remembered(o.state.log, m)
  {
    if m.num > o.state.log.low {
      assert EntryStep(r.log.At(m.num), o.state.log.entries[m.num], r.id, r.F(), extra);
    }
  }

  /** A new vote agrees with an earlier one for the same number. */
  lemma NewMatchesOld(r: ReplicaState, o: Outcome, extra: Option<Message>, m: Message, m': Message)
    requires r.n > 0 && CheckedFacts(r, o, extra) && IsVote(m) && IsVote(m') && m.num == m'.num
    requires m in o.sent && Remembered(r.log, m')
    ensures m.digest == m'.digest
  {
    assert m.num > r.log.low && Recorded(r.log, m.num);
    assert m.Commit?;
    assert EntryStep(r.log.At(m.num), o.state.log.entries[m.num], r.id, r.F(), extra);
  }

  lemma NewMatchesNew(r: ReplicaState, o: Outcome, extra: Option<Message>, m: Message, m': Message)
    requires r.n > 0 && CheckedFacts(r, o, extra) && IsVote(m) && IsVote(m') && m.num == m'.num
    requires m in o.sent && m' in o.sent
    ensures m.digest == m'.digest
  {
  }

  lemma CheckedVotesKept(s: System, i: nat, ev: Event, o: Outcome)
    requires NamesRemembered(s) && OneDigest(s) && CanHandle(s, i, ev) && o == Handle(s.replicas[i], ev)
    requires s.replicas[i].n > 0 && CheckedFacts(s.replicas[i], o, ExtraPrepare(ev))
    requires forall m :: m in o.sent ==> m.from == i
    ensures NamesRemembered(After(s, i, ev)) && OneDigest(After(s, i, ev))
  {
    var r, s' := s.replicas[i], After(s, i, ev);
    forall m | m in s'.own && IsVote(m) && m.from in s'.replicas
      ensures Remembered(s'.replicas[m.from].log, m)
    {
      if m in s.own && m.from == i {
        RememberedKept(r, o, ExtraPrepare(ev), m);
      }
    }
    forall m, m' | m in s'.own && m' in s'.own && IsVote(m) && IsVote(m') && m.from == m'.from && m.num == m'.num
      ensures m.digest == m'.digest
    {
      if m in o.sent && m' in o.sent {
        NewMatchesNew(r, o, ExtraPrepare(ev), m, m');
      } else if m in o.sent {
        NewMatchesOld(r, o, ExtraPrepare(ev), m, m');
      } else if m' in o.sent {
        NewMatchesOld(r, o, ExtraPrepare(ev), m', m);
      }
    }
  }

  lemma CheckedStepKeepsInv(s: System, i: nat, ev: Event)
    requires CheckedInv(s) && CanHandle(s, i, ev) && DigestsChecked(s.replicas[i], ev)
    ensures CheckedInv(After(s, i, ev))
  {
    var r := s.replicas[i];
    CorrectStepKeepsInv(s, i, ev);
    HandlerOutput(s, i, ev);
    HandlerChecked(r, ev);
    CheckedVotesKept(s, i, ev, Handle(r, ev));
  }

  lemma HandlerChecked(r: ReplicaState, ev: Event)
    requires Enabled(r, ev) && LogOk(r.log) && DigestsChecked(r, ev)
    ensures CheckedFacts(r, Handle(r, ev), ExtraPrepare(ev))
  {
    HandleStep(r, ev);
    HandlerFresh(r, ev);
    ChecksAreExact(r, ev);
  }

  lemma {:induction false} CheckedRunKeepsInv(trace: seq<System>, k: nat)
    requires IsCheckedRun(trace) && k < |trace|
    ensures CheckedInv(trace[k])
  {
    if k == 0 {
      InitInv(trace[0]);
    } else {
      CheckedRunKeepsInv(trace, k - 1);
      CheckedRunStepKeepsInv(trace, k);
    }
  }

  lemma CheckedRunStepKeepsInv(trace: seq<System>, k: nat)
    requires IsCheckedRun(trace) && 0 < k < |trace| && CheckedInv(trace[k - 1])
    ensures CheckedInv(trace[k])
  {
    assert CheckedStepOf(trace, k);
    CheckedNextKeepsInv(trace[k - 1], trace[k]);
  }

  lemma CheckedNextKeepsInv(s: System, s': System)
    requires CheckedInv(s) && CheckedNext(s, s')
    ensures CheckedInv(s')
  {
    if CheckedStep(s, s') {
      var i, ev :| CanHandle(s, i, ev) && s' == After(s, i, ev) && DigestsChecked(s.replicas[i], ev);
      CheckedStepKeepsInv(s, i, ev);
    } else {
      CheckedIsNext(s, s');
      NextKeepsInv(s, s');
    }
  }

  // ---- Agreement -------------------------------------------------------------------------------

  /** A correct replica that seems to have committed to a digest named it in a vote of its own. */
  lemma CommitWasNamed(s: System, w: nat, v: Vote) returns (m: Message)
    requires SentOwned(s) && w in s.replicas && w in CommitSenders(s, v)
    ensures m in s.own && IsVote(m) && m.from == w && m.num == v.num && m.digest == v.digest
  {
    var c := Commit(w, v.view, v.num, v.digest);
    assert Owned(s, c);
    m :| m in s.own && SignedPart(m) == SignedPart(c);
  }

  /** Over any run: either signatures are never reused, or correct replicas make the checks. */
  ghost predicate Guarded(trace: seq<System>) {
    trace != [] && if trace[0].reuse then IsCheckedRun(trace) else IsRun(trace)
  }

  /**
   * Two correct replicas that ever commit an entry at the same sequence number, in whatever views and however far
   * apart, hold the same digest and timestamp: in every run without reuse of signatures, and in every run with it
   * whose correct replicas check the digests on arrival.
   */
  lemma Agreement(trace: seq<System>, k: nat, i: nat, j: nat, d: Decision, d': Decision)
    requires Guarded(trace) && k < |trace|
    requires (i, d) in trace[k].decided && (j, d') in trace[k].decided && d.vote.num == d'.vote.num
    ensures d.vote.digest == d'.vote.digest && d.ts == d'.ts
  {
    if trace[0].reuse {
      CheckedRunKeepsInv(trace, k);
      var s := trace[k];
      assert (i, d).1 == d && (j, d').1 == d';
      var w := CorrectWitness(CommitSenders(s, d.vote), CommitSenders(s, d'.vote), s.faulty, s.n, s.f);
      var m := CommitWasNamed(s, w, d.vote);
      var m' := CommitWasNamed(s, w, d'.vote);
    } else {
      AgreementWithoutReuse(trace, k, i, j, d, d');
    }
  }

  /** Under the same condition correct replicas execute in increasing order and agree on every number both executed. */
  lemma ExecutionAgreement(trace: seq<System>, k: nat, i: nat, j: nat, a: nat, b: nat)
    requires Guarded(trace) && k < |trace| && i in trace[k].replicas && j in trace[k].replicas
    requires a < |trace[k].replicas[i].executed| && b < |trace[k].replicas[j].executed|
    requires trace[k].replicas[i].executed[a].num == trace[k].replicas[j].executed[b].num
    ensures trace[k].replicas[i].executed[a] == trace[k].replicas[j].executed[b]
    ensures Increasing(trace[k].replicas[i].executed)
  {
    if trace[0].reuse {
      CheckedIsRun(trace);
    }
    var d := ExecutedIsDecided(trace, k, i, a);
    var d' := ExecutedIsDecided(trace, k, j, b);
    Agreement(trace, k, i, j, d, d');
  }
}
