/** Agreement over every run and every view. */
module PbftAgreement {
  import opened Options
  import opened PbftMessages
  import opened PbftEntry
  import opened PbftLog
  import opened PbftDelivery
  import opened PbftNewView
  import opened PbftReplica
  import opened PbftSystem
  import opened Quorum

  ghost predicate Prepared(l: Log, num: nat) {
    num in l.entries && l.entries[num].prepared
  }

  /** A recorded pre-prepare carries the digest of the recorded timestamp. */
  ghost predicate EntryOk(e: Entry, num: nat) {
    && e.num == num
    && (e.sentPrepare <==> e.prePrepare.Some?)
    && (e.prePrepare.Some? ==> e.prePrepare.value.num == num && e.prePrepare.value.digest == OfRequest(e.ts))
    && (e.prepared ==> e.prePrepare.Some?)
  }

  ghost predicate LogOk(l: Log) {
    && l.low == l.lastStable
    && forall s :: s in l.entries ==> EntryOk(l.entries[s], s)
  }

  // ---- What one handler does, as far as agreement is concerned ---------------------------------

  /** Every commit vote in `l'` was in `l` or is the one vote `extra`. */
  ghost predicate CommitsFrom(l: Log, l': Log, extra: Option<Message>) {
    forall s, j :: s in l'.entries && j in l'.entries[s].commits ==>
      var v := l'.entries[s].commits[j];
      || (s in l.entries && j in l.entries[s].commits && l.entries[s].commits[j] == v)
      || (v.num == s && extra == Some(Commit(j, v.view, s, v.digest)))
  }

  /** The low water mark only grows and a prepared entry above it stays prepared. */
  ghost predicate Grows(l: Log, l': Log) {
    && l'.low >= l.low
    && (forall s :: s > l'.low && Prepared(l, s) ==> Prepared(l', s))
  }

  /** A commit is sent only when its entry becomes prepared, within the water marks. */
  ghost predicate CommitsOnce(r: ReplicaState, o: Outcome) {
    && (forall m :: m in o.sent && m.Commit? ==>
          m.from == r.id && m.num > r.log.low && !Prepared(r.log, m.num) && Prepared(o.state.log, m.num))
    && (forall m, m' :: m in o.sent && m' in o.sent && m.Commit? && m'.Commit? ==> m == m')
  }

  ghost predicate DecisionBacked(l: Log, d: Decision, f: nat) {
    && d.vote.digest == OfRequest(d.ts)
    && d.vote.num in l.entries
    && |Matching(l.entries[d.vote.num].commits, d.vote)| >= 2 * f + 1
  }

  ghost predicate AgreementStep(r: ReplicaState, o: Outcome, extra: Option<Message>) {
    && o.state.id == r.id && o.state.n == r.n
    && LogOk(o.state.log)
    && Grows(r.log, o.state.log)
    && CommitsFrom(r.log, o.state.log, extra)
    && CommitsOnce(r, o)
    && (r.n > 0 && o.decided.Some? ==> DecisionBacked(o.state.log, o.decided.value, r.F()))
  }

  /** Updating one entry, the way every vote handler does. */
  lemma PutStep(l: Log, num: nat, e: Entry, extra: Option<Message>)
    requires LogOk(l) && EntryOk(e, num)
    requires l.At(num).prepared ==> e.prepared
    requires forall j :: j in e.commits ==>
               || (j in l.At(num).commits && l.At(num).commits[j] == e.commits[j])
               || (e.commits[j].num == num && extra == Some(Commit(j, e.commits[j].view, num, e.commits[j].digest)))
    ensures LogOk(l.Put(num, e)) && Grows(l, l.Put(num, e)) && CommitsFrom(l, l.Put(num, e), extra)
  {
  }

  /** Every vote handler ends by settling its entry. */
  lemma SettleStep(r: ReplicaState, num: nat, e: Entry, done: bool, sent: seq<Message>, extra: Option<Message>)
    requires r.n > 0 && LogOk(r.log) && EntryOk(e, num) && num > r.log.low
    requires r.log.At(num).prepared ==> e.prepared
    requires forall j :: j in e.commits ==>
               || (j in r.log.At(num).commits && r.log.At(num).commits[j] == e.commits[j])
               || (e.commits[j].num == num && extra == Some(Commit(j, e.commits[j].view, num, e.commits[j].digest)))
    requires forall m :: m in sent && m.Commit? ==>
               m.from == r.id && m.num == num && e.prepared && !r.log.At(num).prepared
    requires forall m, m' :: m in sent && m' in sent && m.Commit? && m'.Commit? ==> m == m'
    requires done ==> e.prePrepare.Some? && |Matching(e.commits, e.prePrepare.value)| >= 2 * r.F() + 1
    ensures AgreementStep(r, r.Settle(num, e, done, sent), extra)
  {
    PutStep(r.log, num, e, extra);
  }

  lemma EchoSettles(r: ReplicaState, m: Message, e: Entry)
    requires r.n > 0 && m.PrePrepare?
    ensures
      var (e1, ready) := e.CheckPrepared(r.F());
      var (e2, done) := e1.CheckCommitted(r.F());
      r.WithEntry(m.num, e).Echo(m) ==
      if ready then r.Settle(m.num, e2, done,
          [Prepare(r.id, m.view, m.num, m.digest), Commit(r.id, m.view, m.num, m.digest)])
      else r.Settle(m.num, e1, false, [Prepare(r.id, m.view, m.num, m.digest)])
  {
    var (e1, ready) := e.CheckPrepared(r.F());
    var (e2, done) := e1.CheckCommitted(r.F());
    PutTwice(r.log, m.num, e, e1);
    PutTwice(r.log, m.num, e1, e2);
  }

  lemma CheckedOk(e: Entry, num: nat, f: nat)
    requires EntryOk(e, num)
    ensures
      var (e1, ready) := e.CheckPrepared(f);
      var (e2, done) := e1.CheckCommitted(f);
      && EntryOk(e1, num) && EntryOk(e2, num) && e1.commits == e.commits == e2.commits
      && (e.prepared ==> e1.prepared) && (ready ==> e1.prepared) && e2.prepared == e1.prepared
      && (done ==> e2.prePrepare.Some? && |Matching(e2.commits, e2.prePrepare.value)| >= 2 * f + 1)
  {
  }

  lemma EchoStep(r: ReplicaState, m: Message, e: Entry)
    requires r.n > 0 && LogOk(r.log) && m.PrePrepare? && r.log.WithinWaterMarks(m.num)
    requires EntryOk(e, m.num) && !r.log.At(m.num).prepared && e.commits == r.log.At(m.num).commits
    ensures AgreementStep(r, r.WithEntry(m.num, e).Echo(m), None)
  {
    EchoSettles(r, m, e);
    var (e1, ready) := e.CheckPrepared(r.F());
    var (e2, done) := e1.CheckCommitted(r.F());
    var prepare := Prepare(r.id, m.view, m.num, m.digest);
    CheckedOk(e, m.num, r.F());
    if ready {
      SettleStep(r, m.num, e2, done, [prepare, Commit(r.id, m.view, m.num, m.digest)], None);
    } else {
      SettleStep(r, m.num, e1, false, [prepare], None);
    }
  }

  lemma PrePrepareStep(r: ReplicaState, m: Message, connected: bool)
    requires r.n > 0 && LogOk(r.log) && m.PrePrepare?
    ensures AgreementStep(r, r.OnPrePrepare(m, connected), None)
  {
    var before := r.log.At(m.num);
    assert EntryOk(before, m.num);
    var (e, first) := before.RecordPrePrepare(r.id, r.view, m.ts);
    PutStep(r.log, m.num, e, None);
    if r.log.WithinWaterMarks(m.num) && first {
      EchoStep(r, m, e);
    }
  }

  lemma TriedOk(e: Entry, f: nat, m: Message)
    requires m.Prepare? && EntryOk(e, m.num)
    ensures
      var (e', ready) := e.TryPrepare(f, m.from, Vote(m.view, m.num, m.digest));
      && EntryOk(e', m.num) && e'.commits == e.commits && (e.prepared ==> e'.prepared)
      && (ready ==> e'.prepared && !e.prepared)
  {
  }

  lemma CommittedOk(e: Entry, f: nat, m: Message)
    requires m.Commit? && EntryOk(e, m.num)
    ensures
      var v := Vote(m.view, m.num, m.digest);
      var (e', done) := e.TryCommit(f, m.from, v);
      && EntryOk(e', m.num) && e'.prepared == e.prepared
      && (e'.commits == e.commits || e'.commits == e.commits[m.from := v])
      && (done ==> e'.prePrepare.Some? && |Matching(e'.commits, e'.prePrepare.value)| >= 2 * f + 1)
  {
  }

  lemma PrepareStep(r: ReplicaState, m: Message, connected: bool)
    requires r.n > 0 && LogOk(r.log) && m.Prepare?
    ensures AgreementStep(r, r.OnPrepare(m, connected), None)
  {
    assert EntryOk(r.log.At(m.num), m.num);
    if !r.inViewChange && r.log.WithinWaterMarks(m.num) {
      var (e, ready) := r.log.At(m.num).TryPrepare(r.F(), m.from, Vote(m.view, m.num, m.digest));
      TriedOk(r.log.At(m.num), r.F(), m);
      SettleStep(r, m.num, e, false,
                 if ready && connected then [Commit(r.id, m.view, m.num, m.digest)] else [], None);
    }
  }

  lemma CommitStep(r: ReplicaState, m: Message)
    requires r.n > 0 && LogOk(r.log) && m.Commit?
    ensures AgreementStep(r, r.OnCommit(m), Some(m))
  {
    assert EntryOk(r.log.At(m.num), m.num);
    if !r.inViewChange && r.log.WithinWaterMarks(m.num) {
      var (e, done) := r.log.At(m.num).TryCommit(r.F(), m.from, Vote(m.view, m.num, m.digest));
      CommittedOk(r.log.At(m.num), r.F(), m);
      SettleStep(r, m.num, e, done, [], Some(m));
    }
  }

  /** Recording a checkpoint vote only removes entries at or below the new low water mark. */
  lemma CheckpointStep(l: Log, m: Message, f: nat)
    requires LogOk(l) && m.Checkpoint?
    ensures
      var l' := l.RecordCheckpoint(m, f).0;
      LogOk(l') && Grows(l, l') && CommitsFrom(l, l', None)
  {
  }

  lemma ProposeStep(r: ReplicaState, ts: int)
    requires LogOk(r.log)
    ensures AgreementStep(r, r.Propose(ts), None)
  {
    var num := r.counter + 1;
    var (e, first) := r.log.At(num).RecordPrePrepare(r.id, r.view, ts);
    RecordedOk(r.log.At(num), r.id, r.view, ts, num);
    PutStep(r.log, num, e, None);
    assert r.Propose(ts).state.log == r.log.Put(num, e);
  }

  lemma RecordedOk(e: Entry, id: nat, view: nat, ts: int, num: nat)
    requires EntryOk(e, num)
    ensures var e' := e.RecordPrePrepare(id, view, ts).0;
            EntryOk(e', num) && e'.prepared == e.prepared && e'.commits == e.commits
  {
  }

  lemma ReplayOneStep(r: ReplicaState, p: Proposal)
    requires LogOk(r.log)
    ensures
      var o := r.ReplayOne(p);
      && o.state == r.(log := o.state.log)
      && LogOk(o.state.log) && Grows(r.log, o.state.log) && CommitsFrom(r.log, o.state.log, None)
      && o.decided.None? && (forall m :: m in o.sent ==> !m.Commit?)
  {
    var e := r.log.At(p.num).RecordPrePrepare(r.id, r.view, 0).0;
    RecordedOk(r.log.At(p.num), r.id, r.view, 0, p.num);
    PutStep(r.log, p.num, e, None);
  }

  /** Entering a view replays re-proposals; replay records entries but sends no commit and commits nothing. */
  lemma {:induction false} ReplayStep(r: ReplicaState, ps: seq<Proposal>)
    requires LogOk(r.log)
    ensures
      var o := r.ReplayAll(ps);
      && o.state == r.(log := o.state.log)
      && LogOk(o.state.log) && Grows(r.log, o.state.log) && CommitsFrom(r.log, o.state.log, None)
      && o.decided.None? && (forall m :: m in o.sent ==> !m.Commit?)
  {
    if ps != [] {
      ReplayStep(r, ps[..|ps| - 1]);
      var mid := r.ReplayAll(ps[..|ps| - 1]).state;
      var p := ps[|ps| - 1];
      ReplayOneStep(mid, p);
    }
  }

  lemma EnterNewViewStep(r: ReplicaState, newView: nat, ps: seq<Proposal>)
    requires r.n > 0 && LogOk(r.log)
    ensures AgreementStep(r, r.EnterNewView(newView, ps), None)
    ensures var s := r.EnterNewView(newView, ps).state;
        s.deliverCh == r.deliverCh && s.buffer == r.buffer && s.executed == r.executed
    ensures forall m :: m in r.EnterNewView(newView, ps).sent ==> !m.Commit?
    ensures r.EnterNewView(newView, ps).decided.None?
  {
    ReplayStep(r.InView(newView, MaxNum(ps)), ps);
  }

  lemma ViewChangeStep(r: ReplicaState, m: Message, ps: seq<Proposal>)
    requires r.n > 0 && LogOk(r.log) && m.ViewChange?
    ensures AgreementStep(r, r.OnViewChange(m, ps), None)
    ensures var s := r.OnViewChange(m, ps).state;
        s.deliverCh == r.deliverCh && s.buffer == r.buffer && s.executed == r.executed
    ensures r.OnViewChange(m, ps).decided.None?
  {
    var s := r.(viewChangeMsgs := r.CollectViewChange(m));
    EnterNewViewStep(s, m.newView, ps);
  }

  lemma DeliverNextStep(r: ReplicaState)
    requires r.n > 0 && LogOk(r.log)
    ensures AgreementStep(r, r.DeliverNext(), None)
  {
    var b := r.buffer.SkipTo(r.log.low);
    if b.Ready() && ShouldCheckpoint(b.pending[b.next].num) {
      var e := b.pending[b.next];
      CheckpointStep(r.log, Checkpoint(r.id, e.num, OfState(e.num)), r.F());
    }
  }

  ghost function Extra(ev: Event): Option<Message> {
    if ev.Receive? && ev.m.Commit? then Some(ev.m) else None
  }

  lemma HandleStep(r: ReplicaState, ev: Event)
    requires Enabled(r, ev) && LogOk(r.log)
    ensures AgreementStep(r, Handle(r, ev), Extra(ev))
  {
    match ev
    case Receive(m, connected, ps) =>
      match m {
        case PrePrepare(_, _, _, _, _) => PrePrepareStep(r, m, connected);
        case Prepare(_, _, _, _) => PrepareStep(r, m, connected);
        case Commit(_, _, _, _) => CommitStep(r, m);
        case Checkpoint(_, _, _) => CheckpointStep(r.log, m, r.F());
        case ViewChange(_, _, _, _) => ViewChangeStep(r, m, ps);
        case NewView(_, _, _) =>
          if m.from == PrimaryOf(m.newView, r.n) { EnterNewViewStep(r, m.newView, m.proposals); }
      }
    case Propose(ts) => ProposeStep(r, ts);
    case Deliver => DeliverNextStep(r);
    case _ =>
  }

  // ---- Ordered delivery inside the cluster -----------------------------------------------------

  /** Entries on their way to execution or already executed. */
  ghost predicate Known(r: ReplicaState, e: Delivery) {
    || e in r.deliverCh
    || (e.num in r.buffer.pending && r.buffer.pending[e.num] == e)
    || e in r.executed
  }

  ghost predicate DeliveryOk(r: ReplicaState) {
    && WellFormed(r.buffer) && Increasing(r.executed)
    && (forall e :: e in r.executed ==> e.num < r.buffer.next)
  }

  ghost predicate DeliveryStep(r: ReplicaState, o: Outcome) {
    && DeliveryOk(o.state)
    && (forall e :: Known(o.state, e) ==>
          Known(r, e) || (o.decided.Some? && e == Delivery(o.decided.value.vote.num, o.decided.value.ts)))
  }

  /** The vote handlers only append the entry that committed. */
  ghost predicate Appends(r: ReplicaState, o: Outcome) {
    && o.state.buffer == r.buffer && o.state.executed == r.executed
    && o.state.deliverCh == r.deliverCh
         + if o.decided.Some? then [Delivery(o.decided.value.vote.num, o.decided.value.ts)] else []
  }

  lemma AppendingDelivers(r: ReplicaState, o: Outcome)
    requires DeliveryOk(r) && Appends(r, o)
    ensures DeliveryStep(r, o)
  {
  }

  lemma PrePrepareAppends(r: ReplicaState, m: Message, connected: bool)
    requires r.n > 0 && LogOk(r.log) && m.PrePrepare?
    ensures Appends(r, r.OnPrePrepare(m, connected))
  {
    assert EntryOk(r.log.At(m.num), m.num);
    EchoSettles(r, m, r.log.At(m.num).RecordPrePrepare(r.id, r.view, m.ts).0);
  }

  lemma PrepareAppends(r: ReplicaState, m: Message, connected: bool)
    requires r.n > 0 && m.Prepare?
    ensures Appends(r, r.OnPrepare(m, connected))
  {
  }

  lemma CommitAppends(r: ReplicaState, m: Message)
    requires r.n > 0 && LogOk(r.log) && m.Commit?
    ensures Appends(r, r.OnCommit(m))
  {
    assert EntryOk(r.log.At(m.num), m.num);
  }

  lemma MessageAppends(r: ReplicaState, ev: Event)
    requires Enabled(r, ev) && LogOk(r.log) && ev.Receive?
    ensures Appends(r, Handle(r, ev))
  {
    var m := ev.m;
    match m
    case PrePrepare(_, _, _, _, _) => PrePrepareAppends(r, m, ev.connected);
    case Prepare(_, _, _, _) => PrepareAppends(r, m, ev.connected);
    case Commit(_, _, _, _) => CommitAppends(r, m);
    case ViewChange(_, _, _, _) => ViewChangeStep(r, m, ev.proposals);
    case NewView(_, _, _) => EnterNewViewStep(r, m.newView, m.proposals);
    case Checkpoint(_, _, _) =>
  }

  lemma SkippingKeeps(b: Buffer, mark: nat)
    requires WellFormed(b)
    ensures
      var b' := b.SkipTo(mark);
      && WellFormed(b') && b'.next >= b.next
      && forall k :: k in b'.pending ==> k in b.pending && b'.pending[k] == b.pending[k]
  {
  }

  lemma DeliverDelivers(r: ReplicaState)
    requires r.n > 0 && DeliveryOk(r)
    ensures DeliveryStep(r, r.DeliverNext())
  {
    var b, o := r.buffer.SkipTo(r.log.low), r.DeliverNext();
    SkippingKeeps(r.buffer, r.log.low);
    assert o.state.deliverCh == r.deliverCh && o.decided.None?;
    if b.Ready() {
      var e := b.pending[b.next];
      assert e.num == b.next && o.state.buffer == b.Pop() && o.state.executed == r.executed + [e];
    } else {
      assert o.state.buffer == b && o.state.executed == r.executed;
    }
  }

  lemma TakeDelivers(r: ReplicaState)
    requires DeliveryOk(r) && r.deliverCh != []
    ensures DeliveryStep(r, r.Take())
  {
  }

  lemma HandleDelivers(r: ReplicaState, ev: Event)
    requires Enabled(r, ev) && LogOk(r.log) && DeliveryOk(r)
    ensures DeliveryStep(r, Handle(r, ev))
  {
    if ev.Take? {
      TakeDelivers(r);
    } else if ev.Deliver? {
      DeliverDelivers(r);
    } else {
      if ev.Receive? {
        MessageAppends(r, ev);
      }
      AppendingDelivers(r, Handle(r, ev));
    }
  }

  // ---- The cluster invariant -------------------------------------------------------------------

  ghost predicate Shape(s: System) {
    && s.n == 3 * s.f + 1
    && s.faulty <= Cluster(s.n) && |s.faulty| <= s.f
    && s.replicas.Keys == Cluster(s.n) - s.faulty
    && (forall m :: m in s.sent ==> m.from in Cluster(s.n))
  }

  ghost predicate Locals(s: System) {
    forall i :: i in s.replicas ==>
      && s.replicas[i].id == i && s.replicas[i].n == s.n
      && LogOk(s.replicas[i].log) && DeliveryOk(s.replicas[i])
  }

  /** Whatever carries a correct replica's signature has the signed part of a message it sent itself. */
  ghost predicate Owned(s: System, m: Message) {
    exists m' :: m' in s.own && SignedPart(m') == SignedPart(m)
  }

  ghost predicate SentOwned(s: System) {
    && (forall m {:trigger Owned(s, m)} :: m in s.sent && m.from in s.replicas ==> Owned(s, m))
    && (!s.reuse ==> forall m :: m in s.sent && m.from in s.replicas ==> m in s.own)
    && (forall m :: m in s.own ==> m in s.sent && m.from in s.replicas)
  }

  /** A correct replica that sent a commit has that entry prepared, or is past it. */
  ghost predicate CommitsRemembered(s: System) {
    forall m :: m in s.own && m.Commit? && m.from in s.replicas ==>
      m.num <= s.replicas[m.from].log.low || Prepared(s.replicas[m.from].log, m.num)
  }

  /** Hence it sends at most one commit per sequence number over the whole run. */
  ghost predicate OneCommitEach(s: System) {
    forall m, m' ::
      (m in s.own && m' in s.own && m.Commit? && m'.Commit?
       && m.from == m'.from && m.from in s.replicas && m.num == m'.num)
      ==> m == m'
  }

  ghost predicate RecordedCommitsSent(s: System) {
    forall i, num, j ::
      i in s.replicas && num in s.replicas[i].log.entries && j in s.replicas[i].log.entries[num].commits ==>
      var v := s.replicas[i].log.entries[num].commits[j];
      v.num == num && Commit(j, v.view, num, v.digest) in s.sent
  }

  ghost function CommitSenders(s: System, v: Vote): set<nat> {
    set j | j in Cluster(s.n) && Commit(j, v.view, v.num, v.digest) in s.sent
  }

  /** Every decision is certified by the commits of 2f+1 replicas. */
  ghost predicate DecisionsCertified(s: System) {
    forall p :: p in s.decided ==>
      && p.0 in s.replicas
      && p.1.vote.digest == OfRequest(p.1.ts)
      && |CommitSenders(s, p.1.vote)| >= 2 * s.f + 1
  }

  /** Only decided entries are queued or executed. */
  ghost predicate KnownDecided(s: System) {
    forall i, e :: i in s.replicas && Known(s.replicas[i], e) ==>
      exists d :: (i, d) in s.decided && e == Delivery(d.vote.num, d.ts)
  }

  ghost predicate Inv(s: System) {
    && Shape(s) && Locals(s) && SentOwned(s)
    && CommitsRemembered(s) && OneCommitEach(s) && RecordedCommitsSent(s) && DecisionsCertified(s) && KnownDecided(s)
  }

  lemma InitInv(s: System)
    requires Init(s)
    ensures Inv(s)
  {
  }

  lemma SendersGrow(s: System, s': System, v: Vote)
    requires s'.n == s.n && s.sent <= s'.sent
    ensures |CommitSenders(s', v)| >= |CommitSenders(s, v)|
  {
    SubsetSize(CommitSenders(s, v), CommitSenders(s', v));
  }

  /** Everything in a list of messages comes from one replica. */
  ghost predicate AllFrom(sent: seq<Message>, id: nat) {
    forall m :: m in sent ==> m.from == id
  }

  lemma HandlerOutput(s: System, i: nat, ev: Event)
    requires Inv(s) && CanHandle(s, i, ev)
    ensures forall m :: m in Handle(s.replicas[i], ev).sent ==> m.from == i
  {
    assert s.replicas[i].id == i;
    HandlerSenders(s.replicas[i], ev);
  }

  lemma HandlerSenders(r: ReplicaState, ev: Event)
    requires Enabled(r, ev)
    ensures AllFrom(Handle(r, ev).sent, r.id)
  {
    match ev
    case Receive(m, connected, ps) => MessageSenders(r, m, connected, ps);
    case Deliver => DeliverSenders(r);
    case _ =>
  }

  lemma MessageSenders(r: ReplicaState, m: Message, connected: bool, ps: seq<Proposal>)
    requires Enabled(r, Receive(m, connected, ps))
    ensures AllFrom(Handle(r, Receive(m, connected, ps)).sent, r.id)
  {
    match m
    case PrePrepare(_, _, _, _, _) => PrePrepareSenders(r, m, connected);
    case ViewChange(_, _, _, _) => ViewChangeSenders(r, m, ps);
    case NewView(_, _, _) => ReplaySenders(r.InView(m.newView, MaxNum(m.proposals)), m.proposals);
    case _ =>
  }

  lemma PrePrepareSenders(r: ReplicaState, m: Message, connected: bool)
    requires r.n > 0 && m.PrePrepare?
    ensures AllFrom(r.OnPrePrepare(m, connected).sent, r.id)
  {
  }

  lemma ViewChangeSenders(r: ReplicaState, m: Message, ps: seq<Proposal>)
    requires r.n > 0 && m.ViewChange?
    ensures AllFrom(r.OnViewChange(m, ps).sent, r.id)
  {
    ReplaySenders(r.(viewChangeMsgs := r.CollectViewChange(m)).InView(m.newView, MaxNum(ps)), ps);
  }

  lemma DeliverSenders(r: ReplicaState)
    requires r.n > 0
    ensures AllFrom(r.DeliverNext().sent, r.id)
  {
  }

  lemma {:induction false} ReplaySenders(r: ReplicaState, ps: seq<Proposal>)
    ensures r.ReplayAll(ps).state.id == r.id
    ensures forall m :: m in r.ReplayAll(ps).sent ==> m.from == r.id
  {
    if ps != [] {
      ReplaySenders(r, ps[..|ps| - 1]);
    }
  }

  lemma CommitVotesKept(s: System, i: nat, ev: Event)
    requires Inv(s) && CanHandle(s, i, ev)
    ensures var s' := After(s, i, ev); CommitsRemembered(s') && OneCommitEach(s')
  {
    HandleStep(s.replicas[i], ev);
    HandlerOutput(s, i, ev);
    CommitVotesStep(s, i, ev);
  }

  lemma CommitVotesStep(s: System, i: nat, ev: Event)
    requires CommitsRemembered(s) && OneCommitEach(s) && CanHandle(s, i, ev) && s.replicas[i].id == i
    requires AgreementStep(s.replicas[i], Handle(s.replicas[i], ev), Extra(ev))
    requires forall m :: m in Handle(s.replicas[i], ev).sent ==> m.from == i
    ensures var s' := After(s, i, ev); CommitsRemembered(s') && OneCommitEach(s')
  {
    var s' := After(s, i, ev);
    forall m | m in s'.own && m.Commit? && m.from in s'.replicas
      ensures m.num <= s'.replicas[m.from].log.low || Prepared(s'.replicas[m.from].log, m.num)
    {
    }
    forall m, m' | m in s'.own && m' in s'.own && m.Commit? && m'.Commit? && m.from == m'.from && m.from in s'.replicas
                   && m.num == m'.num
      ensures m == m'
    {
    }
  }

  lemma RecordsKept(s: System, i: nat, ev: Event)
    requires Inv(s) && CanHandle(s, i, ev)
    ensures RecordedCommitsSent(After(s, i, ev))
  {
    HandleStep(s.replicas[i], ev);
    RecordsStep(s, i, ev);
  }

  lemma RecordsStep(s: System, i: nat, ev: Event)
    requires RecordedCommitsSent(s) && CanHandle(s, i, ev)
    requires CommitsFrom(s.replicas[i].log, Handle(s.replicas[i], ev).state.log, Extra(ev))
    ensures RecordedCommitsSent(After(s, i, ev))
  {
    var r, s' := s.replicas[i], After(s, i, ev);
    forall k, num, j | k in s'.replicas && num in s'.replicas[k].log.entries
        && j in s'.replicas[k].log.entries[num].commits
      ensures
        var v := s'.replicas[k].log.entries[num].commits[j];
        v.num == num && Commit(j, v.view, num, v.digest) in s'.sent
    {
      if k != i {
        assert s'.replicas[k] == s.replicas[k];
      } else {
        assert CommitsFrom(r.log, s'.replicas[i].log, Extra(ev));
      }
    }
  }

  lemma DecisionsKept(s: System, i: nat, ev: Event)
    requires Inv(s) && CanHandle(s, i, ev)
    ensures DecisionsCertified(After(s, i, ev))
  {
    RecordsKept(s, i, ev);
    var s' := After(s, i, ev);
    forall p | p in s'.decided
      ensures p.0 in s'.replicas && p.1.vote.digest == OfRequest(p.1.ts)
          && |CommitSenders(s', p.1.vote)| >= 2 * s'.f + 1
    {
      if p in s.decided {
        SendersGrow(s, s', p.1.vote);
      } else {
        NewDecisionBacked(s, i, ev, p);
        MatchingCommitsSent(s, i, ev, p.1.vote);
      }
    }
  }

  lemma NewDecisionBacked(s: System, i: nat, ev: Event, p: (nat, Decision))
    requires Inv(s) && CanHandle(s, i, ev) && p in After(s, i, ev).decided && p !in s.decided
    ensures p.0 == i && DecisionBacked(After(s, i, ev).replicas[i].log, p.1, s.f)
  {
    HandlerBacksDecision(s.replicas[i], ev, s.f);
    assert p == (i, Handle(s.replicas[i], ev).decided.value);
  }

  lemma HandlerBacksDecision(r: ReplicaState, ev: Event, f: nat)
    requires Enabled(r, ev) && LogOk(r.log) && r.n == 3 * f + 1
    ensures var o := Handle(r, ev);
            o.decided.Some? ==> DecisionBacked(o.state.log, o.decided.value, f)
  {
    HandleStep(r, ev);
    StepBacksDecision(r, Handle(r, ev), Extra(ev), f);
  }

  lemma StepBacksDecision(r: ReplicaState, o: Outcome, extra: Option<Message>, f: nat)
    requires AgreementStep(r, o, extra) && r.n == 3 * f + 1
    ensures o.decided.Some? ==> DecisionBacked(o.state.log, o.decided.value, f)
  {
  }

  lemma MatchingCommitsSent(s: System, i: nat, ev: Event, v: Vote)
    requires Inv(s) && CanHandle(s, i, ev) && RecordedCommitsSent(After(s, i, ev))
    requires v.num in After(s, i, ev).replicas[i].log.entries
    ensures |CommitSenders(After(s, i, ev), v)| >= |Matching(After(s, i, ev).replicas[i].log.entries[v.num].commits, v)|
  {
    var s' := After(s, i, ev);
    var e := s'.replicas[i].log.entries[v.num];
    forall j | j in Matching(e.commits, v)
      ensures j in CommitSenders(s', v)
    {
      assert s'.replicas[i].log.entries[v.num].commits[j] == v;
      SentFromCluster(s, i, ev, Commit(j, v.view, v.num, v.digest));
    }
    SubsetSize(Matching(e.commits, v), CommitSenders(s', v));
  }

  lemma SentFromCluster(s: System, i: nat, ev: Event, m: Message)
    requires Inv(s) && CanHandle(s, i, ev) && m in After(s, i, ev).sent
    ensures m.from in Cluster(s.n)
  {
    HandlerOutput(s, i, ev);
  }

  lemma DeliveriesKept(s: System, i: nat, ev: Event)
    requires Inv(s) && CanHandle(s, i, ev)
    ensures KnownDecided(After(s, i, ev))
  {
    HandleDelivers(s.replicas[i], ev);
    var s' := After(s, i, ev);
    forall k, e | k in s'.replicas && Known(s'.replicas[k], e)
      ensures exists d :: (k, d) in s'.decided && e == Delivery(d.vote.num, d.ts)
    {
      if k != i || Known(s.replicas[k], e) {
        assert Known(s.replicas[k], e);
        var d :| (k, d) in s.decided && e == Delivery(d.vote.num, d.ts);
        assert (k, d) in s'.decided;
      } else {
        var d := Handle(s.replicas[i], ev).decided.value;
        assert (k, d) in s'.decided;
      }
    }
  }

  lemma OwnedGrows(s: System, s': System, m: Message)
    requires s.own <= s'.own && Owned(s, m)
    ensures Owned(s', m)
  {
    var m' :| m' in s.own && SignedPart(m') == SignedPart(m);
    assert m' in s'.own;
  }

  lemma OwnedKept(s: System, i: nat, ev: Event)
    requires SentOwned(s) && CanHandle(s, i, ev)
    requires forall m :: m in Handle(s.replicas[i], ev).sent ==> m.from == i
    ensures SentOwned(After(s, i, ev))
  {
    var s' := After(s, i, ev);
    forall m | m in s'.sent && m.from in s'.replicas
      ensures Owned(s', m) && (s'.reuse || m in s'.own)
    {
      if m in s.sent {
        OwnedGrows(s, s', m);
      } else {
        assert m in s'.own;
      }
    }
  }

  lemma CorrectStepKeepsInv(s: System, i: nat, ev: Event)
    requires Inv(s) && CanHandle(s, i, ev)
    ensures Inv(After(s, i, ev))
  {
    HandlerOutput(s, i, ev);
    LocalsKept(s, i, ev);
    OwnedKept(s, i, ev);
    CommitVotesKept(s, i, ev);
    RecordsKept(s, i, ev);
    DecisionsKept(s, i, ev);
    DeliveriesKept(s, i, ev);
  }

  lemma LocalsKept(s: System, i: nat, ev: Event)
    requires Shape(s) && Locals(s) && CanHandle(s, i, ev)
    requires forall m :: m in Handle(s.replicas[i], ev).sent ==> m.from == i
    ensures Shape(After(s, i, ev)) && Locals(After(s, i, ev))
  {
    HandleStep(s.replicas[i], ev);
    HandleDelivers(s.replicas[i], ev);
    assert After(s, i, ev).replicas.Keys == s.replicas.Keys;
  }

  lemma FaultyStepKeepsInv(s: System, s': System)
    requires Inv(s) && FaultyStep(s, s')
    ensures Inv(s')
  {
    var m: Message :| m.from in s.faulty && s' == s.(sent := s.sent + {m});
    assert m.from !in s.replicas;
    MoreSentKeepsInv(s, s', m);
  }

  lemma ReuseStepKeepsInv(s: System, s': System)
    requires Inv(s) && ReuseStep(s, s')
    ensures Inv(s')
  {
    var m, m' :| Reuses(s, m, m') && s' == s.(sent := s.sent + {m'});
    assert SignedPart(m').from == m'.from && SignedPart(m).from == m.from;
    if m.from in s.replicas {
      assert Owned(s, m);
      var own :| own in s.own && SignedPart(own) == SignedPart(m);
      assert Owned(s, m');
    }
    MoreSentKeepsInv(s, s', m');
  }

  lemma MoreSentKeepsInv(s: System, s': System, m: Message)
    requires Inv(s) && s' == s.(sent := s.sent + {m})
    requires m.from in Cluster(s.n) && (m.from in s.replicas ==> s.reuse && Owned(s, m))
    ensures Inv(s')
  {
    forall x | x in s'.sent && x.from in s'.replicas
      ensures Owned(s', x) && (s'.reuse || x in s'.own)
    {
      OwnedGrows(s, s', x);
    }
    forall p | p in s'.decided
      ensures |CommitSenders(s', p.1.vote)| >= 2 * s'.f + 1
    {
      SendersGrow(s, s', p.1.vote);
    }
  }

  lemma NextKeepsInv(s: System, s': System)
    requires Inv(s) && Next(s, s')
    ensures Inv(s')
  {
    if CorrectStep(s, s') {
      var i, ev :| CanHandle(s, i, ev) && s' == After(s, i, ev);
      CorrectStepKeepsInv(s, i, ev);
    } else if FaultyStep(s, s') {
      FaultyStepKeepsInv(s, s');
    } else {
      ReuseStepKeepsInv(s, s');
    }
  }

  lemma RunStepKeepsInv(trace: seq<System>, k: nat)
    requires IsRun(trace) && 0 < k < |trace| && Inv(trace[k - 1])
    ensures Inv(trace[k])
  {
    assert StepOf(trace, k);
    NextKeepsInv(trace[k - 1], trace[k]);
  }

  lemma {:induction false} RunKeepsInv(trace: seq<System>, k: nat)
    requires IsRun(trace) && k < |trace|
    ensures Inv(trace[k])
  {
    if k == 0 {
      InitInv(trace[0]);
    } else {
      RunKeepsInv(trace, k - 1);
      RunStepKeepsInv(trace, k);
    }
  }

  // ---- Main results ----------------------------------------------------------------------------

  /** A correct replica itself sends at most one commit per sequence number, over any run and all its views. */
  lemma OneCommitPerNumber(trace: seq<System>, k: nat, m: Message, m': Message)
    requires IsRun(trace) && k < |trace|
    requires m in trace[k].own && m' in trace[k].own && m.Commit? && m'.Commit?
    requires m.from == m'.from && m.num == m'.num
    ensures m == m'
  {
    RunKeepsInv(trace, k);
  }

  lemma {:induction false} SettingStays(trace: seq<System>, k: nat)
    requires IsRun(trace) && k < |trace|
    ensures trace[k].reuse == trace[0].reuse && trace[k].loopback == trace[0].loopback
    ensures trace[k].n == trace[0].n && trace[k].f == trace[0].f && trace[k].faulty == trace[0].faulty
  {
    if k > 0 {
      SettingStays(trace, k - 1);
      assert StepOf(trace, k);
    }
  }

  /**
   * Where signatures tell all messages apart: two correct replicas that ever commit an entry at the same sequence
   * number, in whatever views and however far apart, hold the same view, digest and timestamp.
   */
  lemma AgreementWithoutReuse(trace: seq<System>, k: nat, i: nat, j: nat, d: Decision, d': Decision)
    requires IsRun(trace) && k < |trace| && !trace[0].reuse
    requires (i, d) in trace[k].decided && (j, d') in trace[k].decided && d.vote.num == d'.vote.num
    ensures d == d'
  {
    RunKeepsInv(trace, k);
    SettingStays(trace, k);
    var s := trace[k];
    assert (i, d).1 == d && (j, d').1 == d';
    var q, q' := CommitSenders(s, d.vote), CommitSenders(s, d'.vote);
    var w := CorrectWitness(q, q', s.faulty, s.n, s.f);
    var c, c' := Commit(w, d.vote.view, d.vote.num, d.vote.digest),
        Commit(w, d'.vote.view, d'.vote.num, d'.vote.digest);
    assert c in s.own && c' in s.own && c.from in s.replicas;
  }

  /** What was executed was decided, in increasing order. */
  lemma ExecutedIsDecided(trace: seq<System>, k: nat, i: nat, a: nat) returns (d: Decision)
    requires IsRun(trace) && k < |trace| && i in trace[k].replicas && a < |trace[k].replicas[i].executed|
    ensures (i, d) in trace[k].decided && trace[k].replicas[i].executed[a] == Delivery(d.vote.num, d.ts)
    ensures Increasing(trace[k].replicas[i].executed)
  {
    RunKeepsInv(trace, k);
    var e := trace[k].replicas[i].executed[a];
    assert Known(trace[k].replicas[i], e);
    d :| (i, d) in trace[k].decided && e == Delivery(d.vote.num, d.ts);
  }
}
