/** A new view carries every commit: crash faults, f >= 1, non-zero request timestamps. */
module PbftNewViewSafety {
  import opened Options
  import opened PbftMessages
  import opened PbftEntry
  import opened PbftLog
  import opened PbftNewView
  import opened PbftReplica
  import opened PbftSystem
  import opened PbftAgreement

  /** Digest of an entry replayed with timestamp 0. No request has it. */
  const REPLAYED := OfRequest(0)

  ghost predicate Recorded(l: Log, num: nat) {
    num in l.entries && l.entries[num].prePrepare.Some?
  }

  ghost predicate RecordedAs(l: Log, num: nat, d: Digest) {
    Recorded(l, num) && l.entries[num].prePrepare.value.digest == d
  }

  /** No threshold is waiting to be noticed: an unprepared entry has fewer than 2f matching prepares. */
  ghost predicate Tight(e: Entry, f: nat) {
    e.prePrepare.Some? && !e.prepared ==> |Matching(e.prepares, e.prePrepare.value)| < 2 * f
  }

  // ---- What one handler does to one entry ------------------------------------------------------

  /** Every prepare in `e'` was in `e`, is the replica's own, or is the one vote `extra`. */
  ghost predicate PreparesFrom(e: Entry, e': Entry, id: nat, extra: Option<Message>) {
    forall j :: j in e'.prepares ==>
      || (j in e.prepares && e.prepares[j] == e'.prepares[j])
      || j == id
      || (e'.prepares[j].num == e'.num && extra == Some(Prepare(j, e'.prepares[j].view, e'.num, e'.prepares[j].digest)))
  }

  ghost predicate EntryStep(e: Entry, e': Entry, id: nat, f: nat, extra: Option<Message>) {
    && (e.prePrepare.Some? ==> e'.prePrepare == e.prePrepare && (Tight(e, f) ==> Tight(e', f)))
    && (e.prepared ==> e'.prepared)
    && PreparesFrom(e, e', id, extra)
    && (e'.prepared && !e.prepared && e'.prePrepare.Some? ==> |Matching(e'.prepares, e'.prePrepare.value)| >= 2 * f)
  }

  ghost predicate LogStep(l: Log, l': Log, id: nat, f: nat, extra: Option<Message>) {
    && (forall s :: s in l'.entries ==> EntryStep(l.At(s), l'.entries[s], id, f, extra))
    && (forall s :: s in l.entries && s > l'.low ==> s in l'.entries)
  }

  /** A prepare is multicast only for an entry being recorded, within the water marks. */
  ghost predicate PreparesOnce(r: ReplicaState, o: Outcome, f: nat) {
    forall m :: m in o.sent && m.Prepare? ==>
      && m.num > r.log.low && !Recorded(r.log, m.num)
      && (RecordedAs(o.state.log, m.num, REPLAYED)
          || (RecordedAs(o.state.log, m.num, m.digest) && Tight(o.state.log.entries[m.num], f)))
  }

  /** A commit names the recorded digest, unless the entry was recorded by a primary that did not re-check. */
  ghost predicate CommitsRecorded(r: ReplicaState, o: Outcome, f: nat) {
    forall m :: m in o.sent && m.Commit? ==>
      && Recorded(o.state.log, m.num)
      && (!Recorded(r.log, m.num) || Tight(r.log.At(m.num), f) ==>
            RecordedAs(o.state.log, m.num, m.digest) || RecordedAs(o.state.log, m.num, REPLAYED))
  }

  ghost predicate DecisionRecorded(r: ReplicaState, o: Outcome) {
    o.decided.Some? ==>
      var v := o.decided.value.vote;
      v.num > r.log.low && v.num in o.state.log.entries && o.state.log.entries[v.num].prepared
          && o.state.log.entries[v.num].prePrepare == Some(v)
  }

  ghost predicate Summary(r: ReplicaState, o: Outcome, f: nat, extra: Option<Message>) {
    && LogStep(r.log, o.state.log, r.id, f, extra)
    && PreparesOnce(r, o, f) && CommitsRecorded(r, o, f) && DecisionRecorded(r, o)
  }

  /** A well-formed pre-prepare: a request digest, or a replay that leaves the timestamp out. */
  ghost predicate Honest(m: Message) {
    match m
    case PrePrepare(_, _, _, ts, d) => d != REPLAYED && (ts != 0 ==> d == OfRequest(ts))
    case Prepare(_, _, _, d) => d != REPLAYED
    case ViewChange(_, _, _, certs) => forall v :: v in certs ==> v.digest != REPLAYED
    case NewView(_, _, ps) => forall p :: p in ps ==> p.digest != REPLAYED
    case _ => true
  }

  lemma PutSummary(l: Log, num: nat, e: Entry, id: nat, f: nat, extra: Option<Message>)
    requires EntryStep(l.At(num), e, id, f, extra)
    ensures LogStep(l, l.Put(num, e), id, f, extra)
  {
  }

  lemma RecordStep(e: Entry, id: nat, view: nat, ts: int, f: nat)
    requires e.sentPrepare <==> e.prePrepare.Some?
    ensures EntryStep(e, e.RecordPrePrepare(id, view, ts).0, id, f, None)
  {
  }

  lemma CheckStep(e: Entry, f: nat)
    requires e.sentPrepare <==> e.prePrepare.Some?
    ensures var (e', ready) := e.CheckPrepared(f);
        Tight(e', f) && (ready ==> |Matching(e'.prepares, e'.prePrepare.value)| >= 2 * f)
  {
  }

  lemma MatchingAdd(votes: map<nat, Vote>, from: nat, vote: Vote, v: Vote)
    requires from !in votes
    ensures Matching(votes[from := vote], v) == Matching(votes, v) + if vote == v then {from} else {}
  {
  }

  lemma TryPrepareStep(e: Entry, f: nat, from: nat, vote: Vote, id: nat)
    requires e.sentPrepare <==> e.prePrepare.Some?
    requires vote.num == e.num
    ensures
      var (e', ready) := e.TryPrepare(f, from, vote);
      && EntryStep(e, e', id, f, Some(Prepare(from, vote.view, vote.num, vote.digest)))
      && (ready && Tight(e, f) ==> e.prePrepare == Some(vote))
  {
    if from !in e.prepares {
      var e1 := e.(prepares := e.prepares[from := vote]);
      CheckStep(e1, f);
      if e.prePrepare.Some? {
        MatchingAdd(e.prepares, from, vote, e.prePrepare.value);
      }
    }
  }

  lemma IdleSummary(r: ReplicaState, extra: Option<Message>)
    requires r.n > 0
    ensures Summary(r, r.Idle(), r.F(), extra)
  {
  }

  /** An entry changes and no vote goes out. */
  lemma QuietSummary(r: ReplicaState, o: Outcome, num: nat, e: Entry, extra: Option<Message>)
    requires r.n > 0 && EntryStep(r.log.At(num), e, r.id, r.F(), extra)
    requires o.state.log == r.log.Put(num, e) && o.decided.None?
    requires forall m :: m in o.sent ==> m.PrePrepare?
    ensures Summary(r, o, r.F(), extra)
  {
    PutSummary(r.log, num, e, r.id, r.F(), extra);
  }

  // ---- Each handler ----------------------------------------------------------------------------

  /** The entry along the three checks of a fresh pre-prepare. */
  lemma EchoEntry(before: Entry, id: nat, view: nat, ts: int, f: nat)
    requires before.prePrepare.None? && !before.sentPrepare && !before.prepared
    ensures
      var e := before.RecordPrePrepare(id, view, ts).0;
      var (e1, ready) := e.CheckPrepared(f);
      var (e2, done) := e1.CheckCommitted(f);
      && EntryStep(before, e1, id, f, None) && EntryStep(before, e2, id, f, None)
      && Tight(e1, f) && Tight(e2, f)
      && e1.prePrepare == e2.prePrepare == Some(Vote(view, before.num, OfRequest(ts)))
      && (done ==> e2.prepared)
  {
    CheckStep(before.RecordPrePrepare(id, view, ts).0, f);
  }

  lemma EchoSummary(r: ReplicaState, m: Message)
    requires r.n > 0 && LogOk(r.log) && m.PrePrepare? && Honest(m) && r.log.WithinWaterMarks(m.num)
    requires r.log.At(m.num).prePrepare.None?
    ensures
      var e := r.log.At(m.num).RecordPrePrepare(r.id, r.view, m.ts).0;
      Summary(r, r.WithEntry(m.num, e).Echo(m), r.F(), None)
  {
    var before := r.log.At(m.num);
    assert EntryOk(before, m.num);
    var e := before.RecordPrePrepare(r.id, r.view, m.ts).0;
    EchoSettles(r, m, e);
    EchoEntry(before, r.id, r.view, m.ts, r.F());
    var (e1, ready) := e.CheckPrepared(r.F());
    var (e2, done) := e1.CheckCommitted(r.F());
    var prepare := Prepare(r.id, m.view, m.num, m.digest);
    if ready {
      FreshSettle(r, m, e2, done, [prepare, Commit(r.id, m.view, m.num, m.digest)]);
    } else {
      FreshSettle(r, m, e1, false, [prepare]);
    }
  }

  lemma FreshSettle(r: ReplicaState, m: Message, e: Entry, done: bool, sent: seq<Message>)
    requires LogOk(r.log) && m.PrePrepare? && Honest(m) && m.num > r.log.low && r.n > 0
    requires r.log.At(m.num).prePrepare.None? && EntryStep(r.log.At(m.num), e, r.id, r.F(), None) && Tight(e, r.F())
    requires e.prePrepare.Some? && e.prePrepare.value.num == m.num && e.prePrepare.value.digest == OfRequest(m.ts)
    requires done ==> e.prepared
    requires forall x :: x in sent ==>
               x == Prepare(r.id, m.view, m.num, m.digest) || x == Commit(r.id, m.view, m.num, m.digest)
    ensures Summary(r, r.Settle(m.num, e, done, sent), r.F(), None)
  {
    PutSummary(r.log, m.num, e, r.id, r.F(), None);
    assert RecordedAs(r.log.Put(m.num, e), m.num, OfRequest(m.ts));
  }

  lemma PrePrepareSummary(r: ReplicaState, m: Message, connected: bool)
    requires r.n > 0 && LogOk(r.log) && m.PrePrepare? && Honest(m)
    ensures Summary(r, r.OnPrePrepare(m, connected), r.F(), None)
  {
    var before := r.log.At(m.num);
    assert EntryOk(before, m.num);
    var (e, first) := before.RecordPrePrepare(r.id, r.view, m.ts);
    if r.inViewChange || m.from != PrimaryOf(r.view, r.n) || !r.log.WithinWaterMarks(m.num) {
      IdleSummary(r, None);
    } else if first && connected {
      EchoSummary(r, m);
    } else {
      RecordStep(before, r.id, r.view, m.ts, r.F());
      QuietSummary(r, r.OnPrePrepare(m, connected), m.num, e, None);
    }
  }

  lemma PrepareSummary(r: ReplicaState, m: Message, connected: bool)
    requires r.n > 0 && LogOk(r.log) && m.Prepare?
    ensures Summary(r, r.OnPrepare(m, connected), r.F(), Some(m))
  {
    var before := r.log.At(m.num);
    assert EntryOk(before, m.num);
    var vote := Vote(m.view, m.num, m.digest);
    TryPrepareStep(before, r.F(), m.from, vote, r.id);
    var (e, ready) := before.TryPrepare(r.F(), m.from, vote);
    if r.inViewChange || !r.log.WithinWaterMarks(m.num) {
      IdleSummary(r, Some(m));
    } else if ready && connected {
      assert r.OnPrepare(m, connected) == Outcome(r.WithEntry(m.num, e), [Commit(r.id, m.view, m.num, m.digest)], None);
      PutSummary(r.log, m.num, e, r.id, r.F(), Some(m));
    } else {
      QuietSummary(r, r.OnPrepare(m, connected), m.num, e, Some(m));
    }
  }

  lemma CommitSummary(r: ReplicaState, m: Message)
    requires r.n > 0 && LogOk(r.log) && m.Commit?
    ensures Summary(r, r.OnCommit(m), r.F(), None)
  {
    var before := r.log.At(m.num);
    assert EntryOk(before, m.num);
    var (e, done) := before.TryCommit(r.F(), m.from, Vote(m.view, m.num, m.digest));
    if r.inViewChange || !r.log.WithinWaterMarks(m.num) {
      IdleSummary(r, None);
    } else {
      PutSummary(r.log, m.num, e, r.id, r.F(), None);
    }
  }

  lemma ProposeSummary(r: ReplicaState, ts: int)
    requires r.n > 0 && LogOk(r.log)
    ensures Summary(r, r.Propose(ts), r.F(), None)
  {
    var num := r.counter + 1;
    var before := r.log.At(num);
    assert EntryOk(before, num);
    RecordStep(before, r.id, r.view, ts, r.F());
    QuietSummary(r, r.Propose(ts), num, before.RecordPrePrepare(r.id, r.view, ts).0, None);
  }

  /** Entries after a replay: untouched, or newly recorded with timestamp 0. */
  ghost predicate EntryReplayed(e: Entry, e': Entry, id: nat) {
    e' == e || (e.prePrepare.None? && exists view :: e' == e.RecordPrePrepare(id, view, 0).0)
  }

  ghost predicate LogReplayed(l: Log, l': Log, id: nat) {
    && LogOk(l') && l' == l.(entries := l'.entries)
    && (forall s :: s in l.entries ==> s in l'.entries)
    && (forall s :: s in l'.entries ==> EntryReplayed(l.At(s), l'.entries[s], id))
  }

  ghost predicate ReplaySends(l: Log, o: Outcome) {
    forall m :: m in o.sent ==>
      && (m.Prepare? || m.PrePrepare?)
      && (m.Prepare? ==> m.num > l.low && !Recorded(l, m.num) && RecordedAs(o.state.log, m.num, REPLAYED))
  }

  lemma ReplayOneEntries(r: ReplicaState, p: Proposal)
    requires LogOk(r.log)
    ensures var o := r.ReplayOne(p); o.state == r.(log := o.state.log) && LogReplayed(r.log, o.state.log, r.id)
                                     && ReplaySends(r.log, o) && o.decided.None?
  {
    var before := r.log.At(p.num);
    assert EntryOk(before, p.num);
    var (e, first) := before.RecordPrePrepare(r.id, r.view, 0);
    if r.log.WithinWaterMarks(p.num) {
      assert r.ReplayOne(p).state == r.WithEntry(p.num, e);
      assert EntryOk(e, p.num) && EntryReplayed(before, e, r.id);
    }
  }

  lemma LogReplayedTwice(l: Log, l1: Log, l2: Log, id: nat)
    requires LogReplayed(l, l1, id) && LogReplayed(l1, l2, id)
    ensures LogReplayed(l, l2, id)
  {
    forall s | s in l2.entries
      ensures EntryReplayed(l.At(s), l2.entries[s], id)
    {
      assert EntryReplayed(l1.At(s), l2.entries[s], id);
      assert s in l1.entries ==> EntryReplayed(l.At(s), l1.entries[s], id);
    }
  }

  lemma RecordedKept(l: Log, l': Log, id: nat, num: nat)
    requires LogReplayed(l, l', id)
    ensures Recorded(l, num) ==> Recorded(l', num) && l'.entries[num].prePrepare == l.entries[num].prePrepare
  {
    if Recorded(l, num) {
      assert EntryReplayed(l.At(num), l'.entries[num], id);
    }
  }

  lemma {:induction false} ReplayEntries(r: ReplicaState, ps: seq<Proposal>)
    requires LogOk(r.log)
    ensures
      var o := r.ReplayAll(ps);
      o.state == r.(log := o.state.log) && LogReplayed(r.log, o.state.log, r.id) && ReplaySends(r.log, o)
          && o.decided.None?
  {
    if ps != [] {
      ReplayEntries(r, ps[..|ps| - 1]);
      var before := r.ReplayAll(ps[..|ps| - 1]);
      var last := before.state.ReplayOne(ps[|ps| - 1]);
      ReplayOneEntries(before.state, ps[|ps| - 1]);
      LogReplayedTwice(r.log, before.state.log, last.state.log, r.id);
      forall m | m in before.sent + last.sent && m.Prepare?
        ensures m.num > r.log.low && !Recorded(r.log, m.num) && RecordedAs(last.state.log, m.num, REPLAYED)
      {
        RecordedKept(r.log, before.state.log, r.id, m.num);
        RecordedKept(before.state.log, last.state.log, r.id, m.num);
      }
    }
  }

  lemma ReplayedStep(e: Entry, e': Entry, id: nat, f: nat)
    requires EntryReplayed(e, e', id) && (e.sentPrepare <==> e.prePrepare.Some?)
    ensures EntryStep(e, e', id, f, None)
  {
  }

  lemma EnterSummary(r: ReplicaState, newView: nat, ps: seq<Proposal>)
    requires r.n > 0 && LogOk(r.log)
    ensures Summary(r, r.EnterNewView(newView, ps), r.F(), None)
    ensures forall m :: m in r.EnterNewView(newView, ps).sent ==> m.Prepare? || m.PrePrepare?
  {
    ReplayEntries(r.InView(newView, MaxNum(ps)), ps);
    var l' := r.EnterNewView(newView, ps).state.log;
    forall s | s in l'.entries
      ensures EntryStep(r.log.At(s), l'.entries[s], r.id, r.F(), None)
    {
      assert EntryOk(r.log.At(s), s);
      ReplayedStep(r.log.At(s), l'.entries[s], r.id, r.F());
    }
  }

  lemma KeptSummary(l: Log, id: nat, f: nat)
    ensures LogStep(l, l, id, f, None)
  {
  }

  lemma CollectSummary(l: Log, m: Message, id: nat, f: nat)
    requires m.Checkpoint? && l.low == l.lastStable
    ensures LogStep(l, l.RecordCheckpoint(m, f).0, id, f, None)
  {
  }

  lemma DeliverSummary(r: ReplicaState)
    requires r.n > 0 && LogOk(r.log)
    ensures Summary(r, r.DeliverNext(), r.F(), None)
  {
    var b := r.buffer.SkipTo(r.log.low);
    KeptSummary(r.log, r.id, r.F());
    if b.Ready() {
      var num := b.pending[b.next].num;
      CollectSummary(r.log, Checkpoint(r.id, num, OfState(num)), r.id, r.F());
    }
  }

  ghost function ExtraPrepare(ev: Event): Option<Message> {
    if ev.Receive? && ev.m.Prepare? then Some(ev.m) else None
  }

  lemma ViewChangeSummary(r: ReplicaState, m: Message, ps: seq<Proposal>)
    requires r.n > 0 && LogOk(r.log) && m.ViewChange?
    ensures Summary(r, r.OnViewChange(m, ps), r.F(), None)
  {
    KeptSummary(r.log, r.id, r.F());
    EnterSummary(r.(viewChangeMsgs := r.CollectViewChange(m)), m.newView, ps);
  }

  lemma ReceiveSummary(r: ReplicaState, ev: Event)
    requires Enabled(r, ev) && LogOk(r.log) && ev.Receive? && Honest(ev.m)
    ensures Summary(r, Handle(r, ev), r.F(), ExtraPrepare(ev))
  {
    var m := ev.m;
    KeptSummary(r.log, r.id, r.F());
    match m {
      case PrePrepare(_, _, _, _, _) => PrePrepareSummary(r, m, ev.connected);
      case Prepare(_, _, _, _) => PrepareSummary(r, m, ev.connected);
      case Commit(_, _, _, _) => CommitSummary(r, m);
      case Checkpoint(_, _, _) => CollectSummary(r.log, m, r.id, r.F());
      case ViewChange(_, _, _, _) => ViewChangeSummary(r, m, ev.proposals);
      case NewView(_, _, _) => EnterSummary(r, m.newView, m.proposals);
    }
  }

  lemma HandleSummary(r: ReplicaState, ev: Event)
    requires Enabled(r, ev) && LogOk(r.log) && (ev.Receive? ==> Honest(ev.m))
    ensures Summary(r, Handle(r, ev), r.F(), ExtraPrepare(ev))
  {
    match ev
    case Receive(_, _, _) => ReceiveSummary(r, ev);
    case Propose(ts) => ProposeSummary(r, ts);
    case Deliver => DeliverSummary(r);
    case _ => KeptSummary(r.log, r.id, r.F());
  }
}
