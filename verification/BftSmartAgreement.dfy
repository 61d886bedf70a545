/**
 * Agreement of BFT-SMaRt inside one regency, whichever recorded vote each check takes as its reference, where
 * signatures tell proposals, writes and accepts apart. What changes when they do not is in BftSmartSignatures.
 */
module BftSmartAgreement {
  import opened Options
  import opened Quorum
  import opened BftSmartEntry
  import opened BftSmartReplica

  /**
   * `reuse` says whether a signature can be put on another message with the same signed bytes. Two fields are
   * histories: `own` holds what correct replicas themselves sent, `decided` whose accept check fired on what.
   */
  datatype System = System(
    n: nat,
    f: nat,
    faulty: set<nat>,
    reuse: bool,
    replicas: map<nat, ReplicaState>,
    sent: set<Message>,
    own: set<Message>,
    decided: set<(nat, Decision)>)

  /** What a correct replica may do next; the references of its checks come with the event. */
  datatype Event =
    | Receive(m: Message, connected: bool, writeRef: nat, acceptRef: nat)
    | Lead(batch: seq<int>)
    | Execute(cid: nat)
    | Stable(cid: nat)
    | Suspend

  ghost function Handle(r: ReplicaState, ev: Event): Outcome
    requires r.n > 0
  {
    match ev
    case Receive(m, connected, writeRef, acceptRef) =>
      (match m
       case Propose(_, _, _, _, _) => r.OnPropose(m, connected, writeRef, acceptRef)
       case Write(_, _, _, _) => r.OnWrite(m, connected, writeRef)
       case Accept(_, _, _, _) => r.OnAccept(m, acceptRef))
    case Lead(batch) => if r.id == r.Leader() then r.ProposeBatch(batch) else Outcome(r, [], None)
    case Execute(cid) => Outcome(r.Executed(cid), [], None)
    case Stable(cid) => Outcome(r.Stabilize(cid), [], None)
    case Suspend => Outcome(r.(inViewChange := true), [], None)
  }

  /** All replicas start empty in one regency. */
  ghost predicate AllIn(s: System, view: nat) {
    forall i :: i in s.replicas ==> s.replicas[i] == NewReplica(i, s.n, view)
  }

  ghost predicate Init(s: System) {
    && s.n == 3 * s.f + 1
    && s.faulty <= Cluster(s.n) && |s.faulty| <= s.f
    && s.replicas.Keys == Cluster(s.n) - s.faulty
    && (exists view :: AllIn(s, view))
    && s.sent == {} && s.own == {} && s.decided == {}
  }

  ghost predicate CanHandle(s: System, i: nat, ev: Event) {
    i in s.replicas && s.replicas[i].n > 0 && (ev.Receive? ==> ev.m in s.sent)
  }

  ghost function Sent(o: Outcome): set<Message> {
    set m | m in o.sent
  }

  ghost function Decisions(i: nat, d: Option<Decision>): set<(nat, Decision)> {
    if d.Some? then {(i, d.value)} else {}
  }

  ghost function After(s: System, i: nat, ev: Event): System
    requires CanHandle(s, i, ev)
  {
    var o := Handle(s.replicas[i], ev);
    s.(replicas := s.replicas[i := o.state], sent := s.sent + Sent(o), own := s.own + Sent(o),
       decided := s.decided + Decisions(i, o.decided))
  }

  /** What a signature covers: one and the same text for a proposal, a write and an accept, and no batch. */
  datatype Signed = Signed(from: nat, cid: nat, view: nat, digest: Digest)

  function SignedPart(m: Message): Signed {
    Signed(m.from, m.cid, m.view, m.digest)
  }

  ghost predicate CorrectStep(s: System, s': System) {
    exists i, ev :: CanHandle(s, i, ev) && s' == After(s, i, ev)
  }

  ghost predicate FaultyStep(s: System, s': System) {
    exists m: Message :: m.from in s.faulty && s' == s.(sent := s.sent + {m})
  }

  ghost predicate Reuses(s: System, m: Message, m': Message) {
    s.reuse && m in s.sent && SignedPart(m') == SignedPart(m)
  }

  ghost predicate ReuseStep(s: System, s': System) {
    exists m, m' :: Reuses(s, m, m') && s' == s.(sent := s.sent + {m'})
  }

  ghost predicate Next(s: System, s': System) {
    CorrectStep(s, s') || FaultyStep(s, s') || ReuseStep(s, s')
  }

  ghost predicate IsRun(trace: seq<System>) {
    && trace != [] && Init(trace[0])
    && forall k :: 0 <= k < |trace| - 1 ==> Next(trace[k], trace[k + 1])
  }

  // ---- One replica -----------------------------------------------------------------------------

  /** The instance is closed for further accepts of this replica: decided upon, or below its low water mark. */
  ghost predicate Closed(r: ReplicaState, cid: nat) {
    cid <= r.low || (cid in r.entries && r.entries[cid].written)
  }

  /** Written instances that were discarded lie below the water mark. */
  ghost predicate WellFormed(r: ReplicaState) {
    r.n > 0 && r.low == r.lastStable && forall c :: c in r.entries ==> r.entries[c].cid == c
  }

  /** Accept votes recorded, by instance and sender. */
  ghost predicate Holds(r: ReplicaState, cid: nat, from: nat, v: Vote) {
    cid in r.entries && from in r.entries[cid].accepts && r.entries[cid].accepts[from] == v
  }

  /** What one event does to a replica, whatever references its checks pick. */
  ghost predicate Respects(r: ReplicaState, ev: Event, o: Outcome) {
    && WellFormed(o.state) && o.state.id == r.id && o.state.n == r.n
    && (forall cid: nat :: Closed(r, cid) ==> Closed(o.state, cid))
    && (forall cid: nat, from: nat, v: Vote {:trigger Holds(o.state, cid, from, v)} :: Holds(o.state, cid, from, v) ==>
          || Holds(r, cid, from, v)
          || (ev.Receive? && ev.m.Accept? && ev.m == Accept(from, cid, v.view, v.digest) && v.cid == cid))
    && (forall m :: m in o.sent ==> m.from == r.id)
    && (forall m :: m in o.sent && m.Accept? ==> !Closed(r, m.cid) && Closed(o.state, m.cid))
    && (forall m, m' :: m in o.sent && m' in o.sent && m.Accept? && m'.Accept? ==> m == m')
    && (o.decided.Some? ==> exists cid :: Backed(o.state, cid, o.decided.value))
  }

  /** 2f+1 recorded accepts of the instance equal the decided vote. */
  ghost predicate Backed(r: ReplicaState, cid: nat, d: Decision)
    requires r.n > 0
  {
    cid in r.entries && |Matching(r.entries[cid].accepts, d.accepted)| >= 2 * r.F() + 1
  }

  lemma PutKeeps(r: ReplicaState, cid: nat, e: Entry)
    requires WellFormed(r) && e.cid == cid && (r.At(cid).written ==> e.written)
    ensures WellFormed(r.Put(cid, e)) && forall c :: Closed(r, c) ==> Closed(r.Put(cid, e), c)
  {
  }

  lemma AcceptRespects(r: ReplicaState, m: Message, connected: bool, writeRef: nat, acceptRef: nat)
    requires WellFormed(r) && m.Accept?
    ensures Respects(r, Receive(m, connected, writeRef, acceptRef), r.OnAccept(m, acceptRef))
  {
    var o := r.OnAccept(m, acceptRef);
    if r.Admits(m) {
      var (e, done) := r.At(m.cid).RecordAccept(r.F(), m.from, m.Vote(), acceptRef);
      PutKeeps(r, m.cid, e);
      if o.decided.Some? {
        assert Backed(o.state, m.cid, o.decided.value);
      }
    }
  }

  lemma WriteRespects(r: ReplicaState, m: Message, connected: bool, writeRef: nat, acceptRef: nat)
    requires WellFormed(r) && m.Write?
    ensures Respects(r, Receive(m, connected, writeRef, acceptRef), r.OnWrite(m, connected, writeRef))
  {
    if r.Admits(m) {
      var (e, ready) := r.At(m.cid).RecordWrite(r.F(), m.from, m.Vote(), writeRef);
      PutKeeps(r, m.cid, e);
      assert ready ==> !r.At(m.cid).written && e.written;
    }
  }

  lemma ProposeRespects(r: ReplicaState, m: Message, connected: bool, writeRef: nat, acceptRef: nat)
    requires WellFormed(r) && m.Propose?
    ensures Respects(r, Receive(m, connected, writeRef, acceptRef), r.OnPropose(m, connected, writeRef, acceptRef))
  {
    if r.Admits(m) {
      var (e, first) := r.At(m.cid).RecordPropose(r.id, r.view, m.batch, m.digest);
      PutKeeps(r, m.cid, e);
      if first && connected {
        RecheckRespects(r, e, m, writeRef, acceptRef);
      }
    }
  }

  /** The rest of a proposal, from the entry `e` in which it was recorded. */
  lemma RecheckRespects(r: ReplicaState, e: Entry, m: Message, writeRef: nat, acceptRef: nat)
    requires WellFormed(r) && m.Propose? && r.Admits(m)
    requires e.cid == m.cid && e.written == r.At(m.cid).written && e.accepts == r.At(m.cid).accepts
    ensures var o := r.Put(m.cid, e).Recheck(m, writeRef, acceptRef);
            Respects(r, Receive(m, true, writeRef, acceptRef),
                     o.(sent := [Write(r.id, m.cid, m.view, m.digest)] + o.sent))
  {
    var mid := r.Put(m.cid, e);
    var o := mid.Recheck(m, writeRef, acceptRef);
    var (e1, ready) := e.CheckWritten(r.F(), writeRef);
    var e2 := if ready then e1.CheckAccepted(r.F(), acceptRef).0 else e1;
    assert mid.At(m.cid) == e;
    assert o.state == r.Put(m.cid, e2);
    assert o.sent == if ready then [Accept(r.id, m.cid, m.view, m.digest)] else [];
    if o.decided.Some? {
      assert Backed(o.state, m.cid, o.decided.value);
    }
    var ev := Receive(m, true, writeRef, acceptRef);
    VotedRespects(r, ev, m, e2, o.(sent := [Write(r.id, m.cid, m.view, m.digest)] + o.sent));
  }

  /** The entry of one instance was replaced, and own votes on it went out. */
  lemma VotedRespects(r: ReplicaState, ev: Event, m: Message, e: Entry, o: Outcome)
    requires WellFormed(r) && m.Propose? && r.Admits(m) && o.state == r.Put(m.cid, e) && e.cid == m.cid
    requires (r.At(m.cid).written ==> e.written) && e.accepts == r.At(m.cid).accepts
    requires forall x :: x in o.sent ==>
               || x == Write(r.id, m.cid, m.view, m.digest)
               || (x == Accept(r.id, m.cid, m.view, m.digest) && !r.At(m.cid).written && e.written)
    requires o.decided.Some? ==> Backed(o.state, m.cid, o.decided.value)
    ensures Respects(r, ev, o)
  {
    PutKeeps(r, m.cid, e);
  }

  lemma StableRespects(r: ReplicaState, cid: nat)
    requires WellFormed(r)
    ensures Respects(r, Stable(cid), Outcome(r.Stabilize(cid), [], None))
  {
  }

  lemma EventRespects(r: ReplicaState, ev: Event)
    requires WellFormed(r)
    ensures Respects(r, ev, Handle(r, ev))
  {
    match ev
    case Receive(m, connected, writeRef, acceptRef) =>
      match m {
        case Propose(_, _, _, _, _) => ProposeRespects(r, m, connected, writeRef, acceptRef);
        case Write(_, _, _, _) => WriteRespects(r, m, connected, writeRef, acceptRef);
        case Accept(_, _, _, _) => AcceptRespects(r, m, connected, writeRef, acceptRef);
      }
    case Stable(cid) => StableRespects(r, cid);
    case _ =>
  }

  // ---- All replicas ----------------------------------------------------------------------------

  ghost function AcceptSenders(s: System, v: Vote): set<nat> {
    set i | i in Cluster(s.n) && Accept(i, v.cid, v.view, v.digest) in s.sent
  }

  ghost predicate ReplicasOk(s: System) {
    && s.n == 3 * s.f + 1 && s.faulty <= Cluster(s.n) && |s.faulty| <= s.f
    && s.replicas.Keys == Cluster(s.n) - s.faulty
    && forall i :: i in s.replicas ==> WellFormed(s.replicas[i]) && s.replicas[i].id == i && s.replicas[i].n == s.n
  }

  /** Whatever carries a correct replica's signature has the signed part of a message it sent itself. */
  ghost predicate Owned(s: System, m: Message) {
    exists m' :: m' in s.own && SignedPart(m') == SignedPart(m)
  }

  ghost predicate SentOwned(s: System) {
    && (forall m {:trigger Owned(s, m)} :: m in s.sent && m.from in s.replicas ==> Owned(s, m))
    && (!s.reuse ==> forall m :: m in s.sent && m.from in s.replicas ==> m in s.own)
    && (forall m :: m in s.own ==> m in s.sent && m.from in s.replicas)
    && (forall m :: m in s.sent ==> m.from in Cluster(s.n))
  }

  /** A correct replica sends at most one accept per instance, and has closed the instance since. */
  ghost predicate AcceptsOnce(s: System) {
    && (forall m :: m in s.own && m.Accept? && m.from in s.replicas ==> Closed(s.replicas[m.from], m.cid))
    && (forall m, m' :: (m in s.own && m' in s.own && m.Accept? && m'.Accept? && m.from == m'.from
                         && m.from in s.replicas && m.cid == m'.cid) ==> m == m')
  }

  ghost predicate VotesSent(s: System) {
    forall i: nat, cid: nat, from: nat, v: Vote {:trigger Holds(s.replicas[i], cid, from, v)} ::
      i in s.replicas && Holds(s.replicas[i], cid, from, v) ==>
      v.cid == cid && Accept(from, cid, v.view, v.digest) in s.sent
  }

  ghost predicate DecisionsOk(s: System) {
    forall d :: d in s.decided ==> |AcceptSenders(s, d.1.accepted)| >= 2 * s.f + 1
  }

  ghost predicate Inv(s: System) {
    ReplicasOk(s) && SentOwned(s) && AcceptsOnce(s) && VotesSent(s) && DecisionsOk(s)
  }

  lemma InitInv(s: System)
    requires Init(s)
    ensures Inv(s)
  {
  }

  lemma SendersGrow(s: System, s': System, v: Vote)
    requires s'.n == s.n && s.sent <= s'.sent
    ensures |AcceptSenders(s', v)| >= |AcceptSenders(s, v)|
  {
    SubsetSize(AcceptSenders(s, v), AcceptSenders(s', v));
  }

  lemma OwnedGrows(s: System, s': System, m: Message)
    requires s.own <= s'.own && Owned(s, m)
    ensures Owned(s', m)
  {
    var m' :| m' in s.own && SignedPart(m') == SignedPart(m);
    assert m' in s'.own;
  }

  lemma EventKeepsOwned(s: System, i: nat, ev: Event)
    requires ReplicasOk(s) && SentOwned(s) && CanHandle(s, i, ev)
    requires Respects(s.replicas[i], ev, Handle(s.replicas[i], ev))
    ensures SentOwned(After(s, i, ev)) && ReplicasOk(After(s, i, ev))
  {
    var s' := After(s, i, ev);
    assert s'.replicas.Keys == s.replicas.Keys;
    forall m | m in s'.sent && m.from in s'.replicas
      ensures Owned(s', m)
    {
      if m in s.sent {
        assert Owned(s, m);
        OwnedGrows(s, s', m);
      } else {
        assert m in s'.own;
      }
    }
  }

  lemma EventKeepsAcceptsOnce(s: System, i: nat, ev: Event)
    requires AcceptsOnce(s) && CanHandle(s, i, ev) && s.replicas[i].id == i
    requires Respects(s.replicas[i], ev, Handle(s.replicas[i], ev))
    ensures AcceptsOnce(After(s, i, ev))
  {
  }

  lemma EventKeepsVotes(s: System, i: nat, ev: Event)
    requires VotesSent(s) && CanHandle(s, i, ev) && Respects(s.replicas[i], ev, Handle(s.replicas[i], ev))
    ensures VotesSent(After(s, i, ev))
  {
    var s', o := After(s, i, ev), Handle(s.replicas[i], ev);
    forall j: nat, cid: nat, from: nat, v: Vote | j in s'.replicas && Holds(s'.replicas[j], cid, from, v)
      ensures v.cid == cid && Accept(from, cid, v.view, v.digest) in s'.sent
    {
      if j != i {
        assert Holds(s.replicas[j], cid, from, v);
      } else {
        assert Holds(o.state, cid, from, v);
      }
    }
  }

  lemma EventKeepsDecisions(s: System, i: nat, ev: Event)
    requires ReplicasOk(s) && DecisionsOk(s) && CanHandle(s, i, ev)
    requires VotesSent(After(s, i, ev)) && SentOwned(After(s, i, ev))
    requires Respects(s.replicas[i], ev, Handle(s.replicas[i], ev))
    ensures DecisionsOk(After(s, i, ev))
  {
    var s', o := After(s, i, ev), Handle(s.replicas[i], ev);
    forall d | d in s'.decided
      ensures |AcceptSenders(s', d.1.accepted)| >= 2 * s.f + 1
    {
      if d in s.decided {
        SendersGrow(s, s', d.1.accepted);
      } else {
        var cid :| Backed(o.state, cid, o.decided.value);
        BackedBySenders(s', i, cid, d.1);
      }
    }
  }

  lemma BackedBySenders(s: System, i: nat, cid: nat, d: Decision)
    requires VotesSent(s) && SentOwned(s) && i in s.replicas && s.replicas[i].n == s.n == 3 * s.f + 1
    requires Backed(s.replicas[i], cid, d)
    ensures |AcceptSenders(s, d.accepted)| >= 2 * s.f + 1
  {
    var voters := Matching(s.replicas[i].entries[cid].accepts, d.accepted);
    forall k | k in voters
      ensures k in AcceptSenders(s, d.accepted)
    {
      assert Holds(s.replicas[i], cid, k, d.accepted);
    }
    SubsetSize(voters, AcceptSenders(s, d.accepted));
  }

  lemma MoreSentKeepsInv(s: System, s': System, m: Message)
    requires Inv(s) && s' == s.(sent := s.sent + {m})
    requires m.from in Cluster(s.n) && (m.from in s.replicas ==> s.reuse && Owned(s, m))
    ensures Inv(s')
  {
    forall x | x in s'.sent && x.from in s'.replicas
      ensures Owned(s', x)
    {
      assert Owned(s, x);
      OwnedGrows(s, s', x);
    }
    forall i: nat, cid: nat, from: nat, v: Vote | i in s'.replicas && Holds(s'.replicas[i], cid, from, v)
      ensures v.cid == cid && Accept(from, cid, v.view, v.digest) in s'.sent
    {
      assert Holds(s.replicas[i], cid, from, v);
    }
    forall d | d in s'.decided
      ensures |AcceptSenders(s', d.1.accepted)| >= 2 * s.f + 1
    {
      SendersGrow(s, s', d.1.accepted);
    }
  }

  lemma NextKeepsInv(s: System, s': System)
    requires Inv(s) && Next(s, s')
    ensures Inv(s') && s'.n == s.n && s'.f == s.f && s'.faulty == s.faulty && s'.reuse == s.reuse
    ensures s.sent <= s'.sent && s.decided <= s'.decided
  {
    if CorrectStep(s, s') {
      var i, ev :| CanHandle(s, i, ev) && s' == After(s, i, ev);
      EventKeepsInv(s, i, ev);
    } else if FaultyStep(s, s') {
      var m: Message :| m.from in s.faulty && s' == s.(sent := s.sent + {m});
      MoreSentKeepsInv(s, s', m);
    } else {
      var m, m' :| Reuses(s, m, m') && s' == s.(sent := s.sent + {m'});
      SignatureOwned(s, m, m');
      MoreSentKeepsInv(s, s', m');
    }
  }

  lemma EventKeepsInv(s: System, i: nat, ev: Event)
    requires Inv(s) && CanHandle(s, i, ev)
    ensures Inv(After(s, i, ev))
  {
    EventRespects(s.replicas[i], ev);
    EventKeepsOwned(s, i, ev);
    EventKeepsAcceptsOnce(s, i, ev);
    EventKeepsVotes(s, i, ev);
    EventKeepsDecisions(s, i, ev);
  }

  lemma SignatureOwned(s: System, m: Message, m': Message)
    requires SentOwned(s) && Reuses(s, m, m')
    ensures m'.from in Cluster(s.n) && (m'.from in s.replicas ==> s.reuse && Owned(s, m'))
  {
    assert SignedPart(m').from == SignedPart(m).from;
    if m.from in s.replicas {
      assert Owned(s, m);
      var own :| own in s.own && SignedPart(own) == SignedPart(m);
    }
  }

  lemma {:induction false} RunKeepsInv(trace: seq<System>, j: nat, k: nat)
    requires IsRun(trace) && j <= k < |trace|
    ensures Inv(trace[j]) && Inv(trace[k]) && trace[j].decided <= trace[k].decided
    ensures trace[k].reuse == trace[j].reuse
  {
    if k == 0 {
      InitInv(trace[0]);
    } else {
      RunKeepsInv(trace, if j == k then k - 1 else j, k - 1);
      assert Next(trace[k - 1], trace[k - 1 + 1]);
      NextKeepsInv(trace[k - 1], trace[k]);
    }
  }

  /** Two quorums of accepts for one instance carry the same digest in the same view. */
  lemma QuorumsAgree(s: System, v: Vote, w: Vote)
    requires ReplicasOk(s) && SentOwned(s) && AcceptsOnce(s) && !s.reuse && v.cid == w.cid
    requires |AcceptSenders(s, v)| >= 2 * s.f + 1 && |AcceptSenders(s, w)| >= 2 * s.f + 1
    ensures v == w
  {
    var i := CorrectWitness(AcceptSenders(s, v), AcceptSenders(s, w), s.faulty, s.n, s.f);
    var m, m' := Accept(i, v.cid, v.view, v.digest), Accept(i, w.cid, w.view, w.digest);
    assert m in s.own && m' in s.own && m.from == i == m'.from && i in s.replicas;
  }

  /**
   * Where signatures tell all messages apart, over every run with at most f faulty replicas and however the references
   * are picked: two correct replicas whose accept check fires for one instance, at whatever moments, have 2f+1 accepts
   * behind them for one view and digest.
   */
  lemma AgreementWithoutReuse(trace: seq<System>, j: nat, k: nat, a: (nat, Decision), b: (nat, Decision))
    requires IsRun(trace) && j <= k < |trace| && !trace[0].reuse
    requires a in trace[j].decided && b in trace[k].decided && a.1.accepted.cid == b.1.accepted.cid
    ensures a.1.accepted == b.1.accepted
    ensures |AcceptSenders(trace[k], a.1.accepted)| >= 2 * trace[k].f + 1
  {
    RunKeepsInv(trace, j, k);
    RunKeepsInv(trace, 0, k);
    QuorumsAgree(trace[k], a.1.accepted, b.1.accepted);
  }

  /** Over every run, a correct replica itself sends at most one accept per instance. */
  lemma OneAcceptPerInstance(trace: seq<System>, k: nat, m: Message, m': Message)
    requires IsRun(trace) && k < |trace| && m in trace[k].own && m' in trace[k].own
    requires m.Accept? && m'.Accept? && m.from == m'.from && m.cid == m'.cid
    ensures m == m'
  {
    RunKeepsInv(trace, k, k);
  }
}
