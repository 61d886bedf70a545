/** A run in which one faulty replica makes a new view re-propose something else than a correct replica committed. */
module PbftDroppedCommit {
  import opened Options
  import opened PbftMessages
  import opened PbftEntry
  import opened PbftLog
  import opened PbftNewView
  import opened PbftReplica
  import opened PbftSystem
  import A = PbftAgreement
  import opened PbftRuns
  import opened Quorum
  import Runs

  // ---- The primary of view 0 -------------------------------------------------------------------

  function Proposer(e: Entry): ReplicaState {
    WithFirst(1, e).(counter := 1)
  }

  lemma PrimaryProposes(t: int)
    ensures Fresh(1).Propose(t) == Outcome(Proposer(Recorded(1, t)), [PrePrepare(1, 0, 1, t, OfRequest(t))], None)
  {
    var v := FirstVote(t);
    assert map[][1 := v] == map[1 := v];
    assert FreshEntry(1).RecordPrePrepare(1, 0, t).0 == Recorded(1, t);
    assert map[][1 := Recorded(1, t)] == map[1 := Recorded(1, t)];
  }

  lemma PrimaryPrepares(t: int)
    ensures Arrive(Proposer(Recorded(1, t)), Prepare(2, 0, 1, OfRequest(t)))
         == Outcome(Proposer(Prepared(1, 2, t)), [Commit(1, 0, 1, OfRequest(t))], None)
  {
    var v := FirstVote(t);
    TwoMatch(1, 2, v);
    assert map[1 := v][2 := v] == map[1 := v, 2 := v];
    assert Recorded(1, t).TryPrepare(1, 2, v) == (Prepared(1, 2, t), true);
    assert map[1 := Recorded(1, t)][1 := Prepared(1, 2, t)] == map[1 := Prepared(1, 2, t)];
  }

  lemma PrimaryCertificates(t: int)
    ensures Proposer(Prepared(1, 2, t)).PreparedCertificates([FirstVote(t)])
  {
    var r := Proposer(Prepared(1, 2, t));
    assert r.log.PreparedEntries(0) == {1};
    assert r.log.entries[1].prePrepare == Some(FirstVote(t));
  }

  // ---- What the view-changes lead to -----------------------------------------------------------

  const FORGED := Vote(7, 1, Opaque(0))

  function ClaimOf(i: nat, v: Vote): Message {
    ViewChange(i, 1, 0, [v])
  }

  function Claims(t: int): set<Message> {
    {ClaimOf(1, FirstVote(t)), ClaimOf(3, FORGED)}
  }

  lemma ClaimsCertify(t: int)
    ensures forall v :: Certified(Claims(t), v) <==> v == FirstVote(t) || v == FORGED
  {
    assert ClaimOf(1, FirstVote(t)) in Claims(t) && ClaimOf(3, FORGED) in Claims(t);
    assert FirstVote(t) in ClaimOf(1, FirstVote(t)).prepared && FORGED in ClaimOf(3, FORGED).prepared;
  }

  /** The genuine certificate loses to the forged one. */
  lemma ForgeryWins(t: int, minS: nat, maxS: nat, ps: seq<Proposal>)
    requires IsMinS(0, Claims(t), minS) && IsMaxS(Claims(t), maxS) && Covers(Claims(t), minS, maxS, ps)
    ensures minS == 0 && ps == [Proposal(1, Opaque(0))]
  {
    ClaimsCertify(t);
    assert Certified(Claims(t), FORGED);
    assert maxS == 1;
    assert Chosen(Claims(t), ps[0].num, ps[0].digest);
  }

  lemma ForgedSet(t: int)
    ensures IsNewViewSet(0, Claims(t), [Proposal(1, Opaque(0))])
  {
    ClaimsCertify(t);
    assert Certified(Claims(t), FORGED) && FORGED.num == 1;
    assert Highest(Claims(t), FORGED);
    assert IsMinS(0, Claims(t), 0) && IsMaxS(Claims(t), 1);
    assert Chosen(Claims(t), 1, Opaque(0));
    assert Covers(Claims(t), 0, 1, [Proposal(1, Opaque(0))]);
  }

  // ---- The run ---------------------------------------------------------------------------------

  /** Replica 3 is faulty, and signatures are not reused. */
  ghost function Start(loopback: bool): System {
    System(N, 1, {3}, loopback, false, map i | i in {1, 2, 4} :: Fresh(i), {}, {}, {})
  }

  lemma StartReachable(loopback: bool)
    ensures Reachable(Start(loopback))
  {
    ClusterSize(N);
    assert Start(loopback).replicas.Keys == Cluster(N) - {3};
    Runs.InitReachable(Init, Next, Start(loopback));
  }

  ghost predicate Stays(s: System, s': System) {
    s'.loopback == s.loopback && s'.reuse == s.reuse && s.sent <= s'.sent && s.own <= s'.own && s.decided <= s'.decided
  }

  ghost predicate OnlyMoves(s: System, s': System, i: nat) {
    && Stays(s, s') && s'.replicas.Keys == s.replicas.Keys
    && forall j :: j in s.replicas && j != i ==> s'.replicas[j] == s.replicas[j]
  }

  lemma Acts(s: System, i: nat, ev: Event) returns (s': System)
    requires Reachable(s) && CanHandle(s, i, ev)
    ensures Reachable(s') && s' == After(s, i, ev) && OnlyMoves(s, s', i)
  {
    s' := After(s, i, ev);
    assert CorrectStep(s, s');
    ReachNext(s, s');
  }

  /** What replica 3 sends: it votes for the request, and later claims another one. */
  ghost function Lies(t: int): seq<Message> {
    [Prepare(3, 0, 1, OfRequest(t)), Commit(3, 0, 1, OfRequest(t)), ClaimOf(3, FORGED)]
  }

  ghost predicate Lied(s: System, t: int) {
    && Prepare(3, 0, 1, OfRequest(t)) in s.sent && Commit(3, 0, 1, OfRequest(t)) in s.sent
    && ClaimOf(3, FORGED) in s.sent
  }

  lemma ProposedAndLied(loopback: bool, t: int) returns (s: System)
    ensures Reachable(s) && s.loopback == loopback && !s.reuse && Lied(s, t)
    ensures s.replicas.Keys == {1, 2, 4} && s.replicas[1] == Proposer(Recorded(1, t))
    ensures s.replicas[2] == Fresh(2) && s.replicas[4] == Fresh(4)
    ensures PrePrepare(1, 0, 1, t, OfRequest(t)) in s.sent
  {
    StartReachable(loopback);
    var s0 := Forge(Start(loopback), Lies(t));
    assert Lies(t)[0] in Elements(Lies(t)) && Lies(t)[1] in Elements(Lies(t)) && Lies(t)[2] in Elements(Lies(t));
    PrimaryProposes(t);
    s := Acts(s0, 1, Propose(t));
    assert Fresh(1).Propose(t).sent[0] in Elements(Fresh(1).Propose(t).sent);
  }

  lemma SecondPrepares(loopback: bool, t: int) returns (s: System)
    ensures Reachable(s) && s.loopback == loopback && !s.reuse && Lied(s, t)
    ensures s.replicas.Keys == {1, 2, 4} && s.replicas[1] == Proposer(Recorded(1, t))
    ensures s.replicas[2] == WithFirst(2, Prepared(2, 3, t)) && s.replicas[4] == Fresh(4)
    ensures PrePrepare(1, 0, 1, t, OfRequest(t)) in s.sent && Prepare(2, 0, 1, OfRequest(t)) in s.sent
  {
    var s0 := ProposedAndLied(loopback, t);
    PreparesFor(2, 3, t, OfRequest(t));
    s := ClusterArrives(s0, 2, [PrePrepare(1, 0, 1, t, OfRequest(t)), Prepare(3, 0, 1, OfRequest(t))]);
  }

  lemma BackupsPrepare(loopback: bool, t: int) returns (s: System)
    ensures Reachable(s) && s.loopback == loopback && !s.reuse && Lied(s, t)
    ensures s.replicas.Keys == {1, 2, 4} && s.replicas[1] == Proposer(Recorded(1, t))
    ensures s.replicas[2] == WithFirst(2, Prepared(2, 3, t))
    ensures Prepare(2, 0, 1, OfRequest(t)) in s.sent && Commit(4, 0, 1, OfRequest(t)) in s.sent
  {
    var s1 := SecondPrepares(loopback, t);
    PreparesFor(4, 2, t, OfRequest(t));
    s := ClusterArrives(s1, 4, [PrePrepare(1, 0, 1, t, OfRequest(t)), Prepare(2, 0, 1, OfRequest(t))]);
  }

  lemma PrimaryCommits(loopback: bool, t: int) returns (s: System)
    ensures Reachable(s) && s.loopback == loopback && !s.reuse && Lied(s, t)
    ensures s.replicas.Keys == {1, 2, 4} && s.replicas[1] == Proposer(Prepared(1, 2, t))
    ensures s.replicas[2] == WithFirst(2, Prepared(2, 3, t))
    ensures Commit(1, 0, 1, OfRequest(t)) in s.sent && Commit(4, 0, 1, OfRequest(t)) in s.sent
  {
    var s0 := BackupsPrepare(loopback, t);
    PrimaryPrepares(t);
    var m := Prepare(2, 0, 1, OfRequest(t));
    s := Acts(s0, 1, Receive(m, true, []));
    var o := Arrive(Proposer(Recorded(1, t)), m);
    assert o.sent[0] in Elements(o.sent);
  }

  /** Votes touch only the log, above its stable number, and the delivery queue. */
  ghost predicate OnlyVotes(r: ReplicaState, r': ReplicaState) {
    r' == r.(log := r'.log, deliverCh := r'.deliverCh) && r'.log.lastStable == r.log.lastStable
  }

  lemma ArriveKeeps(r: ReplicaState, m: Message)
    requires r.n > 0 && VoteKind(m)
    ensures OnlyVotes(r, Arrive(r, m).state)
  {
    if m.PrePrepare? {
      A.EchoSettles(r, m, r.log.At(m.num).RecordPrePrepare(r.id, r.view, m.ts).0);
    }
  }

  lemma {:induction false} ArriveAllKeeps(r: ReplicaState, ms: seq<Message>)
    requires r.n > 0 && forall m :: m in ms ==> VoteKind(m)
    ensures OnlyVotes(r, ArriveAll(r, ms).state)
    decreases |ms|
  {
    if ms != [] {
      ArriveKeeps(r, ms[0]);
      ArriveAllKeeps(Arrive(r, ms[0]).state, ms[1..]);
    }
  }

  lemma SecondDecides(loopback: bool, t: int) returns (s: System)
    ensures Reachable(s) && s.loopback == loopback && !s.reuse && Lied(s, t)
    ensures s.replicas.Keys == {1, 2, 4} && s.replicas[1] == Proposer(Prepared(1, 2, t))
    ensures OnlyVotes(Fresh(2), s.replicas[2]) && (2, Decision(FirstVote(t), t)) in s.decided
  {
    var s0 := PrimaryCommits(loopback, t);
    var ms := [Commit(1, 0, 1, OfRequest(t)), Commit(3, 0, 1, OfRequest(t)), Commit(4, 0, 1, OfRequest(t))];
    DecidesFor(2, 3, t, 1, 3, 4);
    ArriveAllKeeps(s0.replicas[2], ms);
    s := ClusterArrives(s0, 2, ms);
  }

  lemma PrimaryTimesOut(loopback: bool, t: int) returns (s: System)
    ensures Reachable(s) && s.loopback == loopback && !s.reuse && Lied(s, t)
    ensures s.replicas.Keys == {1, 2, 4} && OnlyVotes(Fresh(2), s.replicas[2])
    ensures (2, Decision(FirstVote(t), t)) in s.decided
    ensures ClaimOf(1, FirstVote(t)) in s.sent && ClaimOf(1, FirstVote(t)) in s.own
  {
    var s0 := SecondDecides(loopback, t);
    PrimaryCertificates(t);
    s := Acts(s0, 1, Timeout([FirstVote(t)]));
    var o := s0.replicas[1].StartViewChange([FirstVote(t)]);
    assert o.sent[0] == ClaimOf(1, FirstVote(t)) && o.sent[0] in Elements(o.sent);
  }

  lemma FirstClaimArrives(r: ReplicaState, t: int)
    requires OnlyVotes(Fresh(2), r)
    ensures
      var o := r.OnViewChange(ClaimOf(1, FirstVote(t)), []);
      o.state == r.(viewChangeMsgs := map[1 := ClaimOf(1, FirstVote(t))]) && o.sent == []
    ensures !r.CompletesViewChange(ClaimOf(1, FirstVote(t)))
  {
    assert map[][1 := ClaimOf(1, FirstVote(t))] == map[1 := ClaimOf(1, FirstVote(t))];
    assert |map[1 := ClaimOf(1, FirstVote(t))]| == 1;
  }

  lemma BothClaims(ms: map<nat, Message>, t: int)
    requires ms == map[1 := ClaimOf(1, FirstVote(t)), 3 := ClaimOf(3, FORGED)]
    ensures |ms| == 2 && ms.Values == Claims(t)
  {
    assert ms[1] in ms.Values && ms[3] in ms.Values;
  }

  lemma SecondClaimArrives(r: ReplicaState, t: int)
    requires OnlyVotes(Fresh(2).(viewChangeMsgs := map[1 := ClaimOf(1, FirstVote(t))]), r)
    ensures Enabled(r, Receive(ClaimOf(3, FORGED), true, [Proposal(1, Opaque(0))]))
    ensures
      var o := r.OnViewChange(ClaimOf(3, FORGED), [Proposal(1, Opaque(0))]);
      |o.sent| >= 1 && o.sent[0] == NewView(2, 1, [Proposal(1, Opaque(0))])
  {
    var first := ClaimOf(1, FirstVote(t));
    var ms := r.CollectViewChange(ClaimOf(3, FORGED));
    assert ms == map[1 := first, 3 := ClaimOf(3, FORGED)];
    BothClaims(ms, t);
    ForgedSet(t);
  }

  lemma NewViewSent(loopback: bool, t: int) returns (s: System)
    ensures Reachable(s) && s.loopback == loopback && !s.reuse
    ensures (2, Decision(FirstVote(t), t)) in s.decided
    ensures ClaimOf(1, FirstVote(t)) in s.own && NewView(2, 1, [Proposal(1, Opaque(0))]) in s.own
  {
    var s0 := PrimaryTimesOut(loopback, t);
    FirstClaimArrives(s0.replicas[2], t);
    var s1 := Acts(s0, 2, Receive(ClaimOf(1, FirstVote(t)), true, []));
    SecondClaimArrives(s1.replicas[2], t);
    var ps := [Proposal(1, Opaque(0))];
    var o := s1.replicas[2].OnViewChange(ClaimOf(3, FORGED), ps);
    s := Acts(s1, 2, Receive(ClaimOf(3, FORGED), true, ps));
    assert o.sent[0] in Elements(o.sent);
  }

  /**
   * Four replicas, replica 3 faulty, whether or not multicasts reach their sender, and no reuse of signatures: for any
   * timestamp there is a run in which correct replica 2 commits the request under number 1, correct replica 1 certifies
   * it in its view-change, and the new primary still re-proposes what replica 3 made up. It had no choice: every
   * new-view set over those view-changes does.
   */
  lemma CommitIsDropped(loopback: bool, t: int) returns (trace: seq<System>, d: Decision)
    ensures IsRun(trace) && !trace[0].reuse && trace[0].loopback == loopback
    ensures
      var s := trace[|trace| - 1];
      && (2, d) in s.decided && d.ts == t && d.vote == FirstVote(t)
      && ClaimOf(1, FirstVote(t)) in s.own && NewView(2, 1, [Proposal(1, Opaque(0))]) in s.own
    ensures forall minS, maxS, ps ::
      IsMinS(0, Claims(t), minS) && IsMaxS(Claims(t), maxS) && Covers(Claims(t), minS, maxS, ps) ==>
      minS == 0 && !Reproposes(ps, 1, d.vote.digest)
  {
    var s := NewViewSent(loopback, t);
    trace := TraceTo(s);
    d := Decision(FirstVote(t), t);
    A.SettingStays(trace, |trace| - 1);
    forall minS, maxS, ps | IsMinS(0, Claims(t), minS) && IsMaxS(Claims(t), maxS) && Covers(Claims(t), minS, maxS, ps)
      ensures minS == 0 && !Reproposes(ps, 1, d.vote.digest)
    {
      ForgeryWins(t, minS, maxS, ps);
    }
  }
}
