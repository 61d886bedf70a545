/** A run in which reused signatures make two correct replicas commit different requests under one number. */
module PbftDisagreement {
  import opened Options
  import opened PbftMessages
  import opened PbftEntry
  import opened PbftLog
  import opened PbftNewView
  import opened PbftReplica
  import opened PbftSystem
  import A = PbftAgreement
  import opened PbftRuns
  import opened Quorum
  import Runs

  /** The signature of a prepare serves for the commit with the same fields. */
  lemma Reuse(s: System, from: nat, view: nat, num: nat, d: Digest) returns (s': System)
    requires Reachable(s) && s.reuse && Prepare(from, view, num, d) in s.sent
    ensures Reachable(s') && s' == s.(sent := s.sent + {Commit(from, view, num, d)})
  {
    s' := s.(sent := s.sent + {Commit(from, view, num, d)});
    assert Reuses(s, Prepare(from, view, num, d), Commit(from, view, num, d));
    assert ReuseStep(s, s');
    ReachNext(s, s');
  }

  // ---- The run ---------------------------------------------------------------------------------

  ghost function Start(loopback: bool): System {
    System(N, 1, {1}, loopback, true, map i | 2 <= i <= N :: Fresh(i), {}, {}, {})
  }

  lemma StartReachable(loopback: bool)
    ensures Reachable(Start(loopback))
  {
    ClusterSize(N);
    assert Start(loopback).replicas.Keys == Cluster(N) - {1};
    Runs.InitReachable(Init, Next, Start(loopback));
  }

  /** What the faulty primary sends: pre-prepares with each other's digest, and votes for both requests. */
  ghost function Offers(t: int, t': int): seq<Message> {
    [PrePrepare(1, 0, 1, t', OfRequest(t)), PrePrepare(1, 0, 1, t, OfRequest(t')), Prepare(1, 0, 1, OfRequest(t')),
     Prepare(1, 0, 1, OfRequest(t)), Commit(1, 0, 1, OfRequest(t')), Commit(1, 0, 1, OfRequest(t))]
  }

  ghost predicate Offered(s: System, t: int, t': int) {
    forall k :: 0 <= k < 6 ==> Offers(t, t')[k] in s.sent
  }

  lemma OffersForged(loopback: bool, t: int, t': int) returns (s: System)
    ensures Reachable(s) && s.loopback == loopback && s.reuse && s.replicas == Start(loopback).replicas
    ensures Offered(s, t, t')
  {
    StartReachable(loopback);
    s := Forge(Start(loopback), Offers(t, t'));
    forall k | 0 <= k < 6
      ensures Offers(t, t')[k] in s.sent
    {
      assert Offers(t, t')[k] in Elements(Offers(t, t'));
    }
  }

  /** Replica i has prepared t' and named t in its prepare. */
  ghost predicate Misled(s: System, i: nat, t: int, t': int) {
    && i in s.replicas && s.replicas[i] == WithFirst(i, Prepared(i, 1, t'))
    && Prepare(i, 0, 1, OfRequest(t)) in s.sent && Commit(i, 0, 1, OfRequest(t')) in s.sent
  }

  ghost predicate OnlyMoves(s: System, s': System, i: nat) {
    && s'.replicas.Keys == s.replicas.Keys && s'.loopback == s.loopback && s'.reuse == s.reuse
    && (forall j :: j in s.replicas && j != i ==> s'.replicas[j] == s.replicas[j])
    && s.sent <= s'.sent && s.decided <= s'.decided
  }

  /** A pre-prepare for t' carries the digest of t: the replica's prepare names t although it recorded t'. */
  lemma OneAnswers(s: System, i: nat, t: int, t': int) returns (s': System)
    requires Reachable(s) && 2 <= i <= N && i in s.replicas && s.replicas[i] == Fresh(i)
    requires PrePrepare(1, 0, 1, t', OfRequest(t)) in s.sent && Prepare(1, 0, 1, OfRequest(t')) in s.sent
    ensures Reachable(s') && OnlyMoves(s, s', i) && Misled(s', i, t, t')
  {
    PreparesFor(i, 1, t', OfRequest(t));
    s' := ClusterArrives(s, i, [PrePrepare(1, 0, 1, t', OfRequest(t)), Prepare(1, 0, 1, OfRequest(t'))]);
  }

  lemma AllAnswer(loopback: bool, t: int, t': int) returns (s: System)
    ensures Reachable(s) && s.loopback == loopback && s.reuse && Offered(s, t, t')
    ensures Misled(s, 2, t, t') && Misled(s, 3, t, t') && Misled(s, 4, t', t)
  {
    var s0 := OffersForged(loopback, t, t');
    assert Offers(t, t')[0] in s0.sent && Offers(t, t')[1] in s0.sent;
    assert Offers(t, t')[2] in s0.sent && Offers(t, t')[3] in s0.sent;
    var s1 := OneAnswers(s0, 2, t, t');
    var s2 := OneAnswers(s1, 3, t, t');
    s := OneAnswers(s2, 4, t', t);
    OfferedStays(s0, s, t, t');
  }

  lemma OfferedStays(s: System, s': System, t: int, t': int)
    requires Offered(s, t, t') && s.sent <= s'.sent
    ensures Offered(s', t, t')
  {
  }

  /** Three commits, none of them the replica's own. */
  lemma OneDecides(s: System, i: nat, t: int, a: nat, b: nat, c: nat) returns (s': System)
    requires Reachable(s) && i in s.replicas && s.replicas[i] == WithFirst(i, Prepared(i, 1, t))
    requires a != b && a != c && b != c && i != a && i != b && i != c
    requires Commit(a, 0, 1, OfRequest(t)) in s.sent && Commit(b, 0, 1, OfRequest(t)) in s.sent
    requires Commit(c, 0, 1, OfRequest(t)) in s.sent
    ensures Reachable(s') && OnlyMoves(s, s', i) && (i, Decision(FirstVote(t), t)) in s'.decided
  {
    DecidesFor(i, 1, t, a, b, c);
    s' := ClusterArrives(s, i,
        [Commit(a, 0, 1, OfRequest(t)), Commit(b, 0, 1, OfRequest(t)), Commit(c, 0, 1, OfRequest(t))]);
  }

  lemma BothDecide(loopback: bool, t: int, t': int) returns (s: System)
    ensures Reachable(s) && s.loopback == loopback && s.reuse
    ensures (2, Decision(FirstVote(t'), t')) in s.decided && (4, Decision(FirstVote(t), t)) in s.decided
  {
    var s0 := AllAnswer(loopback, t, t');
    assert Offers(t, t')[4] in s0.sent && Offers(t, t')[5] in s0.sent;
    var s1 := Reuse(s0, 4, 0, 1, OfRequest(t'));
    var s2 := OneDecides(s1, 2, t', 1, 3, 4);
    var s3 := Reuse(s2, 2, 0, 1, OfRequest(t));
    var s4 := Reuse(s3, 3, 0, 1, OfRequest(t));
    s := OneDecides(s4, 4, t, 1, 2, 3);
  }

  /**
   * Four replicas, one of them faulty, and signatures that can be reused: for any two timestamps, and whether or not
   * multicasts reach their sender, there is a run in which correct replicas 2 and 4 commit one each under number 1.
   * They count prepares as commits.
   */
  lemma AgreementNeedsTheChecks(loopback: bool, t: int, t': int) returns (trace: seq<System>, d: Decision, d': Decision)
    requires t != t'
    ensures IsRun(trace) && trace[0].reuse && trace[0].loopback == loopback
    ensures
      var s := trace[|trace| - 1];
      && (2, d') in s.decided && (4, d) in s.decided && d.vote.num == d'.vote.num
      && d.ts == t && d'.ts == t' && d.vote.digest != d'.vote.digest
  {
    var s := BothDecide(loopback, t, t');
    trace := TraceTo(s);
    d, d' := Decision(FirstVote(t), t), Decision(FirstVote(t'), t');
    A.SettingStays(trace, |trace| - 1);
  }
}
