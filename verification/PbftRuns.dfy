/** Tools to build runs: reachable states, replicas that handle lists of votes, and a cluster of four that commits. */
module PbftRuns {
  import opened Options
  import opened PbftMessages
  import opened PbftEntry
  import opened PbftLog
  import opened PbftNewView
  import opened PbftReplica
  import opened PbftSystem
  import opened Quorum
  import Runs

  ghost predicate Reachable(s: System) {
    Runs.Reachable(Init, Next, s)
  }

  lemma ReachNext(s: System, s': System)
    requires Reachable(s) && Next(s, s')
    ensures Reachable(s')
  {
    Runs.NextReachable(Init, Next, s, s');
  }

  lemma TraceTo(s: System) returns (trace: seq<System>)
    requires Reachable(s)
    ensures IsRun(trace) && trace[|trace| - 1] == s
  {
    trace := Runs.TraceTo(Init, Next, s);
    forall k | 0 < k < |trace|
      ensures StepOf(trace, k)
    {
      assert Next(trace[k - 1], trace[k - 1 + 1]);
    }
  }

  // ---- One replica that handles a list of messages ---------------------------------------------

  /** A pre-prepare, a prepare or a commit. */
  predicate VoteKind(m: Message) {
    m.PrePrepare? || m.Prepare? || m.Commit?
  }

  function Arrive(r: ReplicaState, m: Message): (o: Outcome)
    requires r.n > 0 && VoteKind(m)
    ensures o.state.n == r.n
  {
    match m
    case PrePrepare(_, _, _, _, _) => r.OnPrePrepare(m, true)
    case Prepare(_, _, _, _) => r.OnPrepare(m, true)
    case Commit(_, _, _, _) => r.OnCommit(m)
  }

  datatype Result = Result(state: ReplicaState, sent: set<Message>, decided: set<Decision>)

  /** State, messages sent and decisions made after a list of messages. */
  ghost function ArriveAll(r: ReplicaState, ms: seq<Message>): Result
    requires r.n > 0 && forall m :: m in ms ==> VoteKind(m)
    decreases |ms|
  {
    if ms == [] then Result(r, {}, {})
    else
      var o := Arrive(r, ms[0]);
      var rest := ArriveAll(o.state, ms[1..]);
      Result(rest.state, Elements(o.sent) + rest.sent,
          (if o.decided.Some? then {o.decided.value} else {}) + rest.decided)
  }

  lemma ClusterArrivesOne(s: System, i: nat, m: Message) returns (s': System)
    requires Reachable(s) && i in s.replicas && s.replicas[i].n > 0
    requires VoteKind(m) && m in s.sent && m.from != i
    ensures Reachable(s')
    ensures
      var o := Arrive(s.replicas[i], m);
      s' == s.(replicas := s.replicas[i := o.state], sent := s.sent + Elements(o.sent), own := s.own + Elements(o.sent),
               decided := s.decided + Decisions(i, o.decided))
  {
    var ev := Receive(m, true, []);
    assert CanHandle(s, i, ev);
    assert Handle(s.replicas[i], ev) == Arrive(s.replicas[i], m);
    s' := After(s, i, ev);
    assert CorrectStep(s, s');
    ReachNext(s, s');
  }

  /** Inside the cluster: replica i handles messages that are all on the network already. */
  lemma {:induction false} ClusterArrives(s: System, i: nat, ms: seq<Message>) returns (s': System)
    requires Reachable(s) && i in s.replicas && s.replicas[i].n > 0
    requires forall m :: m in ms ==> VoteKind(m) && m in s.sent && m.from != i
    ensures Reachable(s')
    ensures
      var o := ArriveAll(s.replicas[i], ms);
      && s' == s.(replicas := s.replicas[i := o.state], sent := s.sent + o.sent, own := s'.own, decided := s'.decided)
      && s.decided <= s'.decided && forall d :: d in o.decided ==> (i, d) in s'.decided
    decreases |ms|
  {
    if ms == [] {
      s' := s;
      assert s.replicas[i := s.replicas[i]] == s.replicas && s.sent + {} == s.sent;
    } else {
      assert ms[0] in ms;
      var mid := ClusterArrivesOne(s, i, ms[0]);
      var o := Arrive(s.replicas[i], ms[0]);
      s' := ClusterArrives(mid, i, ms[1..]);
      var rest := ArriveAll(o.state, ms[1..]);
      assert mid.replicas[i := rest.state] == s.replicas[i := rest.state];
      assert mid.sent + rest.sent == s.sent + (Elements(o.sent) + rest.sent);
    }
  }

  lemma {:induction false} Forge(s: System, ms: seq<Message>) returns (s': System)
    requires Reachable(s) && forall m :: m in ms ==> m.from in s.faulty
    ensures Reachable(s') && s' == s.(sent := s.sent + Elements(ms))
    decreases |ms|
  {
    if ms == [] {
      s' := s;
      assert s.sent + Elements(ms) == s.sent;
    } else {
      assert ms[0] in ms;
      var mid := s.(sent := s.sent + {ms[0]});
      assert FaultyStep(s, mid);
      ReachNext(s, mid);
      s' := Forge(mid, ms[1..]);
      assert {ms[0]} + Elements(ms[1..]) == Elements(ms);
      assert s.sent + {ms[0]} + Elements(ms[1..]) == s.sent + Elements(ms);
    }
  }

  // ---- The votes -------------------------------------------------------------------------------

  /** A cluster of four, in which replica 1 is the primary of view 0. */
  const N := 4

  function FirstVote(t: int): Vote {
    Vote(0, 1, OfRequest(t))
  }

  lemma TwoMatch(a: nat, b: nat, v: Vote)
    requires a != b
    ensures |Matching(map[a := v, b := v], v)| == 2 && |Matching(map[a := v], v)| == 1
  {
    assert Matching(map[a := v, b := v], v) == {a, b};
    assert Matching(map[a := v], v) == {a};
  }

  lemma ThreeMatch(a: nat, b: nat, c: nat, v: Vote)
    requires a != b && a != c && b != c
    ensures |Matching(map[a := v, b := v, c := v], v)| == 3
  {
    assert Matching(map[a := v, b := v, c := v], v) == {a, b, c};
  }

  function Fresh(i: nat): ReplicaState {
    NewReplica(i, N)
  }

  function WithFirst(i: nat, e: Entry): ReplicaState {
    Fresh(i).(log := EmptyLog().(entries := map[1 := e]))
  }

  function Recorded(i: nat, t: int): Entry {
    Entry(1, t, Some(FirstVote(t)), map[i := FirstVote(t)], map[], true, false, false, false, false)
  }

  function Prepared(i: nat, j: nat, t: int): Entry {
    Entry(1, t, Some(FirstVote(t)), map[i := FirstVote(t), j := FirstVote(t)], map[], true, true, true, false, false)
  }

  /** The pre-prepare is recorded under the digest of its timestamp t, and answered with the digest it names. */
  lemma FirstArrives(i: nat, t: int, d: Digest)
    requires 2 <= i <= N
    ensures Arrive(Fresh(i), PrePrepare(1, 0, 1, t, d))
        == Outcome(WithFirst(i, Recorded(i, t)), [Prepare(i, 0, 1, d)], None)
  {
    var m := PrePrepare(1, 0, 1, t, d);
    TwoMatch(i, 1, FirstVote(t));
    assert map[][i := FirstVote(t)] == map[i := FirstVote(t)];
    var e := FreshEntry(1).RecordPrePrepare(i, 0, t).0;
    assert e == Recorded(i, t);
    assert !e.CheckPrepared(1).1;
    assert map[][1 := e] == map[1 := e] && map[1 := e][1 := e] == map[1 := e];
    assert Fresh(i).WithEntry(1, e) == WithFirst(i, e);
    assert Fresh(i).OnPrePrepare(m, true) == WithFirst(i, e).Echo(m);
  }

  /** A second matching prepare completes the entry. */
  lemma SecondArrives(i: nat, j: nat, t: int)
    requires 2 <= i <= N && j != i
    ensures Arrive(WithFirst(i, Recorded(i, t)), Prepare(j, 0, 1, OfRequest(t)))
         == Outcome(WithFirst(i, Prepared(i, j, t)), [Commit(i, 0, 1, OfRequest(t))], None)
  {
    var v := FirstVote(t);
    TwoMatch(i, j, v);
    assert map[i := v][j := v] == map[i := v, j := v];
    var e := Recorded(i, t);
    assert e.TryPrepare(1, j, v) == (Prepared(i, j, t), true);
    assert map[1 := e][1 := Prepared(i, j, t)] == map[1 := Prepared(i, j, t)];
  }

  function Committing(e: Entry, commits: map<nat, Vote>): Entry {
    e.(commits := commits)
  }

  /** A commit that is not yet the third. */
  lemma CommitArrives(i: nat, e: Entry, k: nat, t: int)
    requires e.num == 1 && k !in e.commits && e.prePrepare == Some(FirstVote(t)) && |e.commits| <= 1
    ensures Arrive(WithFirst(i, e), Commit(k, 0, 1, OfRequest(t)))
         == Outcome(WithFirst(i, Committing(e, e.commits[k := FirstVote(t)])), [], None)
  {
    var v := FirstVote(t);
    var e' := Committing(e, e.commits[k := v]);
    assert |e'.commits| <= 2;
    SubsetSize(Matching(e'.commits, v), e'.commits.Keys);
    assert |e'.commits.Keys| == |e'.commits|;
    assert !e'.CheckCommitted(1).1;
    assert map[1 := e][1 := e'] == map[1 := e'];
  }

  /** The third one decides. */
  lemma ThirdArrives(i: nat, e: Entry, a: nat, b: nat, c: nat, t: int)
    requires e.num == 1 && e.prepared && !e.committed && e.prePrepare == Some(FirstVote(t)) && e.ts == t
    requires a != b && a != c && b != c && e.commits == map[a := FirstVote(t), b := FirstVote(t)]
    ensures Arrive(WithFirst(i, e), Commit(c, 0, 1, OfRequest(t))).decided == Some(Decision(FirstVote(t), t))
  {
    var v := FirstVote(t);
    ThreeMatch(a, b, c, v);
    assert e.commits[c := v] == map[a := v, b := v, c := v];
    assert Committing(e, e.commits[c := v]).CheckCommitted(1).1;
  }

  lemma Two<T>(ms: seq<T>, a: T, b: T)
    requires ms == [a, b]
    ensures ms[1..] == [b] && ms[1..][1..] == []
  {
  }

  /** From the start: pre-prepare and one prepare. */
  lemma PreparesFor(i: nat, j: nat, t: int, d: Digest)
    requires 2 <= i <= N && j != i
    ensures
      var o := ArriveAll(Fresh(i), [PrePrepare(1, 0, 1, t, d), Prepare(j, 0, 1, OfRequest(t))]);
      && o.state == WithFirst(i, Prepared(i, j, t))
      && o.sent == {Prepare(i, 0, 1, d), Commit(i, 0, 1, OfRequest(t))}
  {
    var first, second := PrePrepare(1, 0, 1, t, d), Prepare(j, 0, 1, OfRequest(t));
    FirstArrives(i, t, d);
    SecondArrives(i, j, t);
    Two([first, second], first, second);
    assert ArriveAll(WithFirst(i, Recorded(i, t)), [second]).state == WithFirst(i, Prepared(i, j, t)) by {
      assert [second][1..] == [];
    }
  }

  /** Then three commits. */
  lemma DecidesFor(i: nat, j: nat, t: int, a: nat, b: nat, c: nat)
    requires a != b && a != c && b != c
    ensures
      var ms := [Commit(a, 0, 1, OfRequest(t)), Commit(b, 0, 1, OfRequest(t)), Commit(c, 0, 1, OfRequest(t))];
      Decision(FirstVote(t), t) in ArriveAll(WithFirst(i, Prepared(i, j, t)), ms).decided
  {
    var v, e := FirstVote(t), Prepared(i, j, t);
    var m1, m2, m3 := Commit(a, 0, 1, OfRequest(t)), Commit(b, 0, 1, OfRequest(t)), Commit(c, 0, 1, OfRequest(t));
    var e1 := Committing(e, map[a := v]);
    var e2 := Committing(e, map[a := v, b := v]);
    assert map[][a := v] == map[a := v] && map[a := v][b := v] == map[a := v, b := v];
    CommitArrives(i, e, a, t);
    assert Committing(e, e.commits[a := v]) == e1;
    CommitArrives(i, e1, b, t);
    assert Committing(e1, e1.commits[b := v]) == e2;
    ThirdArrives(i, e2, a, b, c, t);
    assert [m1, m2, m3][1..] == [m2, m3] && [m2, m3][1..] == [m3] && [m3][1..] == [];
    assert Decision(v, t) in ArriveAll(WithFirst(i, e2), [m3]).decided;
    assert Decision(v, t) in ArriveAll(WithFirst(i, e1), [m2, m3]).decided;
  }
}
