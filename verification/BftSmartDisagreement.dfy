/** Runs in which correct replicas part: over the digest when signatures are reused, and over the batch without that. */
module BftSmartDisagreement {
  import opened Options
  import opened Quorum
  import opened BftSmartEntry
  import opened BftSmartReplica
  import opened BftSmartAgreement
  import opened BftSmartSignatures
  import Runs

  ghost predicate Reachable(s: System) {
    Runs.Reachable(Init, Next, s)
  }

  lemma ReachNext(s: System, s': System)
    requires Reachable(s) && Next(s, s')
    ensures Reachable(s')
  {
    Runs.NextReachable(Init, Next, s, s');
  }

  lemma TraceTo(s: System) returns (trace: seq<System>)
    requires Reachable(s)
    ensures IsRun(trace) && trace[|trace| - 1] == s
  {
    trace := Runs.TraceTo(Init, Next, s);
  }

  // ---- One replica and its first instance ------------------------------------------------------

  function FirstVote(view: nat, d: Digest): Vote {
    Vote(view, 1, d)
  }

  /** A replica with nothing but the record of instance 1. */
  function WithFirst(i: nat, n: nat, view: nat, e: Entry): ReplicaState {
    NewReplica(i, n, view).(entries := map[1 := e])
  }

  /** The record of instance 1 after its proposal. */
  function Proposed(i: nat, view: nat, batch: seq<int>, d: Digest): Entry {
    var v := FirstVote(view, d);
    Entry(1, view, Some(v), batch, map[i := v], map[], true, false, false, false, false)
  }

  lemma ProposeArrives(i: nat, n: nat, view: nat, batch: seq<int>, d: Digest)
    requires n >= 4
    ensures Handle(NewReplica(i, n, view), Receive(Propose(view % n + 1, 1, view, batch, d), true, i, i))
         == Outcome(WithFirst(i, n, view, Proposed(i, view, batch, d)), [Write(i, 1, view, d)], None)
  {
    var r, m, v := NewReplica(i, n, view), Propose(view % n + 1, 1, view, batch, d), FirstVote(view, d);
    var e := Proposed(i, view, batch, d);
    assert map[][i := v] == map[i := v];
    assert FreshEntry(1).RecordPropose(i, view, batch, d) == (e, true);
    assert Matching(e.writes, v) == {i};
    assert e.CheckWritten(r.F(), i) == (e, false);
    assert map[][1 := e] == map[1 := e] && map[1 := e][1 := e] == map[1 := e];
    assert r.Put(1, e) == WithFirst(i, n, view, e);
    assert WithFirst(i, n, view, e).Recheck(m, i, i) == Outcome(WithFirst(i, n, view, e), [], None);
  }

  /** A write that completes nothing, counted against reference `ref`. */
  lemma WriteWaits(i: nat, n: nat, view: nat, e: Entry, k: nat, d: Digest, ref: nat)
    requires n >= 4 && e.cid == 1 && k !in e.writes
    requires
      var votes := e.writes[k := FirstVote(view, d)];
      ref in votes && |Matching(votes, votes[ref])| <= 2 * ((n - 1) / 3)
    ensures Handle(WithFirst(i, n, view, e), Receive(Write(k, 1, view, d), true, ref, ref))
         == Outcome(WithFirst(i, n, view, e.(writes := e.writes[k := FirstVote(view, d)])), [], None)
  {
    var e' := e.(writes := e.writes[k := FirstVote(view, d)]);
    assert map[1 := e][1 := e'] == map[1 := e'];
  }

  /** The record after a last write from replica k. */
  function Accepting(e: Entry, k: nat, v: Vote): Entry {
    e.(writes := e.writes[k := v], written := true, sentAccept := true)
  }

  /** A write that completes the quorum of reference `ref`: its own digest is the one accepted. */
  lemma WriteFires(i: nat, n: nat, view: nat, e: Entry, k: nat, d: Digest, ref: nat)
    requires n >= 4 && e.cid == 1 && k !in e.writes && e.sentWrite && !e.written
    requires
      var votes := e.writes[k := FirstVote(view, d)];
      ref in votes && |Matching(votes, votes[ref])| >= 2 * ((n - 1) / 3) + 1
    ensures Handle(WithFirst(i, n, view, e), Receive(Write(k, 1, view, d), true, ref, ref))
         == Outcome(WithFirst(i, n, view, Accepting(e, k, FirstVote(view, d))), [Accept(i, 1, view, d)], None)
  {
    var e' := Accepting(e, k, FirstVote(view, d));
    assert map[1 := e][1 := e'] == map[1 := e'];
  }

  lemma AcceptWaits(i: nat, n: nat, view: nat, e: Entry, k: nat, d: Digest, ref: nat)
    requires n >= 4 && e.cid == 1 && k !in e.accepts
    requires
      var votes := e.accepts[k := FirstVote(view, d)];
      ref in votes && |Matching(votes, votes[ref])| <= 2 * ((n - 1) / 3)
    ensures Handle(WithFirst(i, n, view, e), Receive(Accept(k, 1, view, d), true, ref, ref))
         == Outcome(WithFirst(i, n, view, e.(accepts := e.accepts[k := FirstVote(view, d)])), [], None)
  {
    var e' := e.(accepts := e.accepts[k := FirstVote(view, d)]);
    assert map[1 := e][1 := e'] == map[1 := e'];
  }

  lemma AcceptFires(i: nat, n: nat, view: nat, e: Entry, k: nat, d: Digest)
    requires n >= 4 && e.cid == 1 && k !in e.accepts && !e.accepted
    requires
      var votes := e.accepts[k := FirstVote(view, d)];
      |Matching(votes, votes[k])| >= 2 * ((n - 1) / 3) + 1
    ensures Handle(WithFirst(i, n, view, e), Receive(Accept(k, 1, view, d), true, k, k)).decided
         == Some(Decision(FirstVote(view, d), e.batch))
  {
  }

  // ---- Inside the cluster ----------------------------------------------------------------------

  /** Replica i stands at record e. */
  ghost predicate Stands(s: System, i: nat, view: nat, e: Entry) {
    i in s.replicas && s.n >= 4 && s.replicas[i] == WithFirst(i, s.n, view, e)
  }

  /** Only replica i moved; what was sent and decided stays. */
  ghost predicate OnlyMoves(s: System, s': System, i: nat) {
    && s'.n == s.n && s'.faulty == s.faulty && s'.reuse == s.reuse && s'.replicas.Keys == s.replicas.Keys
    && (forall j :: j in s.replicas && j != i ==> s'.replicas[j] == s.replicas[j])
    && s.sent <= s'.sent && s.decided <= s'.decided
  }

  lemma Arrive(s: System, i: nat, m: Message, ref: nat) returns (s': System)
    requires Reachable(s) && i in s.replicas && s.replicas[i].n > 0 && m in s.sent
    ensures Reachable(s') && s' == After(s, i, Receive(m, true, ref, ref)) && OnlyMoves(s, s', i)
  {
    var ev := Receive(m, true, ref, ref);
    s' := After(s, i, ev);
    assert CanHandle(s, i, ev);
    assert CorrectStep(s, s');
    ReachNext(s, s');
  }

  lemma {:induction false} Forge(s: System, ms: seq<Message>) returns (s': System)
    requires Reachable(s) && forall m :: m in ms ==> m.from in s.faulty
    ensures Reachable(s') && s' == s.(sent := s'.sent) && s.sent <= s'.sent
    ensures forall k :: 0 <= k < |ms| ==> ms[k] in s'.sent
    decreases |ms|
  {
    if ms == [] {
      s' := s;
    } else {
      assert ms[0] in ms;
      var mid := s.(sent := s.sent + {ms[0]});
      assert FaultyStep(s, mid);
      ReachNext(s, mid);
      s' := Forge(mid, ms[1..]);
    }
  }

  /** The signature of a write serves for the accept with the same fields. */
  lemma ReuseWrite(s: System, k: nat, view: nat, d: Digest) returns (s': System)
    requires Reachable(s) && s.reuse && Write(k, 1, view, d) in s.sent
    ensures Reachable(s') && s' == s.(sent := s.sent + {Accept(k, 1, view, d)})
  {
    s' := s.(sent := s.sent + {Accept(k, 1, view, d)});
    assert Reuses(s, Write(k, 1, view, d), Accept(k, 1, view, d));
    assert ReuseStep(s, s');
    ReachNext(s, s');
  }

  lemma Proposes(s: System, i: nat, view: nat, batch: seq<int>, d: Digest) returns (s': System)
    requires Reachable(s) && i in s.replicas && s.n >= 4 && s.replicas[i] == NewReplica(i, s.n, view)
    requires Propose(view % s.n + 1, 1, view, batch, d) in s.sent
    ensures Reachable(s') && OnlyMoves(s, s', i) && Stands(s', i, view, Proposed(i, view, batch, d))
    ensures Write(i, 1, view, d) in s'.sent
  {
    ProposeArrives(i, s.n, view, batch, d);
    s' := Arrive(s, i, Propose(view % s.n + 1, 1, view, batch, d), i);
  }

  lemma GetsWrite(s: System, i: nat, view: nat, e: Entry, k: nat, d: Digest, ref: nat) returns (s': System)
    requires Reachable(s) && Stands(s, i, view, e) && e.cid == 1 && k !in e.writes && Write(k, 1, view, d) in s.sent
    requires
      var votes := e.writes[k := FirstVote(view, d)];
      ref in votes && |Matching(votes, votes[ref])| <= 2 * ((s.n - 1) / 3)
    ensures Reachable(s') && OnlyMoves(s, s', i)
    ensures Stands(s', i, view, e.(writes := e.writes[k := FirstVote(view, d)]))
  {
    WriteWaits(i, s.n, view, e, k, d, ref);
    s' := Arrive(s, i, Write(k, 1, view, d), ref);
  }

  lemma GetsLastWrite(s: System, i: nat, view: nat, e: Entry, k: nat, d: Digest, ref: nat) returns (s': System)
    requires Reachable(s) && Stands(s, i, view, e) && e.cid == 1 && k !in e.writes && Write(k, 1, view, d) in s.sent
    requires e.sentWrite && !e.written
    requires
      var votes := e.writes[k := FirstVote(view, d)];
      ref in votes && |Matching(votes, votes[ref])| >= 2 * ((s.n - 1) / 3) + 1
    ensures Reachable(s') && OnlyMoves(s, s', i) && Accept(i, 1, view, d) in s'.sent
    ensures Stands(s', i, view, Accepting(e, k, FirstVote(view, d)))
  {
    WriteFires(i, s.n, view, e, k, d, ref);
    s' := Arrive(s, i, Write(k, 1, view, d), ref);
  }

  /** The votes of several replicas, all alike. */
  function WithVotes(votes: map<nat, Vote>, from: seq<nat>, v: Vote): map<nat, Vote>
    decreases |from|
  {
    if from == [] then votes else WithVotes(votes[from[0] := v], from[1..], v)
  }

  lemma FewMatch(votes: map<nat, Vote>, v: Vote)
    ensures |Matching(votes, v)| <= |votes|
  {
    SubsetSize(Matching(votes, v), votes.Keys);
  }

  lemma GetsAccept(s: System, i: nat, view: nat, e: Entry, k: nat, d: Digest) returns (s': System)
    requires Reachable(s) && Stands(s, i, view, e) && e.cid == 1 && k !in e.accepts && Accept(k, 1, view, d) in s.sent
    requires |e.accepts| < 2 * ((s.n - 1) / 3)
    ensures Reachable(s') && OnlyMoves(s, s', i)
    ensures Stands(s', i, view, e.(accepts := e.accepts[k := FirstVote(view, d)]))
  {
    FewMatch(e.accepts[k := FirstVote(view, d)], FirstVote(view, d));
    AcceptWaits(i, s.n, view, e, k, d, k);
    s' := Arrive(s, i, Accept(k, 1, view, d), k);
  }

  predicate Distinct(from: seq<nat>) {
    forall a, b :: 0 <= a < b < |from| ==> from[a] != from[b]
  }

  /** New accepts that are on the network and too few to complete anything. */
  ghost predicate AcceptPending(s: System, e: Entry, view: nat, from: seq<nat>, d: Digest)
    requires s.n > 0
  {
    && |e.accepts| + |from| <= 2 * ((s.n - 1) / 3) && Distinct(from)
    && forall k :: k in from ==> k !in e.accepts && Accept(k, 1, view, d) in s.sent
  }

  ghost predicate WritePending(s: System, e: Entry, view: nat, from: seq<nat>, d: Digest)
    requires s.n > 0
  {
    && |e.writes| + |from| <= 2 * ((s.n - 1) / 3) && Distinct(from)
    && forall k :: k in from ==> k !in e.writes && Write(k, 1, view, d) in s.sent
  }

  lemma TailIsNew(from: seq<nat>, votes: map<nat, Vote>, v: Vote)
    requires Distinct(from) && from != [] && forall k :: k in from ==> k !in votes
    ensures Distinct(from[1..]) && from[0] in from && |votes[from[0] := v]| == |votes| + 1
    ensures forall k :: k in from[1..] ==> k in from && k !in votes[from[0] := v]
  {
    forall k | k in from[1..]
      ensures k in from && k != from[0]
    {
      var a :| 0 <= a < |from[1..]| && from[1..][a] == k;
      assert from[a + 1] == k;
    }
  }

  lemma MovesTwice(s: System, mid: System, s': System, i: nat)
    requires OnlyMoves(s, mid, i) && OnlyMoves(mid, s', i)
    ensures OnlyMoves(s, s', i)
  {
  }

  lemma AcceptTailPending(s: System, s': System, e: Entry, view: nat, from: seq<nat>, d: Digest)
    requires s.n > 0 && s'.n == s.n && s.sent <= s'.sent && AcceptPending(s, e, view, from, d) && from != []
    ensures AcceptPending(s', e.(accepts := e.accepts[from[0] := FirstVote(view, d)]), view, from[1..], d)
    ensures from[0] !in e.accepts && Accept(from[0], 1, view, d) in s.sent
    ensures |e.accepts| < 2 * ((s.n - 1) / 3)
  {
    TailIsNew(from, e.accepts, FirstVote(view, d));
  }

  lemma GetsFirstAccept(s: System, i: nat, view: nat, e: Entry, from: seq<nat>, d: Digest) returns (s': System)
    requires Reachable(s) && Stands(s, i, view, e) && e.cid == 1
    requires AcceptPending(s, e, view, from, d) && from != []
    ensures Reachable(s') && OnlyMoves(s, s', i)
    ensures
      var e' := e.(accepts := e.accepts[from[0] := FirstVote(view, d)]);
      Stands(s', i, view, e') && AcceptPending(s', e', view, from[1..], d)
  {
    AcceptTailPending(s, s, e, view, from, d);
    s' := GetsAccept(s, i, view, e, from[0], d);
    AcceptTailPending(s, s', e, view, from, d);
  }

  /** Fewer accepts than a quorum complete nothing. */
  lemma {:induction false} GetsAccepts(s: System, i: nat, view: nat, e: Entry, from: seq<nat>, d: Digest)
    returns (s': System)
    requires Reachable(s) && Stands(s, i, view, e) && e.cid == 1
    requires AcceptPending(s, e, view, from, d)
    ensures Reachable(s') && OnlyMoves(s, s', i)
    ensures Stands(s', i, view, e.(accepts := WithVotes(e.accepts, from, FirstVote(view, d))))
    decreases |from|
  {
    if from == [] {
      s' := s;
    } else {
      var mid := GetsFirstAccept(s, i, view, e, from, d);
      s' := GetsAccepts(mid, i, view, e.(accepts := e.accepts[from[0] := FirstVote(view, d)]), from[1..], d);
      MovesTwice(s, mid, s', i);
    }
  }

  lemma WriteTailPending(s: System, s': System, e: Entry, view: nat, from: seq<nat>, d: Digest)
    requires s.n > 0 && s'.n == s.n && s.sent <= s'.sent && WritePending(s, e, view, from, d) && from != []
    ensures WritePending(s', e.(writes := e.writes[from[0] := FirstVote(view, d)]), view, from[1..], d)
    ensures from[0] !in e.writes && Write(from[0], 1, view, d) in s.sent
    ensures |e.writes| < 2 * ((s.n - 1) / 3)
  {
    TailIsNew(from, e.writes, FirstVote(view, d));
  }

  lemma GetsFirstWrite(s: System, i: nat, view: nat, e: Entry, from: seq<nat>, d: Digest) returns (s': System)
    requires Reachable(s) && Stands(s, i, view, e) && e.cid == 1
    requires WritePending(s, e, view, from, d) && from != []
    ensures Reachable(s') && OnlyMoves(s, s', i)
    ensures
      var e' := e.(writes := e.writes[from[0] := FirstVote(view, d)]);
      Stands(s', i, view, e') && WritePending(s', e', view, from[1..], d)
  {
    WriteTailPending(s, s, e, view, from, d);
    FewMatch(e.writes[from[0] := FirstVote(view, d)], FirstVote(view, d));
    s' := GetsWrite(s, i, view, e, from[0], d, from[0]);
    WriteTailPending(s, s', e, view, from, d);
  }

  lemma {:induction false} GetsWrites(s: System, i: nat, view: nat, e: Entry, from: seq<nat>, d: Digest)
    returns (s': System)
    requires Reachable(s) && Stands(s, i, view, e) && e.cid == 1
    requires WritePending(s, e, view, from, d)
    ensures Reachable(s') && OnlyMoves(s, s', i)
    ensures Stands(s', i, view, e.(writes := WithVotes(e.writes, from, FirstVote(view, d))))
    decreases |from|
  {
    if from == [] {
      s' := s;
    } else {
      var mid := GetsFirstWrite(s, i, view, e, from, d);
      s' := GetsWrites(mid, i, view, e.(writes := e.writes[from[0] := FirstVote(view, d)]), from[1..], d);
      MovesTwice(s, mid, s', i);
    }
  }

  /** The accept that completes the quorum. */
  lemma GetsLastAccept(s: System, i: nat, view: nat, e: Entry, k: nat, d: Digest) returns (s': System)
    requires Reachable(s) && Stands(s, i, view, e) && e.cid == 1 && k !in e.accepts && !e.accepted
    requires Accept(k, 1, view, d) in s.sent
    requires
      var votes := e.accepts[k := FirstVote(view, d)];
      |Matching(votes, votes[k])| >= 2 * ((s.n - 1) / 3) + 1
    ensures Reachable(s') && OnlyMoves(s, s', i) && (i, Decision(FirstVote(view, d), e.batch)) in s'.decided
  {
    AcceptFires(i, s.n, view, e, k, d);
    s' := Arrive(s, i, Accept(k, 1, view, d), k);
  }

  lemma {:induction false} WithVotesAre(votes: map<nat, Vote>, from: seq<nat>, v: Vote)
    ensures
      var all := WithVotes(votes, from, v);
      && (forall k :: k in all <==> k in votes || k in from)
      && (forall k :: k in from ==> all[k] == v)
      && (forall k :: k in votes && k !in from ==> all[k] == votes[k])
    decreases |from|
  {
    if from != [] {
      var first := votes[from[0] := v];
      WithVotesAre(first, from[1..], v);
      assert from == [from[0]] + from[1..];
      assert forall k :: k in first <==> k in votes || k == from[0];
    }
  }

  lemma {:induction false} WithVotesSize(votes: map<nat, Vote>, from: seq<nat>, v: Vote)
    requires Distinct(from) && forall k :: k in from ==> k !in votes
    ensures |WithVotes(votes, from, v)| == |votes| + |from|
    decreases |from|
  {
    if from != [] {
      TailIsNew(from, votes, v);
      WithVotesSize(votes[from[0] := v], from[1..], v);
    }
  }

  lemma AllMatch(from: seq<nat>, k: nat, v: Vote)
    requires Distinct(from) && k !in from
    ensures k !in WithVotes(map[], from, v)
    ensures |Matching(WithVotes(map[], from, v)[k := v], v)| == |from| + 1
  {
    var votes := WithVotes(map[], from, v);
    WithVotesAre(map[], from, v);
    WithVotesSize(map[], from, v);
    assert Matching(votes[k := v], v) == votes.Keys + {k};
  }

  /** A quorum of accepts decides. */
  lemma QuorumDecides(s: System, i: nat, view: nat, e: Entry, from: seq<nat>, k: nat, d: Digest) returns (s': System)
    requires Reachable(s) && Stands(s, i, view, e) && e.cid == 1 && e.accepts == map[] && !e.accepted
    requires |from| == 2 * ((s.n - 1) / 3) && Distinct(from) && k !in from && Accept(k, 1, view, d) in s.sent
    requires forall x :: x in from ==> Accept(x, 1, view, d) in s.sent
    ensures Reachable(s') && OnlyMoves(s, s', i) && (i, Decision(FirstVote(view, d), e.batch)) in s'.decided
  {
    var v := FirstVote(view, d);
    var e' := e.(accepts := WithVotes(map[], from, v));
    AllMatch(from, k, v);
    assert AcceptPending(s, e, view, from, d);
    var mid := GetsAccepts(s, i, view, e, from, d);
    s' := GetsLastAccept(mid, i, view, e', k, d);
    MovesTwice(s, mid, s', i);
  }

  // ---- Two digests -----------------------------------------------------------------------------

  /** Replicas 1 and 7 are faulty in a cluster of seven; in regency 0 replica 1 leads. */
  ghost function StartOfSeven(): System {
    System(7, 2, {1, 7}, true, map i | 2 <= i <= 6 :: NewReplica(i, 7, 0), {}, {}, {})
  }

  lemma SevenStands()
    ensures StartOfSeven().replicas.Keys == Cluster(7) - {1, 7} && AllIn(StartOfSeven(), 0)
  {
  }

  lemma SevenReachable()
    ensures Reachable(StartOfSeven())
  {
    SevenStands();
    SevenStarts();
    Runs.InitReachable(Init, Next, StartOfSeven());
  }

  lemma SevenStarts()
    requires StartOfSeven().replicas.Keys == Cluster(7) - {1, 7} && AllIn(StartOfSeven(), 0)
    ensures Init(StartOfSeven())
  {
    ClusterSize(7);
  }

  /** What the two faulty replicas send under their own names. */
  ghost function Offers(b: seq<int>, b': seq<int>): seq<Message> {
    var d, d' := OfBatch(b), OfBatch(b');
    [Propose(1, 1, 0, b, d), Propose(1, 1, 0, b', d'), Write(1, 1, 0, d), Write(7, 1, 0, d),
     Accept(1, 1, 0, d), Accept(7, 1, 0, d), Accept(1, 1, 0, d'), Accept(7, 1, 0, d')]
  }

  ghost predicate Offered(s: System, b: seq<int>, b': seq<int>) {
    forall k :: 0 <= k < 8 ==> Offers(b, b')[k] in s.sent
  }

  /** What the faulty replicas and the first votes put on the network. */
  ghost predicate AllSent(s: System, b: seq<int>, b': seq<int>) {
    && Offered(s, b, b')
    && (forall i :: 2 <= i <= 4 ==> Write(i, 1, 0, OfBatch(b)) in s.sent)
    && (forall i :: 5 <= i <= 6 ==> Write(i, 1, 0, OfBatch(b')) in s.sent)
  }

  /** Replica i has voted for batch b. */
  ghost predicate Voted(s: System, i: nat, b: seq<int>) {
    Stands(s, i, 0, Proposed(i, 0, b, OfBatch(b))) && Write(i, 1, 0, OfBatch(b)) in s.sent
  }

  lemma OneVotes(s: System, i: nat, b: seq<int>) returns (s': System)
    requires Reachable(s) && s.n == 7 && i in s.replicas && s.replicas[i] == NewReplica(i, 7, 0)
    requires Propose(1, 1, 0, b, OfBatch(b)) in s.sent
    ensures Reachable(s') && OnlyMoves(s, s', i) && Voted(s', i, b)
  {
    s' := Proposes(s, i, 0, b, OfBatch(b));
  }

  lemma FirstThreeVote(b: seq<int>, b': seq<int>) returns (s: System)
    ensures Reachable(s) && s.n == 7 && s.reuse && Offered(s, b, b')
    ensures Voted(s, 2, b) && Voted(s, 3, b) && Voted(s, 4, b)
    ensures forall i :: 5 <= i <= 6 ==> i in s.replicas && s.replicas[i] == NewReplica(i, 7, 0)
  {
    SevenReachable();
    var s0 := Forge(StartOfSeven(), Offers(b, b'));
    assert Offers(b, b')[0] in s0.sent;
    var s1 := OneVotes(s0, 2, b);
    var s2 := OneVotes(s1, 3, b);
    s := OneVotes(s2, 4, b);
  }

  /** Only replicas 5 and 6 moved. */
  ghost predicate LastTwoMove(s: System, s': System) {
    && s'.n == s.n && s'.reuse == s.reuse && s.sent <= s'.sent
    && forall j :: j in s.replicas && j <= 4 ==> j in s'.replicas && s'.replicas[j] == s.replicas[j]
  }

  lemma LastTwoVote(s: System, b': seq<int>) returns (s': System)
    requires Reachable(s) && s.n == 7 && Propose(1, 1, 0, b', OfBatch(b')) in s.sent
    requires forall i :: 5 <= i <= 6 ==> i in s.replicas && s.replicas[i] == NewReplica(i, 7, 0)
    ensures Reachable(s') && LastTwoMove(s, s') && Voted(s', 5, b') && Voted(s', 6, b')
  {
    var mid := OneVotes(s, 5, b');
    assert mid.replicas[6] == s.replicas[6];
    s' := OneVotes(mid, 6, b');
    assert s'.replicas[5] == mid.replicas[5];
  }

  lemma AllVote(b: seq<int>, b': seq<int>) returns (s: System)
    ensures Reachable(s) && s.n == 7 && s.reuse && AllSent(s, b, b')
    ensures Stands(s, 2, 0, Proposed(2, 0, b, OfBatch(b))) && Stands(s, 3, 0, Proposed(3, 0, b, OfBatch(b)))
    ensures Stands(s, 5, 0, Proposed(5, 0, b', OfBatch(b')))
  {
    var s0 := FirstThreeVote(b, b');
    assert Offers(b, b')[1] in s0.sent;
    s := LastTwoVote(s0, b');
    OfferedStays(s0, s, b, b');
    assert s.replicas[2] == s0.replicas[2] && s.replicas[3] == s0.replicas[3];
  }

  lemma OfferedStays(s: System, s': System, b: seq<int>, b': seq<int>)
    requires Offered(s, b, b') && s.sent <= s'.sent
    ensures Offered(s', b, b')
  {
  }

  function FourWrites(v: Vote): map<nat, Vote> {
    map[2 := v, 3 := v, 4 := v, 1 := v]
  }

  lemma WritesOfTheSecond(v: Vote, v': Vote)
    requires v != v'
    ensures
      var w := FourWrites(v)[5 := v'];
      && w[5] == v' && |Matching(w, v')| == 1
      && w[7 := v][5] == v' && |Matching(w[7 := v], v')| == 1
      && w[7 := v][6 := v'][2] == v && |Matching(w[7 := v][6 := v'], v)| == 5
  {
    var w := FourWrites(v)[5 := v'];
    assert Matching(w, v') == {5} && Matching(w[7 := v], v') == {5};
    assert Matching(w[7 := v][6 := v'], v) == {2, 3, 4, 1, 7};
  }

  function SecondRecord(b: seq<int>): Entry {
    Proposed(2, 0, b, OfBatch(b)).(writes := FourWrites(FirstVote(0, OfBatch(b))))
  }

  lemma SecondCounts(s: System, b: seq<int>) returns (s': System)
    requires Reachable(s) && s.n == 7 && Stands(s, 2, 0, Proposed(2, 0, b, OfBatch(b)))
    requires forall k :: k in [3, 4, 1] ==> Write(k, 1, 0, OfBatch(b)) in s.sent
    ensures Reachable(s') && OnlyMoves(s, s', 2) && Stands(s', 2, 0, SecondRecord(b))
  {
    var d := OfBatch(b);
    var e, v := Proposed(2, 0, b, d), FirstVote(0, d);
    assert WritePending(s, e, 0, [3, 4, 1], d);
    s' := GetsWrites(s, 2, 0, e, [3, 4, 1], d);
    WithVotesAre(e.writes, [3, 4, 1], v);
    assert WithVotes(e.writes, [3, 4, 1], v) == FourWrites(v);
  }

  /** Replica 2 counts the fifth replica's vote, then its own, and accepts what arrives last. */
  lemma SecondAccepts(s: System, b: seq<int>, b': seq<int>) returns (s': System)
    requires Reachable(s) && s.n == 7 && b != b' && Stands(s, 2, 0, SecondRecord(b))
    requires Write(5, 1, 0, OfBatch(b')) in s.sent && Write(6, 1, 0, OfBatch(b')) in s.sent
    requires Write(7, 1, 0, OfBatch(b)) in s.sent
    ensures Reachable(s') && OnlyMoves(s, s', 2) && Accept(2, 1, 0, OfBatch(b')) in s'.sent
  {
    var v, v' := FirstVote(0, OfBatch(b)), FirstVote(0, OfBatch(b'));
    WritesOfTheSecond(v, v');
    var e1 := SecondRecord(b);
    var s1 := GetsWrite(s, 2, 0, e1, 5, OfBatch(b'), 5);
    var e2 := e1.(writes := e1.writes[5 := v']);
    var s2 := GetsWrite(s1, 2, 0, e2, 7, OfBatch(b), 5);
    s' := GetsLastWrite(s2, 2, 0, e2.(writes := e2.writes[7 := v]), 6, OfBatch(b'), 2);
  }

  lemma {:induction false} ReuseWrites(s: System, from: seq<nat>, view: nat, d: Digest) returns (s': System)
    requires Reachable(s) && s.reuse && forall k :: k in from ==> Write(k, 1, view, d) in s.sent
    ensures Reachable(s') && s' == s.(sent := s'.sent) && s.sent <= s'.sent
    ensures forall k :: k in from ==> Accept(k, 1, view, d) in s'.sent
    decreases |from|
  {
    if from == [] {
      s' := s;
    } else {
      assert from == [from[0]] + from[1..];
      var mid := ReuseWrite(s, from[0], view, d);
      s' := ReuseWrites(mid, from[1..], view, d);
    }
  }

  lemma AllStaySent(s: System, s': System, b: seq<int>, b': seq<int>)
    requires AllSent(s, b, b') && s.sent <= s'.sent
    ensures AllSent(s', b, b')
  {
  }

  lemma SecondParts(b: seq<int>, b': seq<int>) returns (s: System)
    requires b != b'
    ensures Reachable(s) && s.n == 7 && s.reuse && AllSent(s, b, b') && Accept(2, 1, 0, OfBatch(b')) in s.sent
    ensures Stands(s, 3, 0, Proposed(3, 0, b, OfBatch(b))) && Stands(s, 5, 0, Proposed(5, 0, b', OfBatch(b')))
  {
    var s0 := AllVote(b, b');
    assert Offers(b, b')[2] in s0.sent && Offers(b, b')[3] in s0.sent;
    var s1 := SecondCounts(s0, b);
    s := SecondAccepts(s1, b, b');
    MovesTwice(s0, s1, s, 2);
    AllStaySent(s0, s, b, b');
  }

  lemma ThirdDecides(s: System, b: seq<int>, b': seq<int>) returns (s': System)
    requires Reachable(s) && s.n == 7 && s.reuse && AllSent(s, b, b')
    requires Stands(s, 3, 0, Proposed(3, 0, b, OfBatch(b)))
    ensures Reachable(s') && OnlyMoves(s, s', 3) && (3, Decision(FirstVote(0, OfBatch(b)), b)) in s'.decided
  {
    var mid := ReuseWrites(s, [2, 3, 4], 0, OfBatch(b));
    assert Offers(b, b')[4] in s.sent && Offers(b, b')[5] in s.sent;
    assert [2, 3, 4, 1] == [2, 3, 4] + [1];
    s' := QuorumDecides(mid, 3, 0, Proposed(3, 0, b, OfBatch(b)), [2, 3, 4, 1], 7, OfBatch(b));
  }

  lemma FifthDecides(s: System, b: seq<int>, b': seq<int>) returns (s': System)
    requires Reachable(s) && s.n == 7 && s.reuse && AllSent(s, b, b')
    requires Stands(s, 5, 0, Proposed(5, 0, b', OfBatch(b'))) && Accept(2, 1, 0, OfBatch(b')) in s.sent
    ensures Reachable(s') && OnlyMoves(s, s', 5) && (5, Decision(FirstVote(0, OfBatch(b')), b')) in s'.decided
  {
    var mid := ReuseWrites(s, [5, 6], 0, OfBatch(b'));
    assert Offers(b, b')[6] in s.sent && Offers(b, b')[7] in s.sent;
    assert [5, 6, 2, 1] == [5, 6] + [2, 1];
    s' := QuorumDecides(mid, 5, 0, Proposed(5, 0, b', OfBatch(b')), [5, 6, 2, 1], 7, OfBatch(b'));
  }

  lemma PartingReached(b: seq<int>, b': seq<int>) returns (s: System)
    requires b != b'
    ensures Reachable(s) && s.reuse
    ensures (3, Decision(FirstVote(0, OfBatch(b)), b)) in s.decided
    ensures (5, Decision(FirstVote(0, OfBatch(b')), b')) in s.decided
  {
    var s1 := SecondParts(b, b');
    var s2 := ThirdDecides(s1, b, b');
    AllStaySent(s1, s2, b, b');
    s := FifthDecides(s2, b, b');
  }

  /**
   * Seven replicas, two of them faulty, and signatures that can be reused: for any two batches there is a run in which
   * correct replicas 3 and 5 accept one each in instance 1, although every digest is the one of its batch. Replica 2
   * answers the write that completes a quorum for the one batch with an accept for the other, and writes are counted as
   * accepts.
   */
  lemma AgreementNeedsTheCheck(b: seq<int>, b': seq<int>) returns (trace: seq<System>, d: Decision, d': Decision)
    requires b != b'
    ensures IsRun(trace) && trace[0].reuse
    ensures
      var s := trace[|trace| - 1];
      && (3, d) in s.decided && (5, d') in s.decided && d.accepted.cid == d'.accepted.cid
      && RightBatch(d) && RightBatch(d') && d.batch == b && d'.batch == b'
  {
    var s := PartingReached(b, b');
    trace := TraceTo(s);
    d, d' := Decision(FirstVote(0, OfBatch(b)), b), Decision(FirstVote(0, OfBatch(b')), b');
    RunKeepsInv(trace, 0, |trace| - 1);
  }

  // ---- Two batches -----------------------------------------------------------------------------

  /** The leader of regency 0, replica 1, is the faulty one of four, and no signature is reused. */
  ghost function StartOfFour(): System {
    System(4, 1, {1}, false, map i | 2 <= i <= 4 :: NewReplica(i, 4, 0), {}, {}, {})
  }

  lemma FourReachable()
    ensures Reachable(StartOfFour())
  {
    ClusterSize(4);
    var s := StartOfFour();
    assert s.replicas.Keys == Cluster(4) - {1};
    assert AllIn(s, 0);
    Runs.InitReachable(Init, Next, s);
  }

  /** One digest, two batches. */
  ghost function TwoBatches(b: seq<int>, b': seq<int>): seq<Message> {
    [Propose(1, 1, 0, b, OfBatch(b)), Propose(1, 1, 0, b', OfBatch(b)), Write(1, 1, 0, OfBatch(b)),
     Accept(1, 1, 0, OfBatch(b))]
  }

  lemma TwoMatch(a: nat, v: Vote)
    requires a != 1
    ensures var votes := map[a := v][1 := v]; 1 in votes && votes[1] == v && |Matching(votes, v)| == 2
  {
    assert Matching(map[a := v][1 := v], v) == {a, 1};
  }

  lemma OneCounts(s: System, i: nat, b: seq<int>, d: Digest) returns (s': System, e: Entry)
    requires Reachable(s) && s.n == 4 && Stands(s, i, 0, Proposed(i, 0, b, d)) && i > 1
    requires Write(1, 1, 0, d) in s.sent
    ensures Reachable(s') && OnlyMoves(s, s', i) && Stands(s', i, 0, e)
    ensures e == Proposed(i, 0, b, d).(writes := map[i := FirstVote(0, d)][1 := FirstVote(0, d)])
  {
    var e0, v := Proposed(i, 0, b, d), FirstVote(0, d);
    TwoMatch(i, v);
    s' := GetsWrite(s, i, 0, e0, 1, d, 1);
    e := e0.(writes := e0.writes[1 := v]);
  }

  /** Replica i accepts on the writes of itself, of the leader and of replica j. */
  lemma OneAccepts(s: System, i: nat, b: seq<int>, d: Digest, j: nat) returns (s': System, e: Entry)
    requires Reachable(s) && s.n == 4 && Stands(s, i, 0, Proposed(i, 0, b, d)) && j != i && j > 1 && i > 1
    requires Write(1, 1, 0, d) in s.sent && Write(j, 1, 0, d) in s.sent
    ensures Reachable(s') && OnlyMoves(s, s', i) && Accept(i, 1, 0, d) in s'.sent
    ensures Stands(s', i, 0, e) && e.cid == 1 && e.accepts == map[] && !e.accepted && e.batch == b
  {
    var v := FirstVote(0, d);
    var mid, e1 := OneCounts(s, i, b, d);
    ThreeMatch(i, 1, j, v);
    s' := GetsLastWrite(mid, i, 0, e1, j, d, 1);
    MovesTwice(s, mid, s', i);
    e := Accepting(e1, j, v);
  }

  lemma ThreeMatch(a: nat, b: nat, c: nat, v: Vote)
    requires a != b && a != c && b != c
    ensures |Matching(map[a := v][b := v][c := v], v)| == 3
  {
    assert Matching(map[a := v][b := v][c := v], v) == {a, b, c};
  }

  ghost predicate BatchesSent(s: System, b: seq<int>, b': seq<int>) {
    && Propose(1, 1, 0, b, OfBatch(b)) in s.sent && Propose(1, 1, 0, b', OfBatch(b)) in s.sent
    && Write(1, 1, 0, OfBatch(b)) in s.sent && Accept(1, 1, 0, OfBatch(b)) in s.sent
  }

  lemma BatchesForged(b: seq<int>, b': seq<int>) returns (s: System)
    ensures Reachable(s) && s.n == 4 && !s.reuse && BatchesSent(s, b, b')
    ensures forall i :: 2 <= i <= 4 ==> i in s.replicas && s.replicas[i] == NewReplica(i, 4, 0)
  {
    FourReachable();
    var ms := TwoBatches(b, b');
    s := Forge(StartOfFour(), ms);
    assert ms[0] in s.sent && ms[1] in s.sent && ms[2] in s.sent && ms[3] in s.sent;
  }

  /** Replicas 2 and 3 have voted for one digest, with a batch each. */
  lemma TwoRecord(b: seq<int>, b': seq<int>) returns (s: System)
    ensures Reachable(s) && s.n == 4 && !s.reuse && BatchesSent(s, b, b')
    ensures Stands(s, 2, 0, Proposed(2, 0, b, OfBatch(b))) && Stands(s, 3, 0, Proposed(3, 0, b', OfBatch(b)))
    ensures 4 in s.replicas && s.replicas[4] == NewReplica(4, 4, 0)
    ensures Write(2, 1, 0, OfBatch(b)) in s.sent && Write(3, 1, 0, OfBatch(b)) in s.sent
  {
    var s0 := BatchesForged(b, b');
    var s1 := Proposes(s0, 2, 0, b, OfBatch(b));
    assert s1.replicas[3] == s0.replicas[3] && s1.replicas[4] == s0.replicas[4];
    s := Proposes(s1, 3, 0, b', OfBatch(b));
    assert s.replicas[2] == s1.replicas[2] && s.replicas[4] == s1.replicas[4];
  }

  /** A record that is ready to count accepts. */
  predicate Ready(e: Entry, b: seq<int>) {
    e.cid == 1 && e.accepts == map[] && !e.accepted && e.batch == b
  }

  lemma TwoAccept(b: seq<int>, b': seq<int>) returns (s: System, e: Entry, e': Entry)
    ensures Reachable(s) && s.n == 4 && !s.reuse && Stands(s, 2, 0, e) && Stands(s, 3, 0, e')
    ensures Ready(e, b) && Ready(e', b') && BatchesSent(s, b, b')
    ensures 4 in s.replicas && s.replicas[4] == NewReplica(4, 4, 0) && Write(2, 1, 0, OfBatch(b)) in s.sent
    ensures Accept(2, 1, 0, OfBatch(b)) in s.sent && Accept(3, 1, 0, OfBatch(b)) in s.sent
  {
    var s0 := TwoRecord(b, b');
    var mid;
    mid, e := OneAccepts(s0, 2, b, OfBatch(b), 3);
    assert mid.replicas[3] == s0.replicas[3] && mid.replicas[4] == s0.replicas[4];
    s, e' := OneAccepts(mid, 3, b', OfBatch(b), 2);
    assert s.replicas[2] == mid.replicas[2] && s.replicas[4] == mid.replicas[4];
  }

  lemma LastAccepts(s: System, b: seq<int>, d: Digest) returns (s': System)
    requires Reachable(s) && s.n == 4 && 4 in s.replicas && s.replicas[4] == NewReplica(4, 4, 0)
    requires Propose(1, 1, 0, b, d) in s.sent && Write(1, 1, 0, d) in s.sent && Write(2, 1, 0, d) in s.sent
    ensures Reachable(s') && OnlyMoves(s, s', 4) && Accept(4, 1, 0, d) in s'.sent
  {
    var mid := Proposes(s, 4, 0, b, d);
    var e;
    s', e := OneAccepts(mid, 4, b, d, 2);
    MovesTwice(s, mid, s', 4);
  }

  lemma BatchesReached(b: seq<int>, b': seq<int>) returns (s: System)
    ensures Reachable(s) && !s.reuse
    ensures (2, Decision(FirstVote(0, OfBatch(b)), b)) in s.decided
    ensures (3, Decision(FirstVote(0, OfBatch(b)), b')) in s.decided
  {
    var d := OfBatch(b);
    var s0, e, e' := TwoAccept(b, b');
    var s1 := LastAccepts(s0, b', d);
    var s2 := QuorumDecides(s1, 2, 0, e, [1, 3], 4, d);
    s := QuorumDecides(s2, 3, 0, e', [1, 2], 4, d);
  }

  /**
   * Four replicas, a faulty leader, and signatures that tell everything apart: for any two batches there is a run in
   * which correct replicas 2 and 3 accept the same digest, the one of the first batch, and hand over one batch each.
   */
  lemma BatchesNeedTheCheck(b: seq<int>, b': seq<int>) returns (trace: seq<System>, d: Decision, d': Decision)
    requires b != b'
    ensures IsRun(trace) && !trace[0].reuse
    ensures
      var s := trace[|trace| - 1];
      && (2, d) in s.decided && (3, d') in s.decided && d.accepted == d'.accepted
      && d.batch == b && d'.batch == b' && RightBatch(d) && !RightBatch(d')
  {
    var s := BatchesReached(b, b');
    trace := TraceTo(s);
    d, d' := Decision(FirstVote(0, OfBatch(b)), b), Decision(FirstVote(0, OfBatch(b)), b');
    RunKeepsInv(trace, 0, |trace| - 1);
  }
}
