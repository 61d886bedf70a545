/** Which lists of accepts decide an instance whatever vote the replica happens to take as its reference. */
module BftSmartReferences {
  import opened BftSmartEntry
  import opened BftSmartReplica
  import opened BftSmartArrivals
  import opened Quorum

  // ---- References a replica can pick -----------------------------------------------------------

  ghost predicate SomeWrote(seat: Seat, ms: seq<Message>, j: nat) {
    exists v :: seat.Wrote(ms, j, v)
  }

  ghost predicate SomeAccepts(seat: Seat, ms: seq<Message>, j: nat) {
    exists v :: seat.Accepts(ms, j, v)
  }

  /** Where there are votes, the reference is one of them. */
  ghost predicate PicksAt(seat: Seat, ms: seq<Message>, r: Refs) {
    && ((exists j :: SomeWrote(seat, ms, j)) ==> SomeWrote(seat, ms, r.write))
    && ((exists j :: SomeAccepts(seat, ms, j)) ==> SomeAccepts(seat, ms, r.accept))
  }

  ghost predicate PicksOn(seat: Seat, ms: seq<Message>, refs: seq<Refs>, k: nat)
    requires k < |ms| == |refs|
  {
    PicksAt(seat, ms[..k + 1], refs[k])
  }

  /** References that a map iteration can yield, arrival by arrival. */
  ghost predicate Possible(seat: Seat, ms: seq<Message>, refs: seq<Refs>) {
    |refs| == |ms| && forall k: nat :: k < |ms| ==> PicksOn(seat, ms, refs, k)
  }

  // ---- Agreement of all accepts that arrived ---------------------------------------------------

  /** A quorum accepts `v`, and no accept so far is for anything else. */
  ghost predicate Unanimous(seat: Seat, ms: seq<Message>, v: Vote) {
    |seat.Accepters(ms, v)| >= 2 * seat.F() + 1 && forall j, w :: seat.Accepts(ms, j, w) ==> w == v
  }

  ghost predicate UnanimousAt(seat: Seat, ms: seq<Message>, k: nat) {
    k < |ms| && var soFar := ms[..k + 1]; exists v :: Unanimous(seat, soFar, v)
  }

  lemma AcceptsOnce(seat: Seat, ms: seq<Message>, j: nat, v: Vote, v': Vote)
    requires seat.Accepts(ms, j, v) && seat.Accepts(ms, j, v')
    ensures v == v'
  {
    var k: nat :| SaidAt(ms, k, true, seat.cid, j, v);
    var k': nat :| SaidAt(ms, k', true, seat.cid, j, v');
    assert SameVoice(ms[k], ms[k']);
  }

  /** An arrival that is no kept accept changes nothing in the accepts. */
  lemma SameAccepts(seat: Seat, ms: seq<Message>, m: Message, v: Vote)
    requires !KeepsAccept(seat, ms, m) && Unanimous(seat, ms + [m], v)
    ensures Unanimous(seat, ms, v)
  {
    forall j, w
      ensures seat.Accepts(ms + [m], j, w) <==> seat.Accepts(ms, j, w)
    {
      SaidGrows(ms, m, true, seat.cid, j, w);
    }
    forall j
      ensures j in seat.Accepters(ms + [m], v) <==> j in seat.Accepters(ms, v)
    {
      if seat.Accepts(ms, j, v) {
        SaidIsSent(ms, true, seat.cid, j, v);
        SaidIsSent(ms + [m], true, seat.cid, j, v);
      }
    }
    assert seat.Accepters(ms + [m], v) == seat.Accepters(ms, v);
  }

  lemma KeptAcceptIsLookedAt(seat: Seat, ms: seq<Message>, refs: seq<Refs>, k: nat)
    requires k < |ms| && KeepsAccept(seat, ms[..k], ms[k])
    ensures seat.LooksAtAccepts(ms, refs, k)
  {
    assert forall i :: 0 <= i < k ==> ms[..k][i] == ms[i];
  }

  lemma NobodyAccepts(seat: Seat, v: Vote)
    ensures !Unanimous(seat, [], v)
  {
    assert seat.Accepters([], v) == {};
  }

  /** The moment of unanimity begins with a kept accept, at which the replica looks. */
  lemma {:induction false} LookedWhenUnanimous(seat: Seat, ms: seq<Message>, refs: seq<Refs>, k: nat, v: Vote)
    returns (i: nat)
    requires k < |ms| && Unanimous(seat, ms[..k + 1], v)
    ensures i < |ms| && seat.LooksAtAccepts(ms, refs, i) && Unanimous(seat, ms[..i + 1], v)
  {
    assert ms[..k + 1] == ms[..k] + [ms[k]];
    if KeepsAccept(seat, ms[..k], ms[k]) {
      i := k;
      KeptAcceptIsLookedAt(seat, ms, refs, k);
    } else {
      SameAccepts(seat, ms[..k], ms[k], v);
      assert k == 0 ==> ms[..k] == [];
      NobodyAccepts(seat, v);
      i := LookedWhenUnanimous(seat, ms, refs, k - 1, v);
    }
  }

  lemma UnanimousAccepts(seat: Seat, ms: seq<Message>, refs: seq<Refs>, k: nat)
    requires UnanimousAt(seat, ms, k) && Possible(seat, ms, refs)
    ensures seat.Accepted(ms, refs)
  {
    var v :| Unanimous(seat, ms[..k + 1], v);
    var i := LookedWhenUnanimous(seat, ms, refs, k, v);
    var soFar := ms[..i + 1];
    assert seat.Accepters(soFar, v) != {};
    var j :| j in seat.Accepters(soFar, v);
    assert SomeAccepts(seat, soFar, j) && PicksOn(seat, ms, refs, i);
    var w :| seat.Accepts(soFar, refs[i].accept, w);
    assert seat.AcceptsAgree(soFar, refs[i].accept);
    assert seat.AcceptsComplete(ms, refs, i);
  }

  // ---- The worst choice of references ----------------------------------------------------------

  ghost predicate Weak(seat: Seat, ms: seq<Message>, j: nat) {
    exists v :: seat.Accepts(ms, j, v) && |seat.Accepters(ms, v)| < 2 * seat.F() + 1
  }

  /** A reference whose vote has no quorum, if there is one. */
  ghost function WorstAccept(seat: Seat, ms: seq<Message>): (j: nat)
    ensures (exists i :: Weak(seat, ms, i)) ==> Weak(seat, ms, j)
    ensures (exists i :: SomeAccepts(seat, ms, i)) ==> SomeAccepts(seat, ms, j)
  {
    if i: nat :| Weak(seat, ms, i) then i else if i: nat :| SomeAccepts(seat, ms, i) then i else 0
  }

  ghost function AnyWrite(seat: Seat, ms: seq<Message>): (j: nat)
    ensures (exists i :: SomeWrote(seat, ms, i)) ==> SomeWrote(seat, ms, j)
  {
    if i: nat :| SomeWrote(seat, ms, i) then i else 0
  }

  ghost function WorstRefs(seat: Seat, ms: seq<Message>): seq<Refs> {
    seq(|ms|, k requires 0 <= k < |ms| => Refs(AnyWrite(seat, ms[..k + 1]), WorstAccept(seat, ms[..k + 1])))
  }

  lemma WorstIsPossible(seat: Seat, ms: seq<Message>)
    ensures Possible(seat, ms, WorstRefs(seat, ms))
  {
    var refs := WorstRefs(seat, ms);
    forall k: nat | k < |ms|
      ensures PicksOn(seat, ms, refs, k)
    {
      WorstRefAt(seat, ms, k);
    }
  }

  /** Two different votes cannot both have a quorum among 3f+1 replicas. */
  lemma OneQuorum(seat: Seat, ms: seq<Message>, v: Vote, w: Vote)
    requires Senders(ms) <= Cluster(seat.n) && seat.n == 3 * seat.F() + 1
    requires |seat.Accepters(ms, v)| >= 2 * seat.F() + 1 && |seat.Accepters(ms, w)| >= 2 * seat.F() + 1
    ensures v == w
  {
    var i := CorrectWitness(seat.Accepters(ms, v), seat.Accepters(ms, w), {}, seat.n, seat.F());
    AcceptsOnce(seat, ms, i, v, w);
  }

  /** Where even the worst reference has a quorum, nobody accepted anything else. */
  lemma NoWeakness(seat: Seat, ms: seq<Message>, v: Vote)
    requires Senders(ms) <= Cluster(seat.n) && seat.n == 3 * seat.F() + 1
    requires seat.Accepts(ms, WorstAccept(seat, ms), v) && |seat.Accepters(ms, v)| >= 2 * seat.F() + 1
    ensures Unanimous(seat, ms, v)
  {
    forall j, w | seat.Accepts(ms, j, w)
      ensures w == v
    {
      if |seat.Accepters(ms, w)| < 2 * seat.F() + 1 {
        assert Weak(seat, ms, j) && Weak(seat, ms, WorstAccept(seat, ms));
        var u :| seat.Accepts(ms, WorstAccept(seat, ms), u) && |seat.Accepters(ms, u)| < 2 * seat.F() + 1;
        AcceptsOnce(seat, ms, WorstAccept(seat, ms), u, v);
      } else {
        OneQuorum(seat, ms, v, w);
      }
    }
  }

  lemma PrefixSenders(ms: seq<Message>, k: nat)
    requires k <= |ms|
    ensures Senders(ms[..k]) <= Senders(ms)
  {
    forall j | j in Senders(ms[..k])
      ensures j in Senders(ms)
    {
      var i :| 0 <= i < k && ms[..k][i].from == j;
      assert ms[i].from == j;
    }
  }

  lemma WorstAgrees(seat: Seat, ms: seq<Message>) returns (v: Vote)
    requires Senders(ms) <= Cluster(seat.n) && seat.n == 3 * seat.F() + 1
    requires seat.AcceptsAgree(ms, WorstAccept(seat, ms))
    ensures Unanimous(seat, ms, v)
  {
    v :| seat.Accepts(ms, WorstAccept(seat, ms), v) && |seat.Accepters(ms, v)| >= 2 * seat.F() + 1;
    NoWeakness(seat, ms, v);
  }

  lemma WorstLooks(seat: Seat, ms: seq<Message>) returns (k: nat)
    requires seat.Accepted(ms, WorstRefs(seat, ms))
    ensures k < |ms| && seat.AcceptsAgree(ms[..k + 1], WorstAccept(seat, ms[..k + 1]))
  {
    var refs := WorstRefs(seat, ms);
    k :| seat.AcceptsComplete(ms, refs, k);
    WorstRefAt(seat, ms, k);
  }

  lemma WorstRefAt(seat: Seat, ms: seq<Message>, k: nat)
    requires k < |ms|
    ensures |WorstRefs(seat, ms)| == |ms|
    ensures WorstRefs(seat, ms)[k] == Refs(AnyWrite(seat, ms[..k + 1]), WorstAccept(seat, ms[..k + 1]))
  {
  }

  lemma WorstDecides(seat: Seat, ms: seq<Message>) returns (k: nat)
    requires Senders(ms) <= Cluster(seat.n) && seat.n == 3 * seat.F() + 1
    requires seat.Accepted(ms, WorstRefs(seat, ms))
    ensures UnanimousAt(seat, ms, k)
  {
    k := WorstLooks(seat, ms);
    PrefixSenders(ms, k + 1);
    var v := WorstAgrees(seat, ms[..k + 1]);
  }

  /**
   * Of a list of messages from a cluster of 3f+1: the replica accepts the instance whatever recorded votes it takes as
   * references if and only if at some moment 2f+1 accepts have arrived and no accept so far differs from them.
   */
  lemma AcceptsWhateverTheReference(seat: Seat, ms: seq<Message>)
    requires Senders(ms) <= Cluster(seat.n) && seat.n == 3 * seat.F() + 1
    ensures (forall refs :: Possible(seat, ms, refs) ==> seat.Accepted(ms, refs))
       <==> exists k: nat :: UnanimousAt(seat, ms, k)
  {
    if k: nat :| UnanimousAt(seat, ms, k) {
      forall refs | Possible(seat, ms, refs)
        ensures seat.Accepted(ms, refs)
      {
        UnanimousAccepts(seat, ms, refs, k);
      }
    }
    if forall refs :: Possible(seat, ms, refs) ==> seat.Accepted(ms, refs) {
      WorstIsPossible(seat, ms);
      var k := WorstDecides(seat, ms);
    }
  }

  // ---- One stray accept ------------------------------------------------------------------------

  /** Three replicas of four accept one digest; before them the fourth accepts another one. */
  ghost function StrayFirst(d: Digest, stray: Digest): seq<Message> {
    [Accept(4, 1, 0, stray), Accept(1, 1, 0, d), Accept(2, 1, 0, d), Accept(3, 1, 0, d)]
  }

  lemma AllFourAccept(seat: Seat, d: Digest, stray: Digest)
    requires seat.cid == 1
    ensures
      var ms := StrayFirst(d, stray);
      && Senders(ms) <= Cluster(4) && seat.Accepters(ms, Vote(0, 1, d)) >= {1, 2, 3}
      && forall k :: 0 < k <= 4 ==> seat.Accepts(ms[..k], 4, Vote(0, 1, stray))
  {
    var ms := StrayFirst(d, stray);
    assert SaidAt(ms, 1, true, 1, 1, Vote(0, 1, d)) && ms[1].from in Senders(ms);
    assert SaidAt(ms, 2, true, 1, 2, Vote(0, 1, d)) && ms[2].from in Senders(ms);
    assert SaidAt(ms, 3, true, 1, 3, Vote(0, 1, d)) && ms[3].from in Senders(ms);
    forall k | 0 < k <= 4
      ensures seat.Accepts(ms[..k], 4, Vote(0, 1, stray))
    {
      assert SaidAt(ms[..k], 0, true, 1, 4, Vote(0, 1, stray));
    }
  }

  lemma StrayIsAlone(seat: Seat, d: Digest, stray: Digest, k: nat)
    requires seat.cid == 1 && d != stray && k <= 4
    ensures seat.Accepters(StrayFirst(d, stray)[..k], Vote(0, 1, stray)) <= {4}
  {
  }

  /**
   * One accept for another digest that arrives first can keep the replica from ever accepting, with 2f+1 matching
   * accepts of the others in its log.
   */
  lemma StrayAcceptStalls(seat: Seat, d: Digest, stray: Digest)
    requires seat.n == 4 && seat.cid == 1 && d != stray
    ensures
      var ms := StrayFirst(d, stray);
      && |seat.Accepters(ms, Vote(0, 1, d))| >= 2 * seat.F() + 1
      && exists refs :: Possible(seat, ms, refs) && !seat.Accepted(ms, refs)
  {
    OthersAreEnough(seat, d, stray);
    forall k: nat
      ensures !UnanimousAt(seat, StrayFirst(d, stray), k)
    {
      NeverUnanimous(seat, d, stray, k);
    }
    DisagreementCanStall(seat, StrayFirst(d, stray));
  }

  lemma OthersAreEnough(seat: Seat, d: Digest, stray: Digest)
    requires seat.n == 4 && seat.cid == 1
    ensures Senders(StrayFirst(d, stray)) <= Cluster(4)
    ensures |seat.Accepters(StrayFirst(d, stray), Vote(0, 1, d))| >= 3
  {
    AllFourAccept(seat, d, stray);
    SubsetSize({1, 2, 3}, seat.Accepters(StrayFirst(d, stray), Vote(0, 1, d)));
  }

  lemma DisagreementCanStall(seat: Seat, ms: seq<Message>)
    requires Senders(ms) <= Cluster(seat.n) && seat.n == 3 * seat.F() + 1
    requires forall k: nat :: !UnanimousAt(seat, ms, k)
    ensures exists refs :: Possible(seat, ms, refs) && !seat.Accepted(ms, refs)
  {
    AcceptsWhateverTheReference(seat, ms);
  }

  lemma NeverUnanimous(seat: Seat, d: Digest, stray: Digest, k: nat)
    requires seat.n == 4 && seat.cid == 1 && d != stray
    ensures !UnanimousAt(seat, StrayFirst(d, stray), k)
  {
    if k < 4 {
      AllFourAccept(seat, d, stray);
      StrayIsAlone(seat, d, stray, k + 1);
      StrayHinders(seat, StrayFirst(d, stray)[..k + 1], 4, Vote(0, 1, stray));
    }
  }

  /** An accept that nobody shares stands against every quorum. */
  lemma StrayHinders(seat: Seat, ms: seq<Message>, j: nat, stray: Vote)
    requires seat.Accepts(ms, j, stray) && seat.Accepters(ms, stray) <= {j} && seat.F() >= 1
    ensures forall v :: !Unanimous(seat, ms, v)
  {
    SubsetSize(seat.Accepters(ms, stray), {j});
  }
}
