/** The set of re-proposals a new primary computes from the view-changes it collected. */
module PbftNewView {
  import opened Options
  import opened PbftMessages

  ghost predicate ViewChanges(ms: set<Message>) {
    forall m :: m in ms ==> m.ViewChange?
  }

  /** Some view-change holds the prepared certificate `v`. */
  ghost predicate Certified(ms: set<Message>, v: Vote)
    requires ViewChanges(ms)
  {
    exists m :: m in ms && v in m.prepared
  }

  /** min-s: the highest stable checkpoint known to the new primary or named by a view-change. */
  ghost predicate IsMinS(own: nat, ms: set<Message>, minS: nat)
    requires ViewChanges(ms)
  {
    && own <= minS
    && (forall m :: m in ms ==> m.lastStable <= minS)
    && (minS == own || exists m :: m in ms && m.lastStable == minS)
  }

  /** max-s: the highest number with a prepared certificate, 0 when there is none. */
  ghost predicate IsMaxS(ms: set<Message>, maxS: nat)
    requires ViewChanges(ms)
  {
    && (forall v :: Certified(ms, v) ==> v.num <= maxS)
    && (maxS == 0 || exists v :: Certified(ms, v) && v.num == maxS)
  }

  /** `d` is the digest of a highest-view certificate for the number, or the null digest when there is none. */
  ghost predicate Chosen(ms: set<Message>, num: nat, d: Digest)
    requires ViewChanges(ms)
  {
    || (exists v :: Certified(ms, v) && v.num == num && v.digest == d && Highest(ms, v))
    || (d == OfNull && forall v :: Certified(ms, v) ==> v.num != num)
  }

  ghost predicate Highest(ms: set<Message>, v: Vote)
    requires ViewChanges(ms)
  {
    forall w :: Certified(ms, w) && w.num == v.num ==> w.view <= v.view
  }

  /** One re-proposal for every number in (minS, maxS], in increasing order, each with a chosen digest. */
  ghost predicate Covers(ms: set<Message>, minS: nat, maxS: nat, ps: seq<Proposal>)
    requires ViewChanges(ms)
  {
    && |ps| == (if maxS > minS then maxS - minS else 0)
    && forall k :: 0 <= k < |ps| ==> ps[k].num == minS + 1 + k && Chosen(ms, ps[k].num, ps[k].digest)
  }

  ghost predicate IsNewViewSet(own: nat, ms: set<Message>, ps: seq<Proposal>)
    requires ViewChanges(ms)
  {
    exists minS, maxS :: IsMinS(own, ms, minS) && IsMaxS(ms, maxS) && Covers(ms, minS, maxS, ps)
  }

  // ---- The loops of the new primary ------------------------------------------------------------

  function Elements(msgs: seq<Message>): set<Message> {
    set m | m in msgs
  }

  method Bounds(own: nat, msgs: seq<Message>) returns (minS: nat, maxS: nat)
    requires ViewChanges(Elements(msgs))
    ensures IsMinS(own, Elements(msgs), minS) && IsMaxS(Elements(msgs), maxS)
  {
    minS, maxS := own, 0;
    for i := 0 to |msgs|
      invariant IsMinS(own, Elements(msgs[..i]), minS) && IsMaxS(Elements(msgs[..i]), maxS)
    {
      ghost var seen, next := Elements(msgs[..i]), Elements(msgs[..i + 1]);
      assert msgs[i] in msgs;
      assert next == seen + {msgs[i]};
      if msgs[i].lastStable > minS {
        minS := msgs[i].lastStable;
      }
      for j := 0 to |msgs[i].prepared|
        invariant forall v :: Certified(seen, v) || v in msgs[i].prepared[..j] ==> v.num <= maxS
        invariant maxS == 0 || exists v :: (Certified(seen, v) || v in msgs[i].prepared[..j]) && v.num == maxS
      {
        if msgs[i].prepared[j].num > maxS {
          maxS := msgs[i].prepared[j].num;
        }
        assert msgs[i].prepared[..j + 1] == msgs[i].prepared[..j] + [msgs[i].prepared[j]];
      }
      assert msgs[i].prepared[..|msgs[i].prepared|] == msgs[i].prepared;
      assert forall v :: Certified(next, v) <==> Certified(seen, v) || v in msgs[i].prepared;
    }
    assert msgs[..|msgs|] == msgs;
  }

  /** Highest-view certificate for one number; the first one met wins among equal views. */
  method BestCertificate(msgs: seq<Message>, num: nat) returns (best: Option<Vote>)
    requires ViewChanges(Elements(msgs))
    ensures best.Some? ==>
              Certified(Elements(msgs), best.value) && best.value.num == num && Highest(Elements(msgs), best.value)
    ensures best.None? ==> forall v :: Certified(Elements(msgs), v) ==> v.num != num
  {
    best := None;
    for i := 0 to |msgs|
      invariant best.Some? ==> Certified(Elements(msgs), best.value) && best.value.num == num
      invariant forall v :: Certified(Elements(msgs[..i]), v) && v.num == num
                  ==> best.Some? && v.view <= best.value.view
    {
      ghost var seen := Elements(msgs[..i]);
      assert msgs[i] in Elements(msgs);
      assert Elements(msgs[..i + 1]) == seen + {msgs[i]};
      for j := 0 to |msgs[i].prepared|
        invariant best.Some? ==> Certified(Elements(msgs), best.value) && best.value.num == num
        invariant forall v :: (Certified(seen, v) || v in msgs[i].prepared[..j]) && v.num == num
                    ==> best.Some? && v.view <= best.value.view
      {
        var pp := msgs[i].prepared[j];
        if pp.num == num {
          if best.None? || pp.view > best.value.view {
            best := Some(pp);
          }
        }
        assert msgs[i].prepared[..j + 1] == msgs[i].prepared[..j] + [pp];
      }
      assert msgs[i].prepared[..|msgs[i].prepared|] == msgs[i].prepared;
      assert forall v :: Certified(Elements(msgs[..i + 1]), v) <==> Certified(seen, v) || v in msgs[i].prepared;
    }
    assert msgs[..|msgs|] == msgs;
  }

  /** The computation is exact: it returns a new-view set of the collected view-changes. */
  method BuildNewView(own: nat, msgs: seq<Message>) returns (ps: seq<Proposal>)
    requires ViewChanges(Elements(msgs))
    ensures IsNewViewSet(own, Elements(msgs), ps)
  {
    var minS, maxS := Bounds(own, msgs);
    ps := [];
    var num := minS + 1;
    while num <= maxS
      invariant num == minS + 1 + |ps|
      invariant |ps| <= if maxS > minS then maxS - minS else 0
      invariant forall k :: 0 <= k < |ps| ==>
                  ps[k].num == minS + 1 + k && Chosen(Elements(msgs), ps[k].num, ps[k].digest)
    {
      var best := BestCertificate(msgs, num);
      var digest := if best.None? then OfNull else best.value.digest;
      assert Chosen(Elements(msgs), num, digest);
      ps := ps + [Proposal(num, digest)];
      num := num + 1;
    }
    assert Covers(Elements(msgs), minS, maxS, ps);
  }

  /** Highest number among re-proposals, 0 when there are none. */
  function MaxNum(ps: seq<Proposal>): nat {
    if ps == [] then 0
    else
      var m := MaxNum(ps[..|ps| - 1]);
      if ps[|ps| - 1].num > m then ps[|ps| - 1].num else m
  }

  lemma {:induction false} MaxNumBounds(ps: seq<Proposal>, k: nat)
    requires k < |ps|
    ensures ps[k].num <= MaxNum(ps)
  {
    if k < |ps| - 1 {
      MaxNumBounds(ps[..|ps| - 1], k);
    }
  }

  // ---- Which digest survives -------------------------------------------------------------------

  ghost predicate Reproposes(ps: seq<Proposal>, num: nat, d: Digest) {
    exists x :: x in ps && x.num == num && x.digest == d
  }

  /** All certificates of the highest view for a number carry the digest, and there is one. */
  ghost predicate HighestCarry(ms: set<Message>, num: nat, d: Digest)
    requires ViewChanges(ms)
  {
    && (exists v :: Certified(ms, v) && v.num == num)
    && (forall v :: Certified(ms, v) && v.num == num && Highest(ms, v) ==> v.digest == d)
  }

  /** Another digest that could be chosen makes another new-view set. */
  lemma OtherChoice(ms: set<Message>, minS: nat, maxS: nat, ps: seq<Proposal>, num: nat, e: Digest)
      returns (qs: seq<Proposal>)
    requires ViewChanges(ms) && Covers(ms, minS, maxS, ps) && minS < num <= maxS && Chosen(ms, num, e)
    ensures Covers(ms, minS, maxS, qs) && forall d :: Reproposes(qs, num, d) ==> d == e
  {
    var i := num - minS - 1;
    qs := ps[i := ps[i].(num := num, digest := e)];
    forall d | Reproposes(qs, num, d)
      ensures d == e
    {
      var k :| 0 <= k < |qs| && qs[k].num == num && qs[k].digest == d;
      assert k == i;
    }
  }

  /**
   * Whatever the view-changes claim, and for a request above min-s: every new-view set re-proposes it with the digest
   * if and only if the highest-view certificates for its number carry that digest.
   */
  lemma SurvivesExactly(ms: set<Message>, minS: nat, maxS: nat, ps: seq<Proposal>, num: nat, d: Digest)
    requires ViewChanges(ms) && IsMaxS(ms, maxS) && Covers(ms, minS, maxS, ps) && num > minS && d != OfNull
    ensures (forall qs: seq<Proposal> :: Covers(ms, minS, maxS, qs) ==> Reproposes(qs, num, d))
        <==> HighestCarry(ms, num, d)
  {
    if HighestCarry(ms, num, d) {
      forall qs: seq<Proposal> | Covers(ms, minS, maxS, qs)
        ensures Reproposes(qs, num, d)
      {
        var v :| Certified(ms, v) && v.num == num;
        var x := qs[num - minS - 1];
        assert x in qs && x.num == num && Chosen(ms, num, x.digest);
      }
    } else if v: Vote :| Certified(ms, v) && v.num == num && Highest(ms, v) && v.digest != d {
      var qs := OtherChoice(ms, minS, maxS, ps, num, v.digest);
      assert !Reproposes(qs, num, d);
    } else {
      assert !Reproposes(ps, num, d);
    }
  }

  /** One certificate for a view above all others for its number decides, genuine or not. */
  lemma HigherCertificateWins(ms: set<Message>, m: Message, v: Vote, minS: nat, maxS: nat, ps: seq<Proposal>)
    requires ViewChanges(ms) && m.ViewChange? && v in m.prepared && v.num > minS
    requires forall w :: Certified(ms + {m}, w) && w.num == v.num && w != v ==> w.view < v.view
    requires IsMaxS(ms + {m}, maxS) && Covers(ms + {m}, minS, maxS, ps)
    ensures Reproposes(ps, v.num, v.digest)
    ensures forall d :: d != v.digest ==> !Reproposes(ps, v.num, d)
  {
    assert Certified(ms + {m}, v);
    var i := v.num - minS - 1;
    assert ps[i] in ps && Chosen(ms + {m}, v.num, ps[i].digest);
    forall d | Reproposes(ps, v.num, d)
      ensures d == v.digest
    {
      var k :| 0 <= k < |ps| && ps[k].num == v.num && ps[k].digest == d;
      assert k == i;
    }
  }
}
