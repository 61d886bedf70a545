/** How far the proposal numbers of two clients stay apart without strides: attempts and retries eat into it. */
module PaxosNumbers {
  import opened PaxosClient
  import opened PaxosStride

  const NUMBERS_PER_CLIENT := 100000

  /** A client that has not proposed yet. */
  predicate IsNew(c: ClientState) {
    c.proposalNum == c.id * NUMBERS_PER_CLIENT
  }

  /** An attempt costs one number, retry k another 50000 k. */
  function Cost(ops: seq<Op>): nat {
    if ops == [] then 0
    else (match ops[0] case Try => 1 case Again(k, _) => k * 50000 case _ => 0) + Cost(ops[1..])
  }

  function ApplyAll(c: ClientState, ops: seq<Op>): ClientState
    decreases |ops|
  {
    if ops == [] then c else ApplyAll(Apply(c, ops[0]), ops[1..])
  }

  lemma {:induction false} CostAdds(c: ClientState, ops: seq<Op>)
    ensures ApplyAll(c, ops).proposalNum == c.proposalNum + Cost(ops)
    ensures forall num :: num in NumbersUsed(c, ops) ==> c.proposalNum < num <= c.proposalNum + Cost(ops)
    decreases |ops|
  {
    if ops != [] {
      CostAdds(Apply(c, ops[0]), ops[1..]);
    }
  }

  /** The last number, when the last operation is an attempt. */
  lemma {:induction false} LastIsUsed(c: ClientState, ops: seq<Op>)
    requires ops != [] && ops[|ops| - 1].Try?
    ensures c.proposalNum + Cost(ops) in NumbersUsed(c, ops)
    decreases |ops|
  {
    CostAdds(c, ops);
    if |ops| == 1 {
      assert ops[1..] == [];
    } else {
      LastIsUsed(Apply(c, ops[0]), ops[1..]);
    }
  }

  function Attempts(k: nat): seq<Op> {
    seq(k, _ => Try)
  }

  lemma {:induction false} AttemptsCost(k: nat)
    ensures Cost(Attempts(k)) == k
  {
    if k > 0 {
      AttemptsCost(k - 1);
      assert Attempts(k)[1..] == Attempts(k - 1);
    }
  }

  ghost predicate Apart(c: ClientState, ops: seq<Op>, d: ClientState, ops': seq<Op>) {
    forall num :: num in NumbersUsed(c, ops) ==> num !in NumbersUsed(d, ops')
  }

  /**
   * Two new clients, c with the lower identifier. What c does up to an attempt stays apart from everything d may do if
   * and only if it costs at most 100000 for every identifier between them: with neighbours, one first retry is
   * affordable and a second retry is not.
   */
  lemma NumbersStayApart(c: ClientState, ops: seq<Op>, d: ClientState)
    requires IsNew(c) && IsNew(d) && c.id < d.id
    requires ops != [] && ops[|ops| - 1].Try?
    ensures (forall ops' :: Apart(c, ops, d, ops')) <==> Cost(ops) <= NUMBERS_PER_CLIENT * (d.id - c.id)
  {
    if Cost(ops) <= NUMBERS_PER_CLIENT * (d.id - c.id) {
      forall ops': seq<Op>
        ensures Apart(c, ops, d, ops')
      {
        AffordableStaysApart(c, ops, d, ops');
      }
    } else {
      var ops' := DearMeets(c, ops, d);
      assert !Apart(c, ops, d, ops');
    }
  }

  lemma AffordableStaysApart(c: ClientState, ops: seq<Op>, d: ClientState, ops': seq<Op>)
    requires IsNew(c) && IsNew(d) && c.id < d.id && Cost(ops) <= NUMBERS_PER_CLIENT * (d.id - c.id)
    ensures Apart(c, ops, d, ops')
  {
    CostAdds(c, ops);
    CostAdds(d, ops');
  }

  /** Beyond that, d reaches the last number of c by attempts alone. */
  lemma DearMeets(c: ClientState, ops: seq<Op>, d: ClientState) returns (ops': seq<Op>)
    requires IsNew(c) && IsNew(d) && c.id < d.id && Cost(ops) > NUMBERS_PER_CLIENT * (d.id - c.id)
    requires ops != [] && ops[|ops| - 1].Try?
    ensures !Apart(c, ops, d, ops')
  {
    var num := c.proposalNum + Cost(ops);
    var k := num - d.proposalNum;
    AttemptsCost(k);
    LastIsUsed(c, ops);
    ops' := Attempts(k);
    LastIsUsed(d, ops');
  }

  // ---- A collision in one instance -------------------------------------------------------------

  lemma {:induction false} ApplyAllJoined(c: ClientState, ops: seq<Op>, ops': seq<Op>)
    ensures ApplyAll(c, ops + ops') == ApplyAll(ApplyAll(c, ops), ops')
    decreases |ops|
  {
    if ops == [] {
      assert ops + ops' == ops';
    } else {
      ApplyAllJoined(Apply(c, ops[0]), ops[1..], ops');
      assert (ops + ops')[0] == ops[0] && (ops + ops')[1..] == ops[1..] + ops';
    }
  }

  /** One proposal that takes its instance and succeeds after so many retries. */
  function Proposal(instance: nat, retries: nat): seq<Op> {
    if retries == 0 then [Take, Try] else Proposal(instance, retries - 1) + [Again(retries, instance), Try]
  }

  /** What a proposal costs. */
  function ProposalCost(retries: nat): nat {
    if retries == 0 then 1 else ProposalCost(retries - 1) + retries * 50000 + 1
  }

  lemma {:induction false} ProposalApplies(c: ClientState, instance: nat, retries: nat)
    ensures
      var c' := ApplyAll(c, Proposal(instance, retries));
      && c'.proposalNum == c.proposalNum + ProposalCost(retries)
      && c'.nextInstance == c.nextInstance + c.stride && c'.stride == c.stride
  {
    if retries == 0 {
      assert [Take, Try][1..] == [Try] && [Try][1..] == [];
    } else {
      ProposalApplies(c, instance, retries - 1);
      var last := [Again(retries, instance), Try];
      ApplyAllJoined(c, Proposal(instance, retries - 1), last);
      assert last[1..] == [Try] && [Try][1..] == [];
    }
  }

  /** Consecutive instances from `first` on, with the retries that each needs. */
  function Proposals(first: nat, retries: seq<nat>): seq<Op>
    decreases |retries|
  {
    if retries == [] then [] else Proposal(first, retries[0]) + Proposals(first + 1, retries[1..])
  }

  function ProposalsCost(retries: seq<nat>): nat {
    if retries == [] then 0 else ProposalCost(retries[0]) + ProposalsCost(retries[1..])
  }

  lemma {:induction false} ProposalsApply(c: ClientState, first: nat, retries: seq<nat>)
    requires c.stride == 1
    ensures
      var c' := ApplyAll(c, Proposals(first, retries));
      && c'.proposalNum == c.proposalNum + ProposalsCost(retries)
      && c'.nextInstance == c.nextInstance + |retries| && c'.stride == 1
    decreases |retries|
  {
    if retries != [] {
      ProposalApplies(c, first, retries[0]);
      ApplyAllJoined(c, Proposal(first, retries[0]), Proposals(first + 1, retries[1..]));
      ProposalsApply(ApplyAll(c, Proposal(first, retries[0])), first + 1, retries[1..]);
    }
  }

  lemma {:induction false} ProposalsEnd(first: nat, retries: seq<nat>)
    requires retries != []
    ensures var ops := Proposals(first, retries); ops != [] && ops[|ops| - 1].Try?
    decreases |retries|
  {
    var one := Proposal(first, retries[0]);
    assert one[|one| - 1].Try?;
    if |retries| > 1 {
      ProposalsEnd(first + 1, retries[1..]);
    } else {
      assert Proposals(first + 1, retries[1..]) == [];
    }
  }

  lemma LastProposal(c: ClientState, first: nat, retries: seq<nat>)
    requires c.stride == 1 && retries != []
    ensures
      var ops, num := Proposals(first, retries), c.proposalNum + ProposalsCost(retries);
      && ApplyAll(c, ops).proposalNum == num && num in NumbersUsed(c, ops)
      && ApplyAll(c, ops).nextInstance == c.nextInstance + |retries|
  {
    ProposalsApply(c, first, retries);
    ProposalsEnd(first, retries);
    CostAdds(c, Proposals(first, retries));
    LastIsUsed(c, Proposals(first, retries));
  }

  /**
   * Clients 1 and 2 as they are created, without strides: the first retries three times in instance 1 and goes through
   * instances 2 to 5 at once, the second retries once in each of instances 2 to 5. Both then have made their last
   * attempt in instance 5 under number 400008.
   */
  lemma TwoClientsShareANumber(c: ClientState, d: ClientState)
    requires c == ClientState(1, 100000, {}, {}, 1, 1, 0) && d == ClientState(2, 200000, {}, {}, 2, 1, 0)
    ensures
      var ops, ops' := Proposals(1, [3, 0, 0, 0, 0]), Proposals(2, [1, 1, 1, 1]);
      && ApplyAll(c, ops).nextInstance == ApplyAll(d, ops').nextInstance == 5 + 1
      && ApplyAll(c, ops).proposalNum == ApplyAll(d, ops').proposalNum == 400008
      && 400008 in NumbersUsed(c, ops) && 400008 in NumbersUsed(d, ops')
  {
    LastProposal(c, 1, [3, 0, 0, 0, 0]);
    LastProposal(d, 2, [1, 1, 1, 1]);
    assert ProposalCost(0) == 1 && ProposalCost(1) == 50002 && ProposalCost(2) == 150003 && ProposalCost(3) == 300004;
    FourMore(3, 0);
    FourMore(0, 1);
    assert [3, 0, 0, 0, 0] == [3] + [0, 0, 0, 0];
  }

  lemma FourMore(first: nat, r: nat)
    ensures ProposalsCost([r, r, r, r]) == 4 * ProposalCost(r)
    ensures ProposalsCost([first, r, r, r, r]) == ProposalCost(first) + 4 * ProposalCost(r)
  {
    assert [r, r, r, r][1..] == [r, r, r] && [r, r, r][1..] == [r, r] && [r, r][1..] == [r] && [r][1..] == [];
    assert ProposalsCost([r, r]) == ProposalCost(r) + ProposalsCost([r]) == 2 * ProposalCost(r);
    assert ProposalsCost([r, r, r]) == ProposalCost(r) + ProposalsCost([r, r]);
    assert [first, r, r, r, r][1..] == [r, r, r, r];
  }
}
