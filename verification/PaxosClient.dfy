/** Proposer of the Multi-Paxos protocol. */
module PaxosClient {
  import opened Options
  import opened PaxosServer

  const MAX_RETRIES := 8

  /** Highest accepted number among promises and its value; (0, "") when no promise reports one. */
  function Highest(replies: seq<Reply>): (nat, string) {
    if replies == [] then (0, "")
    else
      var (num, value) := Highest(replies[..|replies| - 1]);
      var r := replies[|replies| - 1];
      if r.Promised? && r.num > num then (r.num, r.value) else (num, value)
  }

  function Promises(replies: seq<Reply>): nat {
    if replies == [] then 0
    else Promises(replies[..|replies| - 1]) + if replies[|replies| - 1].Promised? then 1 else 0
  }

  function Acceptances(replies: seq<bool>): nat {
    if replies == [] then 0
    else Acceptances(replies[..|replies| - 1]) + if replies[|replies| - 1] then 1 else 0
  }

  /** Value to propose after phase 1. */
  function Choice(replies: seq<Reply>, own: string): string {
    if Highest(replies).1 != "" then Highest(replies).1 else own
  }

  /** What one attempt did. */
  datatype Attempt = Attempt(num: nat, skipped: bool, accept: Option<string>, ok: bool)

  datatype ClientState = ClientState(
    id: nat,
    proposalNum: nat,
    prepared: set<nat>,
    untouched: set<nat>,
    nextInstance: nat,
    stride: nat,
    highestSeen: nat)
  {
    function SetStride(start: nat, newStride: nat): ClientState {
      this.(nextInstance := start, stride := newStride, prepared := {}, untouched := {}, highestSeen := 0)
    }

    /** The instance of one proposal. */
    function Allocate(): (ClientState, nat) {
      (this.(nextInstance := nextInstance + stride), nextInstance)
    }

    /** Before attempt k > 0. */
    function Retry(k: nat, instance: nat): ClientState {
      this.(proposalNum := proposalNum + k * 50000, prepared := prepared - {instance})
    }

    /** Phase 1 is skipped for a prepared instance and for the one right after a prepared, fresh instance. */
    predicate SkipsPhase1(instance: nat) {
      || instance in prepared
      || (highestSeen > 0 && instance == highestSeen + stride && highestSeen in prepared && highestSeen in untouched)
    }

    function Begin(): (ClientState, nat) {
      (this.(proposalNum := proposalNum + 1), proposalNum + 1)
    }

    function Seen(instance: nat): ClientState {
      this.(prepared := prepared + {instance}, highestSeen := if instance > highestSeen then instance else highestSeen)
    }

    /** After a majority of promises. */
    function Prepared(instance: nat, replies: seq<Reply>): ClientState {
      if Highest(replies).1 != "" then Seen(instance)
      else Seen(instance).(untouched := untouched + {instance})
    }

    /** After phase 1 was skipped. */
    function Skipped(instance: nat): ClientState {
      Seen(instance).(untouched := untouched + {instance})
    }

    /** After phase 2 missed its majority. */
    function Failed(instance: nat): ClientState {
      this.(prepared := prepared - {instance})
    }

    function Phase2(instance: nat, num: nat, skipped: bool, value: string, accepts: seq<bool>, n: nat)
      : (ClientState, Attempt)
    {
      if Acceptances(accepts) < n / 2 + 1 then (Failed(instance), Attempt(num, skipped, Some(value), false))
      else (this, Attempt(num, skipped, Some(value), true))
    }

    /** One attempt; `replies` and `accepts` are the answers that come back from the n acceptors. */
    function TryPropose(instance: nat, value: string, replies: seq<Reply>, accepts: seq<bool>, n: nat)
      : (ClientState, Attempt)
    {
      var (c, num) := Begin();
      if SkipsPhase1(instance) then c.Skipped(instance).Phase2(instance, num, true, value, accepts, n)
      else if Promises(replies) < n / 2 + 1 then (c, Attempt(num, false, None, false))
      else c.Prepared(instance, replies).Phase2(instance, num, false, Choice(replies, value), accepts, n)
    }

    /** Attempt number k of a proposal. */
    function AttemptOnce(k: nat, instance: nat, value: string, answers: (seq<Reply>, seq<bool>), n: nat)
      : (ClientState, Attempt)
    {
      (if k > 0 then Retry(k, instance) else this).TryPropose(instance, value, answers.0, answers.1, n)
    }

    /**
     * The attempts of one proposal, until one succeeds or the retries are used up. `answers` holds what the
     * acceptors send back in each attempt still to come.
     */
    function Attempts(instance: nat, value: string, answers: seq<(seq<Reply>, seq<bool>)>, n: nat)
      : (ClientState, seq<Attempt>)
      requires |answers| <= MAX_RETRIES
      decreases |answers|
    {
      if answers == [] then (this, [])
      else
        var (c, a) := AttemptOnce(MAX_RETRIES - |answers|, instance, value, answers[0], n);
        if a.ok then (c, [a])
        else
          var (c', rest) := c.Attempts(instance, value, answers[1..], n);
          (c', [a] + rest)
    }
  }

  class Client {
    const id: nat
    const n: nat
    var proposalNum: nat
    var prepared: set<nat>
    var untouched: set<nat>
    var nextInstance: nat
    var stride: nat
    var highestSeen: nat

    function Model(): ClientState
      reads this
    {
      ClientState(id, proposalNum, prepared, untouched, nextInstance, stride, highestSeen)
    }

    constructor (k: nat, n: nat)
      ensures Model() == ClientState(k + 1, (k + 1) * 100000, {}, {}, k + 1, 1, 0) && this.n == n
    {
      id, this.n := k + 1, n;
      proposalNum := (k + 1) * 100000;
      prepared, untouched := {}, {};
      nextInstance, stride, highestSeen := k + 1, 1, 0;
    }

    method SetStride(start: nat, newStride: nat)
      modifies this
      ensures Model() == old(Model()).SetStride(start, newStride)
    {
      nextInstance := start;
      stride := newStride;
      prepared, untouched := {}, {};
      highestSeen := 0;
    }

    method CountPromises(replies: seq<Reply>) returns (count: nat, num: nat, value: string)
      ensures count == Promises(replies) && (num, value) == Highest(replies)
    {
      count, num, value := 0, 0, "";
      for i := 0 to |replies|
        invariant count == Promises(replies[..i]) && (num, value) == Highest(replies[..i])
      {
        assert replies[..i + 1][..i] == replies[..i];
        if !replies[i].Promised? {
          continue;
        }
        count := count + 1;
        if replies[i].num > num {
          num := replies[i].num;
          value := replies[i].value;
        }
      }
      assert replies[..|replies|] == replies;
    }

    method CountAcceptances(accepts: seq<bool>) returns (count: nat)
      ensures count == Acceptances(accepts)
    {
      count := 0;
      for i := 0 to |accepts|
        invariant count == Acceptances(accepts[..i])
      {
        assert accepts[..i + 1][..i] == accepts[..i];
        if accepts[i] {
          count := count + 1;
        }
      }
      assert accepts[..|accepts|] == accepts;
    }

    method TryPropose(instance: nat, value: string, replies: seq<Reply>, accepts: seq<bool>) returns (a: Attempt)
      modifies this
      ensures (Model(), a) == old(Model()).TryPropose(instance, value, replies, accepts, n)
    {
      proposalNum := proposalNum + 1;
      var num := proposalNum;
      var skip := instance in prepared
                  || (highestSeen > 0 && instance == highestSeen + stride && highestSeen in prepared
                      && highestSeen in untouched);
      var toPropose := value;
      if !skip {
        var count, highestNum, highestValue := CountPromises(replies);
        if count < n / 2 + 1 {
          return Attempt(num, false, None, false);
        }
        prepared := prepared + {instance};
        if instance > highestSeen {
          highestSeen := instance;
        }
        if highestValue != "" {
          toPropose := highestValue;
        } else {
          untouched := untouched + {instance};
        }
      } else {
        untouched := untouched + {instance};
        prepared := prepared + {instance};
        if instance > highestSeen {
          highestSeen := instance;
        }
      }
      var accepted := CountAcceptances(accepts);
      if accepted < n / 2 + 1 {
        prepared := prepared - {instance};
        return Attempt(num, skip, Some(toPropose), false);
      }
      return Attempt(num, skip, Some(toPropose), true);
    }

    method AttemptOnce(k: nat, instance: nat, value: string, answers: (seq<Reply>, seq<bool>)) returns (a: Attempt)
      modifies this
      ensures (Model(), a) == old(Model()).AttemptOnce(k, instance, value, answers, n)
    {
      if k > 0 {
        proposalNum := proposalNum + k * 50000;
        prepared := prepared - {instance};
      }
      a := TryPropose(instance, value, answers.0, answers.1);
    }

    /** The retry loop. The acceptors' answers to each attempt are given up front. */
    method Propose(value: string, answers: seq<(seq<Reply>, seq<bool>)>) returns (instance: nat, attempts: seq<Attempt>)
      requires |answers| == MAX_RETRIES
      modifies this
      ensures
        var (c, i) := old(Model()).Allocate();
        instance == i && (Model(), attempts) == c.Attempts(i, value, answers, n)
    {
      instance := nextInstance;
      nextInstance := nextInstance + stride;
      attempts := [];
      ghost var goal := Model().Attempts(instance, value, answers, n);
      assert answers[0..] == answers && attempts + goal.1 == goal.1;
      var k := 0;
      while k < MAX_RETRIES
        invariant k <= MAX_RETRIES
        invariant Then(attempts, Model().Attempts(instance, value, answers[k..], n)) == goal
      {
        ghost var before := Model();
        var a := AttemptOnce(k, instance, value, answers[k]);
        AttemptsUnfold(before, Model(), a, instance, value, answers, k, n, attempts);
        attempts := attempts + [a];
        if a.ok {
          return;
        }
        k := k + 1;
      }
      assert answers[k..] == [] && attempts + [] == attempts;
    }
  }

  ghost function Then(done: seq<Attempt>, rest: (ClientState, seq<Attempt>)): (ClientState, seq<Attempt>) {
    (rest.0, done + rest.1)
  }

  lemma AttemptsUnfold(c: ClientState, c': ClientState, a: Attempt, instance: nat, value: string,
                       answers: seq<(seq<Reply>, seq<bool>)>, k: nat, n: nat, done: seq<Attempt>)
    requires |answers| == MAX_RETRIES && k < MAX_RETRIES
    requires (c', a) == c.AttemptOnce(k, instance, value, answers[k], n)
    ensures
      Then(done, c.Attempts(instance, value, answers[k..], n))
      == if a.ok then (c', done + [a]) else Then(done + [a], c'.Attempts(instance, value, answers[k + 1..], n))
  {
    assert answers[k..][1..] == answers[k + 1..];
    if !a.ok {
      var rest := c'.Attempts(instance, value, answers[k + 1..], n).1;
      assert done + ([a] + rest) == (done + [a]) + rest;
    }
  }

  /** Gives each client the instances congruent to its position. */
  method SetStrides(clients: seq<Client>)
    requires forall i, j :: 0 <= i < j < |clients| ==> clients[i] != clients[j]
    modifies set c | c in clients
    ensures forall i :: 0 <= i < |clients| ==> clients[i].Model() == old(clients[i].Model()).SetStride(i + 1, |clients|)
  {
    for i := 0 to |clients|
      invariant forall j :: 0 <= j < i ==> clients[j].Model() == old(clients[j].Model()).SetStride(j + 1, |clients|)
      invariant forall j :: i <= j < |clients| ==> clients[j].Model() == old(clients[j].Model())
    {
      clients[i].SetStride(i + 1, |clients|);
    }
  }

  // ---- What the selection computes -------------------------------------------------------------

  /** The number selected is the largest any promise reports, and the value comes with it. */
  lemma {:induction false} HighestIsMaximal(replies: seq<Reply>, k: nat)
    requires k < |replies| && replies[k].Promised?
    ensures replies[k].num <= Highest(replies).0
    ensures Highest(replies).0 > 0 ==> Promised(Highest(replies).0, Highest(replies).1) in replies
  {
    HighestIsReported(replies);
    if k < |replies| - 1 {
      HighestIsMaximal(replies[..|replies| - 1], k);
    }
  }

  lemma {:induction false} HighestIsReported(replies: seq<Reply>)
    ensures
      || Highest(replies) == (0, "")
      || (Highest(replies).0 > 0 && Promised(Highest(replies).0, Highest(replies).1) in replies)
  {
    if replies != [] {
      HighestIsReported(replies[..|replies| - 1]);
    }
  }

  lemma AttemptRaisesNumber(c: ClientState, k: nat, instance: nat, value: string, answers: (seq<Reply>, seq<bool>),
      n: nat)
    ensures
      var (c', a) := c.AttemptOnce(k, instance, value, answers, n);
      c.proposalNum < a.num == c'.proposalNum
  {
    var c0 := if k > 0 then c.Retry(k, instance) else c;
    assert c0.TryPropose(instance, value, answers.0, answers.1, n).1.num == c0.proposalNum + 1;
  }

  /** Over the attempts of one proposal the numbers strictly increase, and the counter ends on the last one. */
  lemma {:induction false} AttemptNumbersIncrease(c: ClientState, instance: nat, value: string,
                                                  answers: seq<(seq<Reply>, seq<bool>)>, n: nat)
    requires |answers| <= MAX_RETRIES
    ensures
      var (c', attempts) := c.Attempts(instance, value, answers, n);
      && c'.proposalNum >= c.proposalNum
      && (forall i :: 0 <= i < |attempts| ==> c.proposalNum < attempts[i].num <= c'.proposalNum)
      && (forall i, j :: 0 <= i < j < |attempts| ==> attempts[i].num < attempts[j].num)
    decreases |answers|
  {
    if answers != [] {
      var k := MAX_RETRIES - |answers|;
      var (c1, a) := c.AttemptOnce(k, instance, value, answers[0], n);
      AttemptRaisesNumber(c, k, instance, value, answers[0], n);
      if !a.ok {
        AttemptNumbersIncrease(c1, instance, value, answers[1..], n);
      }
    }
  }
}
