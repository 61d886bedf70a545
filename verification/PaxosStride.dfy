/** Stride ownership of instances, and why skipping phase 1 is safe inside one stride epoch. */
module PaxosStride {
  import opened PaxosServer
  import opened PaxosClient
  import A = PaxosAgreement

  // ---- Numbers a client uses -------------------------------------------------------------------

  /** What can happen to a client, in lock-region steps and any order. */
  datatype Op =
    | Reset(start: nat, stride: nat)
    | Take
    | Again(k: nat, instance: nat)
    | Try
    | Promises(instance: nat, replies: seq<Reply>)
    | Skip(instance: nat)
    | Fail(instance: nat)

  function Apply(c: ClientState, op: Op): ClientState {
    match op
    case Reset(start, stride) => c.SetStride(start, stride)
    case Take => c.Allocate().0
    case Again(k, instance) => c.Retry(k, instance)
    case Try => c.Begin().0
    case Promises(instance, replies) => c.Prepared(instance, replies)
    case Skip(instance) => c.Skipped(instance)
    case Fail(instance) => c.Failed(instance)
  }

  /** Proposal numbers handed out along a sequence of operations. */
  function NumbersUsed(c: ClientState, ops: seq<Op>): seq<nat>
    decreases |ops|
  {
    if ops == [] then []
    else (if ops[0].Try? then [c.Begin().1] else []) + NumbersUsed(Apply(c, ops[0]), ops[1..])
  }

  ghost predicate StrictlyIncreasingAbove(used: seq<nat>, floor: nat) {
    && (forall i :: 0 <= i < |used| ==> used[i] > floor)
    && (forall i, j :: 0 <= i < j < |used| ==> used[i] < used[j])
  }

  /** No operation, a stride reset included, makes a client reuse a number or go back. */
  lemma {:induction false} NumbersStrictlyIncrease(c: ClientState, ops: seq<Op>)
    ensures StrictlyIncreasingAbove(NumbersUsed(c, ops), c.proposalNum)
    decreases |ops|
  {
    if ops != [] {
      var c' := Apply(c, ops[0]);
      NumbersStrictlyIncrease(c', ops[1..]);
      var rest := NumbersUsed(c', ops[1..]);
      assert NumbersUsed(c, ops) == if ops[0].Try? then [c'.proposalNum] + rest else rest;
      NumberFirst(rest, c'.proposalNum, c.proposalNum);
    }
  }

  lemma NumberFirst(rest: seq<nat>, num: nat, floor: nat)
    requires StrictlyIncreasingAbove(rest, num) && num >= floor
    ensures StrictlyIncreasingAbove(rest, floor)
    ensures num > floor ==> StrictlyIncreasingAbove([num] + rest, floor)
  {
  }

  // ---- Clients with strides over one set of acceptors ------------------------------------------

  /** One proposal: the position of its client and its value. */
  datatype Job = Job(owner: nat, value: string)

  /** `begun` holds the attempts by instance and number, with whether they skip phase 1. */
  datatype System = System(net: A.System, clients: seq<ClientState>, jobs: map<nat, Job>, begun: map<(nat, nat), bool>)

  /** Right after strides were set: whatever the clients did before, over acceptors that hold nothing. */
  ghost predicate Init(s: System) {
    && A.Init(s.net) && s.jobs == map[] && s.begun == map[]
    && (forall i :: 0 <= i < |s.clients| ==> s.clients[i] == s.clients[i].SetStride(i + 1, |s.clients|))
  }

  datatype Step =
    | Submit(client: nat, value: string)
    | BeginAttempt(instance: nat)
    | AfterPhase1(instance: nat, num: nat, from: seq<nat>, replies: seq<Reply>)
    | AfterSkip(instance: nat, num: nat)
    | Phase2Failed(instance: nat)
    | RetryLater(instance: nat, k: nat)
    | Network(step: A.Step)

  ghost function ClientOf(s: System, instance: nat): ClientState
    requires instance in s.jobs && s.jobs[instance].owner < |s.clients|
  {
    s.clients[s.jobs[instance].owner]
  }

  ghost predicate HasClient(s: System, instance: nat) {
    instance in s.jobs && s.jobs[instance].owner < |s.clients|
  }

  ghost predicate Enabled(s: System, step: Step) {
    match step
    case Submit(client, value) => client < |s.clients|
    case BeginAttempt(instance) => HasClient(s, instance)
    case AfterPhase1(instance, num, from, replies) =>
      && HasClient(s, instance) && (instance, num) in s.begun && !s.begun[(instance, num)]
      && A.Collected(s.net, instance, num, from, replies) && PaxosClient.Promises(replies) >= s.net.n / 2 + 1
    case AfterSkip(instance, num) => HasClient(s, instance) && (instance, num) in s.begun && s.begun[(instance, num)]
    case Phase2Failed(instance) => HasClient(s, instance)
    case RetryLater(instance, k) => HasClient(s, instance)
    case Network(step) => !step.Start? && !step.Propose? && A.Enabled(s.net, step)
  }

  ghost function WithClient(s: System, instance: nat, c: ClientState): System
    requires HasClient(s, instance)
  {
    s.(clients := s.clients[s.jobs[instance].owner := c])
  }

  ghost function Sending(s: System, m: A.Message): System {
    s.(net := s.net.(sent := s.net.sent + {m}))
  }

  ghost function After(s: System, step: Step): System
    requires Enabled(s, step)
  {
    match step
    case Submit(client, value) =>
      var (c, instance) := s.clients[client].Allocate();
      s.(clients := s.clients[client := c], jobs := s.jobs[instance := Job(client, value)])
    case BeginAttempt(instance) =>
      var (c, num) := ClientOf(s, instance).Begin();
      var skip := ClientOf(s, instance).SkipsPhase1(instance);
      var s1 := WithClient(s, instance, c).(begun := s.begun[(instance, num) := skip]);
      if skip then s1 else Sending(s1, A.Prepare(instance, num))
    case AfterPhase1(instance, num, _, replies) =>
      Sending(WithClient(s, instance, ClientOf(s, instance).Prepared(instance, replies)),
              A.Accept(instance, num, Choice(replies, s.jobs[instance].value)))
    case AfterSkip(instance, num) =>
      Sending(WithClient(s, instance, ClientOf(s, instance).Skipped(instance)),
              A.Accept(instance, num, s.jobs[instance].value))
    case Phase2Failed(instance) => WithClient(s, instance, ClientOf(s, instance).Failed(instance))
    case RetryLater(instance, k) => WithClient(s, instance, ClientOf(s, instance).Retry(k, instance))
    case Network(step) => s.(net := A.After(s.net, step))
  }

  ghost predicate Next(s: System, s': System) {
    exists step :: Enabled(s, step) && s' == After(s, step)
  }

  ghost predicate IsRun(trace: seq<System>) {
    && trace != [] && Init(trace[0])
    && forall k :: 0 <= k < |trace| - 1 ==> Next(trace[k], trace[k + 1])
  }

  // ---- Invariant -------------------------------------------------------------------------------

  ghost predicate Owns(client: nat, n: nat, instance: nat) {
    client < n && instance >= 1 && (instance - 1) % n == client
  }

  ghost predicate StridesOk(s: System) {
    forall i :: 0 <= i < |s.clients| ==>
      s.clients[i].stride == |s.clients| && Owns(i, |s.clients|, s.clients[i].nextInstance)
  }

  ghost predicate JobsOk(s: System) {
    forall instance :: instance in s.jobs ==>
      && Owns(s.jobs[instance].owner, |s.clients|, instance)
      && instance < ClientOf(s, instance).nextInstance
  }

  ghost predicate Owned(jobs: map<nat, Job>, instance: nat, value: string) {
    instance in jobs && value == jobs[instance].value
  }

  ghost predicate MessageOk(jobs: map<nat, Job>, m: A.Message) {
    match m
    case Prepare(_, _) => true
    case Promise(_, instance, _, reply) => reply.Promised? && reply.num > 0 ==> Owned(jobs, instance, reply.value)
    case Accept(instance, _, value) => Owned(jobs, instance, value)
    case Accepted(_, instance, _, value) => Owned(jobs, instance, value)
    case Learn(instance, _, value) => Owned(jobs, instance, value)
  }

  ghost predicate RecordOk(jobs: map<nat, Job>, instance: nat, st: Instance) {
    && (st.acceptedNum > 0 ==> Owned(jobs, instance, st.acceptedValue))
    && (st.learned != "" ==> Owned(jobs, instance, st.learned))
  }

  ghost predicate ValuesOk(net: A.System, jobs: map<nat, Job>) {
    && (forall m :: m in net.sent ==> MessageOk(jobs, m))
    && (forall acc, instance :: acc in net.acceptors ==> RecordOk(jobs, instance, A.StateAt(net, acc, instance)))
  }

  ghost predicate Inv(s: System) {
    && StridesOk(s) && JobsOk(s) && ValuesOk(s.net, s.jobs)
  }

  lemma OneStrideOn(x: nat, n: nat)
    requires n > 0
    ensures (x + n) % n == x % n
  {
    var (q, r) := (x / n, x % n);
    var (q', r') := ((x + n) / n, (x + n) % n);
    assert n * (q + 1) == n * q + n;
    assert n * q' + r' == n * (q + 1) + r;
    SameQuotient(n, q', r', q + 1, r);
  }

  lemma SameQuotient(n: nat, q: int, r: nat, q': int, r': nat)
    requires n * q + r == n * q' + r' && r < n && r' < n
    ensures r == r'
  {
    if q > q' {
      Larger(n, q, q');
    } else if q < q' {
      Larger(n, q', q);
    }
  }

  lemma Larger(n: nat, q: int, q': int)
    requires q > q'
    ensures n * q >= n * q' + n
    decreases q - q'
  {
    assert n * q == n * (q - 1) + n;
    if q - 1 > q' {
      Larger(n, q - 1, q');
    }
  }

  lemma InitInv(s: System)
    requires Init(s)
    ensures Inv(s)
  {
  }

  /** An allocated instance was never handed out before: strides keep the clients apart. */
  lemma AllocationIsNew(s: System, client: nat)
    requires StridesOk(s) && JobsOk(s) && client < |s.clients|
    ensures s.clients[client].Allocate().1 !in s.jobs
    ensures Owns(client, |s.clients|, s.clients[client].Allocate().0.nextInstance)
  {
    var instance := s.clients[client].nextInstance;
    OneStrideOn(instance - 1, |s.clients|);
    assert instance + |s.clients| - 1 == instance - 1 + |s.clients|;
  }

  /** What the proposer picks from the promises is the owner's value, or its own choice, which is the same. */
  lemma ChoiceIsOwned(s: System, instance: nat, num: nat, from: seq<nat>, replies: seq<Reply>)
    requires ValuesOk(s.net, s.jobs) && instance in s.jobs && A.Collected(s.net, instance, num, from, replies)
    ensures Choice(replies, s.jobs[instance].value) == s.jobs[instance].value
  {
    HighestIsReported(replies);
    if Highest(replies).1 != "" {
      var k :| 0 <= k < |replies| && replies[k] == Promised(Highest(replies).0, Highest(replies).1);
      assert MessageOk(s.jobs, A.Promise(from[k], instance, num, replies[k]));
    }
  }

  lemma SubmitKeepsInv(s: System, client: nat, value: string)
    requires Inv(s) && client < |s.clients|
    ensures Inv(After(s, Submit(client, value)))
    ensures
      var jobs := After(s, Submit(client, value)).jobs;
      forall i :: i in s.jobs ==> i in jobs && jobs[i] == s.jobs[i]
  {
    AllocationIsNew(s, client);
    var s' := After(s, Submit(client, value));
    forall acc, i | acc in s'.net.acceptors
      ensures RecordOk(s'.jobs, i, A.StateAt(s'.net, acc, i))
    {
      assert RecordOk(s.jobs, i, A.StateAt(s.net, acc, i));
    }
  }

  /** Client steps other than a submission keep strides and instances, and send at most one owned message. */
  lemma ClientStepKeepsInv(s: System, step: Step)
    requires Inv(s) && Enabled(s, step) && !step.Submit? && !step.Network?
    ensures Inv(After(s, step)) && After(s, step).jobs == s.jobs
  {
    var s' := After(s, step);
    if step.AfterPhase1? {
      ChoiceIsOwned(s, step.instance, step.num, step.from, step.replies);
    }
    assert s'.net.acceptors == s.net.acceptors;
    forall acc, i | acc in s'.net.acceptors
      ensures RecordOk(s'.jobs, i, A.StateAt(s'.net, acc, i))
    {
      assert RecordOk(s.jobs, i, A.StateAt(s.net, acc, i));
    }
  }

  lemma NetworkStepKeepsValues(s: System, step: A.Step)
    requires ValuesOk(s.net, s.jobs) && Enabled(s, Network(step))
    ensures ValuesOk(A.After(s.net, step), s.jobs)
  {
    var net' := A.After(s.net, step);
    if step.Announce? {
      SomeVoteBehind(s.net, step);
    } else {
      assert MessageOk(s.jobs, step.m);
      assert RecordOk(s.jobs, step.m.inst, A.StateAt(s.net, step.acc, step.m.inst));
    }
    forall acc, i | acc in net'.acceptors
      ensures RecordOk(s.jobs, i, A.StateAt(net', acc, i))
    {
      assert RecordOk(s.jobs, i, A.StateAt(s.net, acc, i));
    }
  }

  lemma SomeVoteBehind(net: A.System, step: A.Step)
    requires step.Announce? && A.Enabled(net, step)
    ensures exists a :: A.Accepted(a, step.inst, step.num, step.value) in net.sent
  {
    assert step.voters != {};
    var a :| a in step.voters;
    assert A.Accepted(a, step.inst, step.num, step.value) in net.sent;
  }

  lemma NextKeepsInv(s: System, s': System)
    requires Inv(s) && Next(s, s')
    ensures Inv(s') && |s'.clients| == |s.clients|
    ensures forall i :: i in s.jobs ==> i in s'.jobs && s'.jobs[i] == s.jobs[i]
  {
    var step :| Enabled(s, step) && s' == After(s, step);
    match step
    case Submit(client, value) => SubmitKeepsInv(s, client, value);
    case Network(st) => NetworkStepKeepsValues(s, st);
    case _ => ClientStepKeepsInv(s, step);
  }

  lemma {:induction false} RunKeepsInv(trace: seq<System>, j: nat, k: nat)
    requires IsRun(trace) && j <= k < |trace|
    ensures Inv(trace[j]) && Inv(trace[k]) && |trace[k].clients| == |trace[j].clients|
    ensures forall i :: i in trace[j].jobs ==> i in trace[k].jobs && trace[k].jobs[i] == trace[j].jobs[i]
  {
    if k == 0 {
      InitInv(trace[0]);
    } else if j == k {
      RunKeepsInv(trace, j - 1, k - 1);
      NextKeepsInv(trace[k - 1], trace[k]);
    } else {
      RunKeepsInv(trace, j, k - 1);
      NextKeepsInv(trace[k - 1], trace[k]);
    }
  }

  // ---- Results ---------------------------------------------------------------------------------

  /** An instance belongs for good to the one client whose residue it has, and to one value of that client. */
  lemma InstancesAreOwned(trace: seq<System>, j: nat, k: nat, instance: nat)
    requires IsRun(trace) && j <= k < |trace| && instance in trace[j].jobs
    ensures instance in trace[k].jobs && trace[k].jobs[instance] == trace[j].jobs[instance]
    ensures instance >= 1 && |trace[0].clients| > 0
    ensures trace[j].jobs[instance].owner == (instance - 1) % |trace[0].clients|
  {
    RunKeepsInv(trace, j, k);
    RunKeepsInv(trace, 0, j);
    assert Owns(trace[j].jobs[instance].owner, |trace[j].clients|, instance);
  }

  /** The only value any acceptor ever accepts or learns in an instance is its owner's, phase 1 skipped or not. */
  lemma OnlyTheOwnersValue(trace: seq<System>, j: nat, k: nat, acc: nat, instance: nat)
    requires IsRun(trace) && j <= k < |trace| && acc in trace[j].net.acceptors
    ensures
      var st := A.StateAt(trace[j].net, acc, instance);
      && (st.acceptedNum > 0 ==> instance in trace[k].jobs && st.acceptedValue == trace[k].jobs[instance].value)
      && (st.learned != "" ==> instance in trace[k].jobs && st.learned == trace[k].jobs[instance].value)
  {
    RunKeepsInv(trace, j, k);
    assert RecordOk(trace[j].jobs, instance, A.StateAt(trace[j].net, acc, instance));
  }
}
