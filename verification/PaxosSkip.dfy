/** Skipping phase 1, instance by instance: safe exactly where no other client ever comes. */
module PaxosSkip {
  import opened PaxosServer
  import opened PaxosClient
  import opened PaxosStride
  import opened Quorum
  import A = PaxosAgreement
  import Runs

  // ---- Clients with any starts and strides -----------------------------------------------------

  /** Where a client starts and how far it steps. */
  datatype Stride = Stride(start: nat, step: nat)

  /** The instance of a client's j-th proposal, counted from 0. */
  function Nth(c: Stride, j: nat): nat {
    if j == 0 then c.start else Nth(c, j - 1) + c.step
  }

  ghost predicate Visits(c: Stride, instance: nat) {
    exists j: nat :: Nth(c, j) == instance
  }

  /** Acceptors that hold nothing, and clients right after their strides were set, or as they were created. */
  ghost predicate InitFrom(cfg: seq<Stride>, s: System) {
    && A.Init(s.net) && s.jobs == map[] && s.begun == map[] && |s.clients| == |cfg|
    && (forall i :: 0 <= i < |cfg| ==> s.clients[i] == s.clients[i].SetStride(cfg[i].start, cfg[i].step))
  }

  ghost predicate IsRunFrom(cfg: seq<Stride>, trace: seq<System>) {
    && trace != [] && InitFrom(cfg, trace[0])
    && forall k :: 0 <= k < |trace| - 1 ==> Next(trace[k], trace[k + 1])
  }

  /** No two majorities accepted different values in the instance. */
  ghost predicate AgreesOn(net: A.System, instance: nat) {
    forall num: nat, value: string, num': nat, value': string ::
      A.ChosenBy(net, instance, num, value) && A.ChosenBy(net, instance, num', value') ==> value == value'
  }

  lemma {:induction false} NthGrows(c: Stride, j: nat, k: nat)
    requires c.step >= 1 && j <= k
    ensures Nth(c, j) <= Nth(c, k) && (j < k ==> Nth(c, j) < Nth(c, k))
    decreases k
  {
    if j < k {
      NthGrows(c, j, k - 1);
    }
  }

  // ---- Nobody else comes: only the owner's value -----------------------------------------------

  /** The message carries the owner's value, if it is about the instance. */
  ghost predicate MessageAt(jobs: map<nat, Job>, instance: nat, m: A.Message) {
    m.inst == instance ==> MessageOk(jobs, m)
  }

  ghost predicate ValuesAt(net: A.System, jobs: map<nat, Job>, instance: nat) {
    && (forall m :: m in net.sent ==> MessageAt(jobs, instance, m))
    && (forall acc :: acc in net.acceptors ==> RecordOk(jobs, instance, A.StateAt(net, acc, instance)))
  }

  /** Clients walk along their own instances. */
  ghost predicate OnTrack(cfg: seq<Stride>, s: System) {
    && |s.clients| == |cfg|
    && forall i :: 0 <= i < |cfg| ==>
         s.clients[i].stride == cfg[i].step && Visits(cfg[i], s.clients[i].nextInstance)
  }

  /** The instance was given out to client b at most once. */
  ghost predicate OwnedBy(s: System, b: nat, instance: nat) {
    && b < |s.clients|
    && (instance in s.jobs ==> s.jobs[instance].owner == b && instance < s.clients[b].nextInstance)
  }

  ghost predicate Inv(cfg: seq<Stride>, s: System, b: nat, instance: nat) {
    OnTrack(cfg, s) && OwnedBy(s, b, instance) && ValuesAt(s.net, s.jobs, instance)
  }

  ghost predicate Alone(cfg: seq<Stride>, b: nat, instance: nat) {
    && b < |cfg| && cfg[b].step >= 1
    && forall a :: 0 <= a < |cfg| && a != b ==> !Visits(cfg[a], instance)
  }

  lemma VisitsNext(c: Stride, instance: nat)
    requires Visits(c, instance)
    ensures Visits(c, instance + c.step)
  {
    var j: nat :| Nth(c, j) == instance;
    assert Nth(c, j + 1) == instance + c.step;
  }

  lemma SubmitKeeps(cfg: seq<Stride>, s: System, client: nat, value: string, b: nat, instance: nat)
    requires Inv(cfg, s, b, instance) && Alone(cfg, b, instance) && client < |s.clients|
    ensures Inv(cfg, After(s, Submit(client, value)), b, instance)
  {
    var s' := After(s, Submit(client, value));
    VisitsNext(cfg[client], s.clients[client].nextInstance);
    assert s.clients[client].nextInstance == instance ==> client == b && instance !in s.jobs;
    JobStays(s.net, s.jobs, s'.jobs, instance);
  }

  /** A new job for an instance without one, or for another instance. */
  lemma JobStays(net: A.System, jobs: map<nat, Job>, jobs': map<nat, Job>, instance: nat)
    requires ValuesAt(net, jobs, instance)
    requires instance in jobs ==> instance in jobs' && jobs'[instance] == jobs[instance]
    ensures ValuesAt(net, jobs', instance)
  {
    forall acc | acc in net.acceptors
      ensures RecordOk(jobs', instance, A.StateAt(net, acc, instance))
    {
      assert RecordOk(jobs, instance, A.StateAt(net, acc, instance));
    }
  }

  lemma ChoiceAt(s: System, instance: nat, num: nat, from: seq<nat>, replies: seq<Reply>)
    requires ValuesAt(s.net, s.jobs, instance) && instance in s.jobs && A.Collected(s.net, instance, num, from, replies)
    ensures Choice(replies, s.jobs[instance].value) == s.jobs[instance].value
  {
    HighestIsReported(replies);
    if Highest(replies).1 != "" {
      var k :| 0 <= k < |replies| && replies[k] == Promised(Highest(replies).0, Highest(replies).1);
      assert MessageAt(s.jobs, instance, A.Promise(from[k], instance, num, replies[k]));
    }
  }

  lemma ClientKeeps(cfg: seq<Stride>, s: System, step: Step, b: nat, instance: nat)
    requires Inv(cfg, s, b, instance) && Enabled(s, step) && !step.Submit? && !step.Network?
    ensures Inv(cfg, After(s, step), b, instance)
  {
    var s' := After(s, step);
    if step.AfterPhase1? && step.instance == instance {
      ChoiceAt(s, instance, step.num, step.from, step.replies);
    }
    assert s'.net.acceptors == s.net.acceptors && s'.jobs == s.jobs;
    forall acc | acc in s'.net.acceptors
      ensures RecordOk(s'.jobs, instance, A.StateAt(s'.net, acc, instance))
    {
      assert RecordOk(s.jobs, instance, A.StateAt(s.net, acc, instance));
    }
  }

  lemma NetworkKeeps(s: System, step: A.Step, instance: nat)
    requires ValuesAt(s.net, s.jobs, instance) && Enabled(s, Network(step))
    ensures ValuesAt(A.After(s.net, step), s.jobs, instance)
  {
    var net' := A.After(s.net, step);
    if step.Announce? {
      SomeVoteBehind(s.net, step);
    } else {
      assert MessageAt(s.jobs, instance, step.m);
      assert RecordOk(s.jobs, instance, A.StateAt(s.net, step.acc, instance));
    }
    forall acc | acc in net'.acceptors
      ensures RecordOk(s.jobs, instance, A.StateAt(net', acc, instance))
    {
      assert RecordOk(s.jobs, instance, A.StateAt(s.net, acc, instance));
    }
  }

  lemma NextKeeps(cfg: seq<Stride>, s: System, s': System, b: nat, instance: nat)
    requires Inv(cfg, s, b, instance) && Alone(cfg, b, instance) && Next(s, s')
    ensures Inv(cfg, s', b, instance)
  {
    var step :| Enabled(s, step) && s' == After(s, step);
    match step
    case Submit(client, value) => SubmitKeeps(cfg, s, client, value, b, instance);
    case Network(st) => NetworkKeeps(s, st, instance);
    case _ => ClientKeeps(cfg, s, step, b, instance);
  }

  lemma InitKeeps(cfg: seq<Stride>, s: System, b: nat, instance: nat)
    requires InitFrom(cfg, s) && b < |cfg|
    ensures Inv(cfg, s, b, instance)
  {
    forall i | 0 <= i < |cfg|
      ensures Visits(cfg[i], s.clients[i].nextInstance)
    {
      assert Nth(cfg[i], 0) == s.clients[i].nextInstance;
    }
  }

  lemma {:induction false} RunKeeps(cfg: seq<Stride>, trace: seq<System>, k: nat, b: nat, instance: nat)
    requires IsRunFrom(cfg, trace) && k < |trace| && Alone(cfg, b, instance)
    ensures Inv(cfg, trace[k], b, instance)
  {
    if k == 0 {
      InitKeeps(cfg, trace[0], b, instance);
    } else {
      RunKeeps(cfg, trace, k - 1, b, instance);
      assert Next(trace[k - 1], trace[k - 1 + 1]);
      NextKeeps(cfg, trace[k - 1], trace[k], b, instance);
    }
  }

  lemma ChosenIsOwned(s: System, instance: nat, num: nat, value: string)
    requires ValuesAt(s.net, s.jobs, instance) && A.ChosenBy(s.net, instance, num, value)
    ensures instance in s.jobs && value == s.jobs[instance].value
  {
    assert A.Voters(s.net, instance, num, value) != {};
    var a :| a in A.Voters(s.net, instance, num, value);
    assert MessageAt(s.jobs, instance, A.Accepted(a, instance, num, value));
  }

  /** Where only one client comes its instances are agreed upon, whatever it skips. */
  lemma AloneAgrees(cfg: seq<Stride>, trace: seq<System>, k: nat, b: nat, instance: nat)
    requires IsRunFrom(cfg, trace) && k < |trace| && Alone(cfg, b, instance)
    ensures AgreesOn(trace[k].net, instance)
  {
    RunKeeps(cfg, trace, k, b, instance);
    forall num: nat, value: string, num': nat, value': string
      | A.ChosenBy(trace[k].net, instance, num, value) && A.ChosenBy(trace[k].net, instance, num', value')
      ensures value == value'
    {
      ChosenIsOwned(trace[k], instance, num, value);
      ChosenIsOwned(trace[k], instance, num', value');
    }
  }

  // ---- Somebody else comes: two values ---------------------------------------------------------

  ghost predicate Reached(cfg: seq<Stride>, s: System) {
    Runs.Reachable((x: System) => InitFrom(cfg, x), Next, s)
  }

  lemma Acts(cfg: seq<Stride>, s: System, step: Step) returns (s': System)
    requires Reached(cfg, s) && Enabled(s, step)
    ensures Reached(cfg, s') && s' == After(s, step)
  {
    s' := After(s, step);
    assert Next(s, s');
    Runs.NextReachable((x: System) => InitFrom(cfg, x), Next, s, s');
  }

  lemma TraceTo(cfg: seq<Stride>, s: System) returns (trace: seq<System>)
    requires Reached(cfg, s)
    ensures IsRunFrom(cfg, trace) && trace[|trace| - 1] == s
  {
    trace := Runs.TraceTo((x: System) => InitFrom(cfg, x), Next, s);
  }

  /** Three acceptors, of which 1 and 2 will answer. */
  ghost predicate ThreeAcceptors(s: System) {
    s.net.n == 3 && s.net.acceptors.Keys == Cluster(3)
  }

  /** Only acceptors acted, and only on one instance. */
  ghost predicate OnlyAcceptors(s: System, s': System, instance: nat) {
    && s'.clients == s.clients && s'.jobs == s.jobs && s'.begun == s.begun
    && s'.net.n == s.net.n && s'.net.acceptors.Keys == s.net.acceptors.Keys && s.net.sent <= s'.net.sent
    && forall acc, i :: acc in s.net.acceptors && i != instance ==>
         A.StateAt(s'.net, acc, i) == A.StateAt(s.net, acc, i)
  }

  /** Acceptors 1 and 2 have promised so far and accepted nothing. */
  ghost predicate Untouched(s: System, instance: nat, num: nat)
    requires ThreeAcceptors(s)
  {
    forall acc :: 1 <= acc <= 2 ==>
      var st := A.StateAt(s.net, acc, instance);
      st.promised == num && st.acceptedNum == 0 && st.acceptedValue == ""
  }

  lemma OnePromises(cfg: seq<Stride>, s: System, acc: nat, instance: nat, num: nat) returns (s': System)
    requires Reached(cfg, s) && ThreeAcceptors(s) && 1 <= acc <= 2 && A.Prepare(instance, num) in s.net.sent
    requires A.StateAt(s.net, acc, instance).promised < num
    requires A.StateAt(s.net, acc, instance).acceptedNum == 0 && A.StateAt(s.net, acc, instance).acceptedValue == ""
    ensures Reached(cfg, s') && OnlyAcceptors(s, s', instance)
    ensures A.Promise(acc, instance, num, Promised(0, "")) in s'.net.sent
    ensures A.StateAt(s'.net, acc, instance) == A.StateAt(s.net, acc, instance).(promised := num)
    ensures forall b :: b in s.net.acceptors && b != acc ==> s'.net.acceptors[b] == s.net.acceptors[b]
  {
    s' := Acts(cfg, s, Network(A.HandlePrepare(acc, A.Prepare(instance, num))));
  }

  lemma TwoPromise(cfg: seq<Stride>, s: System, instance: nat, num: nat) returns (s': System)
    requires Reached(cfg, s) && ThreeAcceptors(s) && A.Prepare(instance, num) in s.net.sent
    requires num > 0 && Untouched(s, instance, 0)
    ensures Reached(cfg, s') && OnlyAcceptors(s, s', instance) && ThreeAcceptors(s') && Untouched(s', instance, num)
    ensures forall acc :: 1 <= acc <= 2 ==> A.Promise(acc, instance, num, Promised(0, "")) in s'.net.sent
  {
    var mid := OnePromises(cfg, s, 1, instance, num);
    assert A.StateAt(mid.net, 2, instance) == A.StateAt(s.net, 2, instance);
    s' := OnePromises(cfg, mid, 2, instance, num);
    assert A.StateAt(s'.net, 1, instance) == A.StateAt(mid.net, 1, instance);
  }

  lemma OneAccepts(cfg: seq<Stride>, s: System, acc: nat, instance: nat, num: nat, value: string) returns (s': System)
    requires Reached(cfg, s) && ThreeAcceptors(s) && 1 <= acc <= 2 && A.Accept(instance, num, value) in s.net.sent
    requires A.StateAt(s.net, acc, instance).promised <= num
    ensures Reached(cfg, s') && OnlyAcceptors(s, s', instance)
    ensures A.Accepted(acc, instance, num, value) in s'.net.sent && A.StateAt(s'.net, acc, instance).promised == num
    ensures forall b :: b in s.net.acceptors && b != acc ==> s'.net.acceptors[b] == s.net.acceptors[b]
  {
    s' := Acts(cfg, s, Network(A.HandleAccept(acc, A.Accept(instance, num, value))));
  }

  ghost predicate PromisedUpTo(s: System, instance: nat, num: nat)
    requires ThreeAcceptors(s)
  {
    forall acc :: 1 <= acc <= 2 ==> A.StateAt(s.net, acc, instance).promised <= num
  }

  lemma TwoAccept(cfg: seq<Stride>, s: System, instance: nat, num: nat, value: string) returns (s': System)
    requires Reached(cfg, s) && ThreeAcceptors(s) && A.Accept(instance, num, value) in s.net.sent
    requires PromisedUpTo(s, instance, num)
    ensures Reached(cfg, s') && OnlyAcceptors(s, s', instance) && ThreeAcceptors(s') && PromisedUpTo(s', instance, num)
    ensures A.ChosenBy(s'.net, instance, num, value)
  {
    var mid := OneAccepts(cfg, s, 1, instance, num, value);
    assert A.StateAt(mid.net, 2, instance) == A.StateAt(s.net, 2, instance);
    s' := OneAccepts(cfg, mid, 2, instance, num, value);
    assert A.StateAt(s'.net, 1, instance) == A.StateAt(mid.net, 1, instance);
    TwoChoose(s', instance, num, value);
  }

  lemma TwoChoose(s: System, instance: nat, num: nat, value: string)
    requires s.net.n == 3
    requires A.Accepted(1, instance, num, value) in s.net.sent && A.Accepted(2, instance, num, value) in s.net.sent
    ensures A.ChosenBy(s.net, instance, num, value)
  {
    assert {1, 2} <= A.Voters(s.net, instance, num, value);
    SubsetSize({1, 2}, A.Voters(s.net, instance, num, value));
  }

  lemma StillChosen(s: System, s': System, instance: nat, num: nat, value: string)
    requires A.ChosenBy(s.net, instance, num, value) && s'.net.n == s.net.n && s.net.sent <= s'.net.sent
    ensures A.ChosenBy(s'.net, instance, num, value)
  {
    SubsetSize(A.Voters(s.net, instance, num, value), A.Voters(s'.net, instance, num, value));
  }

  /** Only client c acted, on the network at most by sending. */
  ghost predicate OnlyClient(s: System, s': System, c: nat) {
    && |s'.clients| == |s.clients| && (forall d :: 0 <= d < |s.clients| && d != c ==> s'.clients[d] == s.clients[d])
    && s'.net.n == s.net.n && s'.net.acceptors == s.net.acceptors && s.net.sent <= s'.net.sent
  }

  /** Client c submits until its j-th instance is given out. */
  lemma {:induction false} Submits(cfg: seq<Stride>, s: System, c: nat, value: string, j: nat) returns (s': System)
    requires Reached(cfg, s) && c < |s.clients| == |cfg|
    requires s.clients[c].stride == cfg[c].step && s.clients[c].nextInstance == Nth(cfg[c], 0)
    ensures Reached(cfg, s') && OnlyClient(s, s', c) && s'.net == s.net
    ensures s'.clients[c] == s.clients[c].(nextInstance := Nth(cfg[c], j + 1))
    ensures forall k: nat :: k <= j ==> Nth(cfg[c], k) in s'.jobs && s'.jobs[Nth(cfg[c], k)] == Job(c, value)
    decreases j
  {
    var before := s;
    if j > 0 {
      before := Submits(cfg, s, c, value, j - 1);
    }
    s' := Acts(cfg, before, Submit(c, value));
    forall k: nat | k <= j
      ensures Nth(cfg[c], k) in s'.jobs && s'.jobs[Nth(cfg[c], k)] == Job(c, value)
    {
      assert k < j ==> Nth(cfg[c], k) in before.jobs && before.jobs[Nth(cfg[c], k)] == Job(c, value);
    }
  }

  const ANSWERS: seq<Reply> := [Promised(0, ""), Promised(0, "")]

  lemma NothingReported()
    ensures Highest(ANSWERS) == (0, "") && PaxosClient.Promises(ANSWERS) == 2
  {
    assert ANSWERS[..1] == [Promised(0, "")] && ANSWERS[..1][..0] == [];
  }

  lemma SameRecords(net: A.System, net': A.System)
    requires net'.acceptors == net.acceptors
    ensures forall acc, i :: acc in net.acceptors ==> A.StateAt(net', acc, i) == A.StateAt(net, acc, i)
  {
  }

  /** An attempt with phase 1 in an instance where nothing happened, up to its accept request. */
  lemma FirstAttempt(cfg: seq<Stride>, s: System, c: nat, instance: nat, value: string) returns (s': System)
    requires Reached(cfg, s) && ThreeAcceptors(s) && instance in s.jobs && s.jobs[instance] == Job(c, value)
    requires c < |s.clients| && !s.clients[c].SkipsPhase1(instance) && Untouched(s, instance, 0)
    ensures Reached(cfg, s') && ThreeAcceptors(s') && s'.jobs == s.jobs && s.net.sent <= s'.net.sent
    ensures |s'.clients| == |s.clients| && forall d :: 0 <= d < |s.clients| && d != c ==> s'.clients[d] == s.clients[d]
    ensures
      var num := s.clients[c].proposalNum + 1;
      && s'.clients[c] == s.clients[c].(proposalNum := num).Prepared(instance, ANSWERS)
      && A.Accept(instance, num, value) in s'.net.sent && Untouched(s', instance, num)
    ensures forall acc, i :: acc in s.net.acceptors && i != instance ==>
              A.StateAt(s'.net, acc, i) == A.StateAt(s.net, acc, i)
  {
    var num := s.clients[c].proposalNum + 1;
    var begun := Acts(cfg, s, BeginAttempt(instance));
    SameRecords(s.net, begun.net);
    var promised := TwoPromise(cfg, begun, instance, num);
    NothingReported();
    assert A.Collected(promised.net, instance, num, [1, 2], ANSWERS);
    s' := Acts(cfg, promised, AfterPhase1(instance, num, [1, 2], ANSWERS));
    SameRecords(promised.net, s'.net);
  }

  // ---- The run ---------------------------------------------------------------------------------

  ghost function NewClient(i: nat, c: Stride): ClientState {
    ClientState(i + 1, (i + 1) * 100000, {}, {}, c.start, c.step, 0)
  }

  ghost function Start(cfg: seq<Stride>): System {
    System(A.System(3, map acc | acc in Cluster(3) :: map[], map[], {}, {}),
           seq(|cfg|, i requires 0 <= i < |cfg| => NewClient(i, cfg[i])), map[], map[])
  }

  lemma StartReached(cfg: seq<Stride>)
    ensures Reached(cfg, Start(cfg)) && ThreeAcceptors(Start(cfg))
    ensures forall acc, i :: acc in Cluster(3) ==> A.StateAt(Start(cfg).net, acc, i) == FRESH
  {
    Runs.InitReachable((x: System) => InitFrom(cfg, x), Next, Start(cfg));
  }

  /** Nothing happened outside the instance. */
  ghost predicate FreshBeside(s: System, instance: nat)
    requires ThreeAcceptors(s)
  {
    forall acc, i :: 1 <= acc <= 2 && i != instance ==> A.StateAt(s.net, acc, i) == FRESH
  }

  /** Client a alone, with phase 1, up to a chosen value. */
  lemma FirstValueChosen(cfg: seq<Stride>, a: nat, j: nat) returns (s: System, num: nat)
    requires a < |cfg|
    ensures Reached(cfg, s) && ThreeAcceptors(s) && |s.clients| == |cfg|
    ensures forall b :: 0 <= b < |cfg| && b != a ==> s.clients[b] == NewClient(b, cfg[b])
    ensures
      var instance := Nth(cfg[a], j);
      A.ChosenBy(s.net, instance, num, "x") && PromisedUpTo(s, instance, num) && FreshBeside(s, instance)
  {
    StartReached(cfg);
    var s0, instance := Start(cfg), Nth(cfg[a], j);
    var s1 := Submits(cfg, s0, a, "x", j);
    var s2 := FirstAttempt(cfg, s1, a, instance, "x");
    num := s1.clients[a].proposalNum + 1;
    s := TwoAccept(cfg, s2, instance, num, "x");
  }

  /** Client b gets ready to skip: it raises its number and succeeds with phase 1 one instance earlier. */
  lemma SecondPrepares(cfg: seq<Stride>, s: System, b: nat, k: nat, num: nat) returns (s': System)
    requires Reached(cfg, s) && ThreeAcceptors(s) && b < |cfg| == |s.clients| && k >= 1
    requires cfg[b].start >= 1 && cfg[b].step >= 1
    requires s.clients[b] == NewClient(b, cfg[b])
    requires FreshBeside(s, Nth(cfg[b], k)) && PromisedUpTo(s, Nth(cfg[b], k), num)
    ensures Reached(cfg, s') && ThreeAcceptors(s') && |s'.clients| == |cfg| && s.net.sent <= s'.net.sent
    ensures PromisedUpTo(s', Nth(cfg[b], k), num)
    ensures Nth(cfg[b], k) in s'.jobs && s'.jobs[Nth(cfg[b], k)] == Job(b, "y")
    ensures s'.clients[b].SkipsPhase1(Nth(cfg[b], k)) && s'.clients[b].proposalNum >= num
  {
    var instance, before := Nth(cfg[b], k), Nth(cfg[b], k - 1);
    NthGrows(cfg[b], 0, k - 1);
    var s1 := Submits(cfg, s, b, "y", k);
    var s2 := Acts(cfg, s1, RetryLater(before, num));
    SameRecords(s.net, s2.net);
    assert Untouched(s2, before, 0);
    s' := FirstAttempt(cfg, s2, b, before, "y");
    NothingReported();
    assert s'.clients[b].highestSeen == before;
  }

  /** And skips. */
  lemma SecondSkips(cfg: seq<Stride>, s: System, b: nat, instance: nat, num: nat) returns (s': System, num': nat)
    requires Reached(cfg, s) && ThreeAcceptors(s) && b < |s.clients| && PromisedUpTo(s, instance, num)
    requires instance in s.jobs && s.jobs[instance] == Job(b, "y")
    requires s.clients[b].SkipsPhase1(instance) && s.clients[b].proposalNum >= num
    ensures Reached(cfg, s') && s.net.sent <= s'.net.sent && s'.net.n == 3
    ensures A.ChosenBy(s'.net, instance, num', "y")
  {
    num' := s.clients[b].proposalNum + 1;
    var s1 := Acts(cfg, s, BeginAttempt(instance));
    var s2 := Acts(cfg, s1, AfterSkip(instance, num'));
    SameRecords(s.net, s2.net);
    s' := TwoAccept(cfg, s2, instance, num', "y");
  }

  /**
   * Where another client's instances meet a later one of client b, there is a run of three acceptors in which both have
   * their value accepted by a majority: b comes second and skips phase 1.
   */
  lemma MeetingParts(cfg: seq<Stride>, b: nat, k: nat, a: nat) returns (trace: seq<System>)
    requires a < |cfg| && b < |cfg| && a != b && k >= 1 && cfg[b].start >= 1 && cfg[b].step >= 1
    requires Visits(cfg[a], Nth(cfg[b], k))
    ensures IsRunFrom(cfg, trace) && !AgreesOn(trace[|trace| - 1].net, Nth(cfg[b], k))
  {
    var instance := Nth(cfg[b], k);
    var j: nat :| Nth(cfg[a], j) == instance;
    var s1, num := FirstValueChosen(cfg, a, j);
    var s2 := SecondPrepares(cfg, s1, b, k, num);
    var s, num' := SecondSkips(cfg, s2, b, instance, num);
    StillChosen(s1, s, instance, num, "x");
    trace := TraceTo(cfg, s);
    assert "x"[0] != "y"[0];
  }

  /**
   * An instance that client b reaches after its first one, where it may skip phase 1, is agreed upon in every run if
   * and only if no other client visits it.
   */
  lemma SkipIsSafeExactly(cfg: seq<Stride>, b: nat, k: nat)
    requires b < |cfg| && k >= 1 && cfg[b].start >= 1 && cfg[b].step >= 1
    ensures
      (forall trace: seq<System>, j :: IsRunFrom(cfg, trace) && 0 <= j < |trace| ==>
         AgreesOn(trace[j].net, Nth(cfg[b], k)))
      <==> (forall a :: 0 <= a < |cfg| && a != b ==> !Visits(cfg[a], Nth(cfg[b], k)))
  {
    var instance := Nth(cfg[b], k);
    if a :| 0 <= a < |cfg| && a != b && Visits(cfg[a], instance) {
      var trace := MeetingParts(cfg, b, k, a);
      assert !AgreesOn(trace[|trace| - 1].net, instance);
    } else {
      assert Alone(cfg, b, instance);
      forall trace: seq<System>, j | IsRunFrom(cfg, trace) && 0 <= j < |trace|
        ensures AgreesOn(trace[j].net, instance)
      {
        AloneAgrees(cfg, trace, j, b, instance);
      }
    }
  }

  /** Two clients as they are created: the second one's second instance is the first one's third. */
  lemma WithoutStridesParts() returns (trace: seq<System>)
    ensures IsRunFrom([Stride(1, 1), Stride(2, 1)], trace) && !AgreesOn(trace[|trace| - 1].net, 3)
  {
    var cfg := [Stride(1, 1), Stride(2, 1)];
    assert Nth(cfg[0], 0) == 1 && Nth(cfg[0], 1) == 2 && Nth(cfg[0], 2) == 3;
    assert Nth(cfg[1], 0) == 2 && Nth(cfg[1], 1) == 3;
    trace := MeetingParts(cfg, 1, 1, 0);
  }

  /** Client a of n, as the benchmark sets strides. */
  function Assigned(n: nat, a: nat): Stride {
    Stride(a + 1, n)
  }

  lemma {:induction false} AssignedResidue(n: nat, a: nat, j: nat)
    requires a < n
    ensures Nth(Assigned(n, a), j) >= 1 && (Nth(Assigned(n, a), j) - 1) % n == a
  {
    if j > 0 {
      AssignedResidue(n, a, j - 1);
      var before := Nth(Assigned(n, a), j - 1);
      OneStrideOn(before - 1, n);
      assert Nth(Assigned(n, a), j) - 1 == (before - 1) + n;
    }
  }

  /** Assigned strides never meet, so that every skip is safe. */
  lemma AssignedNeverMeet(n: nat, a: nat, b: nat, instance: nat)
    requires a < n && b < n && a != b && Visits(Assigned(n, a), instance)
    ensures !Visits(Assigned(n, b), instance)
  {
    var j: nat :| Nth(Assigned(n, a), j) == instance;
    AssignedResidue(n, a, j);
    if k: nat :| Nth(Assigned(n, b), k) == instance {
      AssignedResidue(n, b, k);
    }
  }
}
