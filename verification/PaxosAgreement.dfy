/** Multi-Paxos agreement, instance by instance, for proposers that run phase 1. */
module PaxosAgreement {
  import opened PaxosServer
  import opened PaxosClient
  import opened Quorum

  /** Requests and replies in flight. A reply carries its acceptor. */
  datatype Message =
    | Prepare(inst: nat, num: nat)
    | Promise(acc: nat, inst: nat, num: nat, reply: Reply)
    | Accept(inst: nat, num: nat, value: string)
    | Accepted(acc: nat, inst: nat, num: nat, value: string)
    | Learn(inst: nat, num: nat, value: string)

  /**
   * `attempts` holds the own value of every attempt, by instance and proposal number: numbers are distinct
   * within an instance. `accepting` holds the attempts that went on to phase 2. Messages are never lost from
   * `sent` and may be delivered any number of times, so a crashed or slow acceptor is one that takes no step.
   */
  datatype System = System(
    n: nat,
    acceptors: map<nat, map<nat, Instance>>,
    attempts: map<(nat, nat), string>,
    accepting: set<(nat, nat)>,
    sent: set<Message>)

  ghost predicate Init(s: System) {
    && s.acceptors.Keys == Cluster(s.n)
    && (forall a :: a in s.acceptors ==> s.acceptors[a] == map[])
    && s.attempts == map[] && s.accepting == {} && s.sent == {}
  }

  datatype Step =
    | Start(inst: nat, num: nat, value: string)
    | HandlePrepare(acc: nat, m: Message)
    | Propose(inst: nat, num: nat, from: seq<nat>, replies: seq<Reply>)
    | HandleAccept(acc: nat, m: Message)
    | Announce(inst: nat, num: nat, value: string, voters: set<nat>)
    | HandleLearn(acc: nat, m: Message)

  /** Replies a proposer collected, at most one per acceptor. */
  ghost predicate Collected(s: System, inst: nat, num: nat, from: seq<nat>, replies: seq<Reply>) {
    && |from| == |replies|
    && (forall j, k :: 0 <= j < k < |from| ==> from[j] != from[k])
    && (forall k :: 0 <= k < |from| && replies[k].Promised? ==> Promise(from[k], inst, num, replies[k]) in s.sent)
  }

  ghost function StateAt(s: System, acc: nat, inst: nat): Instance
    requires acc in s.acceptors
  {
    InstanceAt(s.acceptors[acc], inst)
  }

  ghost function Update(s: System, acc: nat, inst: nat, st: Instance): System
    requires acc in s.acceptors
  {
    var records: map<nat, Instance> := s.acceptors[acc];
    s.(acceptors := s.acceptors[acc := records[inst := st]])
  }

  ghost predicate Enabled(s: System, step: Step) {
    match step
    case Start(inst, num, value) => num > 0 && value != "" && (inst, num) !in s.attempts
    case HandlePrepare(acc, m) => acc in s.acceptors && m in s.sent && m.Prepare?
    case Propose(inst, num, from, replies) =>
      && (inst, num) in s.attempts && (inst, num) !in s.accepting
      && Collected(s, inst, num, from, replies) && Promises(replies) >= s.n / 2 + 1
    case HandleAccept(acc, m) => acc in s.acceptors && m in s.sent && m.Accept?
    case Announce(inst, num, value, voters) =>
      && voters <= Cluster(s.n) && |voters| >= s.n / 2 + 1
      && forall a :: a in voters ==> Accepted(a, inst, num, value) in s.sent
    case HandleLearn(acc, m) => acc in s.acceptors && m in s.sent && m.Learn?
  }

  ghost function After(s: System, step: Step): System
    requires Enabled(s, step)
  {
    match step
    case Start(inst, num, value) =>
      s.(attempts := s.attempts[(inst, num) := value], sent := s.sent + {Prepare(inst, num)})
    case HandlePrepare(acc, m) =>
      var (st, reply) := StateAt(s, acc, m.inst).OnPrepare(m.num);
      Update(s, acc, m.inst, st).(sent := s.sent + {Promise(acc, m.inst, m.num, reply)})
    case Propose(inst, num, from, replies) =>
      s.(accepting := s.accepting + {(inst, num)},
         sent := s.sent + {Accept(inst, num, Choice(replies, s.attempts[(inst, num)]))})
    case HandleAccept(acc, m) =>
      var (st, ok, _) := StateAt(s, acc, m.inst).OnAccept(m.num, m.value);
      Update(s, acc, m.inst, st).(sent := s.sent + if ok then {Accepted(acc, m.inst, m.num, m.value)} else {})
    case Announce(inst, num, value, _) => s.(sent := s.sent + {Learn(inst, num, value)})
    case HandleLearn(acc, m) => Update(s, acc, m.inst, StateAt(s, acc, m.inst).OnLearn(m.value))
  }

  ghost predicate Next(s: System, s': System) {
    exists step :: Enabled(s, step) && s' == After(s, step)
  }

  ghost predicate IsRun(trace: seq<System>) {
    && trace != [] && Init(trace[0])
    && forall k :: 0 <= k < |trace| - 1 ==> Next(trace[k], trace[k + 1])
  }

  // ---- Votes and choices -----------------------------------------------------------------------

  ghost predicate Voted(s: System, acc: nat, inst: nat, num: nat, value: string) {
    Accepted(acc, inst, num, value) in s.sent
  }

  ghost function Voters(s: System, inst: nat, num: nat, value: string): set<nat> {
    set a | a in Cluster(s.n) && Voted(s, a, inst, num, value)
  }

  /** A majority of acceptors accepted the value under one proposal number. */
  ghost predicate ChosenBy(s: System, inst: nat, num: nat, value: string) {
    |Voters(s, inst, num, value)| >= s.n / 2 + 1
  }

  // ---- Invariant -------------------------------------------------------------------------------

  /** The acceptor's record matches the votes it cast: its last vote, and none above its promise. */
  ghost predicate AcceptorOk(s: System, acc: nat, inst: nat)
    requires acc in s.acceptors
  {
    var st := StateAt(s, acc, inst);
    && st.acceptedNum <= st.promised
    && (st.acceptedNum > 0 ==> Voted(s, acc, inst, st.acceptedNum, st.acceptedValue))
    && (st.acceptedNum == 0 ==> st.acceptedValue == "")
    && forall num: nat, value: string :: Voted(s, acc, inst, num, value) ==> 0 < num <= st.acceptedNum
  }

  ghost predicate AcceptorsOk(s: System) {
    && s.acceptors.Keys == Cluster(s.n)
    && forall acc, inst :: acc in s.acceptors ==> AcceptorOk(s, acc, inst)
  }

  ghost predicate RequestsOk(s: System) {
    && (forall m :: m in s.sent && m.Prepare? ==> (m.inst, m.num) in s.attempts)
    && (forall k :: k in s.attempts ==> k.1 > 0 && s.attempts[k] != "")
    && (forall m :: m in s.sent && m.Accept? ==> (m.inst, m.num) in s.accepting && m.num > 0 && m.value != "")
    && (forall m, m' :: m in s.sent && m' in s.sent && m.Accept? && m'.Accept? && m.inst == m'.inst && m.num == m'.num
          ==> m == m')
    && (forall k :: k in s.accepting ==> k in s.attempts)
  }

  ghost predicate VotesRequested(s: System) {
    forall m :: m in s.sent && m.Accepted? ==> m.acc in s.acceptors && Accept(m.inst, m.num, m.value) in s.sent
  }

  /** A promise reports the acceptor's last vote below its number and rules out later ones below it. */
  ghost predicate PromiseOk(s: System, m: Message)
    requires m.Promise? && m.reply.Promised?
  {
    && m.acc in s.acceptors
    && m.num <= StateAt(s, m.acc, m.inst).promised
    && m.reply.num < m.num
    && (m.reply.num > 0 ==> Voted(s, m.acc, m.inst, m.reply.num, m.reply.value))
    && (m.reply.num == 0 ==> m.reply.value == "")
    && forall num: nat, value: string :: Voted(s, m.acc, m.inst, num, value) && num < m.num ==> num <= m.reply.num
  }

  ghost predicate PromisesOk(s: System) {
    forall m :: m in s.sent && m.Promise? && m.reply.Promised? ==> PromiseOk(s, m)
  }

  /** Phase 2 was preceded by a majority of promises, and the value follows from them. */
  ghost predicate Justified(s: System, m: Message)
    requires m.Accept?
  {
    exists from, replies, own :: Justifies(s, m, from, replies, own)
  }

  ghost predicate Justifies(s: System, m: Message, from: seq<nat>, replies: seq<Reply>, own: string)
    requires m.Accept?
  {
    && Collected(s, m.inst, m.num, from, replies)
    && Promises(replies) >= s.n / 2 + 1
    && m.value == Choice(replies, own)
  }

  ghost predicate AcceptsJustified(s: System) {
    forall m :: m in s.sent && m.Accept? ==> Justified(s, m)
  }

  /** A learn request and a learned value are backed by a choice. */
  ghost predicate LearnsOk(s: System) {
    && (forall m :: m in s.sent && m.Learn? ==> ChosenBy(s, m.inst, m.num, m.value))
    && (forall acc, inst :: acc in s.acceptors && StateAt(s, acc, inst).learned != "" ==>
          exists num :: ChosenBy(s, inst, num, StateAt(s, acc, inst).learned))
  }

  ghost predicate Inv(s: System) {
    AcceptorsOk(s) && RequestsOk(s) && VotesRequested(s) && PromisesOk(s) && AcceptsJustified(s) && LearnsOk(s)
  }

  lemma InitInv(s: System)
    requires Init(s)
    ensures Inv(s)
  {
  }

  lemma VotersGrow(s: System, s': System, inst: nat, num: nat, value: string)
    requires s'.n == s.n && s.sent <= s'.sent
    ensures ChosenBy(s, inst, num, value) ==> ChosenBy(s', inst, num, value)
  {
    SubsetSize(Voters(s, inst, num, value), Voters(s', inst, num, value));
  }

  // ---- Every step keeps the invariant ----------------------------------------------------------

  /** Adding messages and attempts keeps what is said about earlier ones. */
  lemma JustifiedStays(s: System, s': System)
    requires s'.n == s.n && s.sent <= s'.sent && AcceptsJustified(s)
    requires forall m :: m in s'.sent && m.Accept? ==> m in s.sent
    ensures AcceptsJustified(s')
  {
    forall m | m in s'.sent && m.Accept?
      ensures Justified(s', m)
    {
      JustificationGrows(s, s', m);
    }
  }

  lemma JustificationGrows(s: System, s': System, m: Message)
    requires s'.n == s.n && s.sent <= s'.sent && m.Accept? && Justified(s, m)
    ensures Justified(s', m)
  {
    var from, replies, own :| Justifies(s, m, from, replies, own);
    assert Justifies(s', m, from, replies, own);
  }

  lemma ChoicesStay(s: System, s': System)
    requires s'.n == s.n && s.sent <= s'.sent
    ensures forall inst, num, value :: ChosenBy(s, inst, num, value) ==> ChosenBy(s', inst, num, value)
  {
    forall inst, num, value | ChosenBy(s, inst, num, value)
      ensures ChosenBy(s', inst, num, value)
    {
      VotersGrow(s, s', inst, num, value);
    }
  }

  /** Nothing new is learned. */
  lemma LearnersKept(s: System, s': System)
    requires LearnsOk(s) && s'.n == s.n && s.sent <= s'.sent && s'.acceptors.Keys == s.acceptors.Keys
    requires forall m :: m in s'.sent && m.Learn? ==> m in s.sent
    requires forall a, i :: a in s'.acceptors ==> StateAt(s', a, i).learned == StateAt(s, a, i).learned
    ensures LearnsOk(s')
  {
    ChoicesStay(s, s');
    forall a, i | a in s'.acceptors && StateAt(s', a, i).learned != ""
      ensures exists num :: ChosenBy(s', i, num, StateAt(s', a, i).learned)
    {
      var num :| ChosenBy(s, i, num, StateAt(s, a, i).learned);
      assert ChosenBy(s', i, num, StateAt(s', a, i).learned);
    }
  }

  /** Nobody votes, forgets a vote or lowers a promise. */
  ghost predicate VotesKept(s: System, s': System) {
    && s'.n == s.n && s'.acceptors.Keys == s.acceptors.Keys
    && (forall a, i :: a in s'.acceptors ==>
          && StateAt(s', a, i).promised >= StateAt(s, a, i).promised
          && StateAt(s', a, i).acceptedNum == StateAt(s, a, i).acceptedNum
          && StateAt(s', a, i).acceptedValue == StateAt(s, a, i).acceptedValue)
    && (forall a, i, k, v :: Voted(s', a, i, k, v) ==> Voted(s, a, i, k, v))
    && s.sent <= s'.sent
  }

  lemma VotesKeptKeepsRecords(s: System, s': System)
    requires AcceptorsOk(s) && PromisesOk(s) && VotesRequested(s) && VotesKept(s, s')
    ensures AcceptorsOk(s') && VotesRequested(s')
    ensures forall m :: m in s.sent && m.Promise? && m.reply.Promised? ==> PromiseOk(s', m)
  {
    forall a, i | a in s'.acceptors
      ensures AcceptorOk(s', a, i)
    {
      assert AcceptorOk(s, a, i);
    }
    forall m | m in s.sent && m.Promise? && m.reply.Promised?
      ensures PromiseOk(s', m)
    {
      assert PromiseOk(s, m);
    }
    forall m | m in s'.sent && m.Accepted?
      ensures m.acc in s'.acceptors && Accept(m.inst, m.num, m.value) in s'.sent
    {
      assert Voted(s', m.acc, m.inst, m.num, m.value);
      assert Voted(s, m.acc, m.inst, m.num, m.value);
    }
  }

  lemma StartKeepsInv(s: System, inst: nat, num: nat, value: string)
    requires Inv(s) && Enabled(s, Start(inst, num, value))
    ensures Inv(After(s, Start(inst, num, value)))
  {
    var s' := After(s, Start(inst, num, value));
    ChoicesStay(s, s');
    JustifiedStays(s, s');
    assert s'.acceptors == s.acceptors;
    VotesKeptKeepsRecords(s, s');
    assert forall m :: m in s'.sent && !m.Prepare? ==> m in s.sent;
  }

  lemma ProposeKeepsInv(s: System, step: Step)
    requires Inv(s) && step.Propose? && Enabled(s, step)
    ensures Inv(After(s, step))
  {
    var s' := After(s, step);
    var m := Accept(step.inst, step.num, Choice(step.replies, s.attempts[(step.inst, step.num)]));
    ChoicesStay(s, s');
    assert s'.acceptors == s.acceptors;
    VotesKeptKeepsRecords(s, s');
    assert forall k :: k in s'.sent && k != m ==> k in s.sent;
    assert Justifies(s', m, step.from, step.replies, s.attempts[(step.inst, step.num)]);
    forall k | k in s'.sent && k.Accept?
      ensures Justified(s', k)
    {
      if k != m {
        JustificationGrows(s, s', k);
      }
    }
  }

  lemma AnnounceKeepsInv(s: System, step: Step)
    requires Inv(s) && step.Announce? && Enabled(s, step)
    ensures Inv(After(s, step))
  {
    var s' := After(s, step);
    ChoicesStay(s, s');
    JustifiedStays(s, s');
    assert s'.acceptors == s.acceptors;
    VotesKeptKeepsRecords(s, s');
    AnnouncementIsChosen(s, step);
    AnnounceKeepsLearners(s, step);
  }

  lemma AnnouncementIsChosen(s: System, step: Step)
    requires step.Announce? && Enabled(s, step)
    ensures ChosenBy(After(s, step), step.inst, step.num, step.value)
  {
    SubsetSize(step.voters, Voters(After(s, step), step.inst, step.num, step.value));
  }

  lemma AnnounceKeepsLearners(s: System, step: Step)
    requires LearnsOk(s) && step.Announce? && Enabled(s, step)
    requires ChosenBy(After(s, step), step.inst, step.num, step.value)
    ensures LearnsOk(After(s, step))
  {
    var s' := After(s, step);
    ChoicesStay(s, s');
    assert s'.acceptors == s.acceptors;
    forall a, i | a in s'.acceptors && StateAt(s', a, i).learned != ""
      ensures exists num :: ChosenBy(s', i, num, StateAt(s', a, i).learned)
    {
      var num :| ChosenBy(s, i, num, StateAt(s, a, i).learned);
      assert ChosenBy(s', i, num, StateAt(s', a, i).learned);
    }
  }

  /** Handling a message touches one record of one acceptor. */
  lemma OthersUnchanged(s: System, s': System, acc: nat, inst: nat, st: Instance)
    requires acc in s.acceptors && s'.acceptors == Update(s, acc, inst, st).acceptors
    ensures s'.acceptors.Keys == s.acceptors.Keys
    ensures StateAt(s', acc, inst) == st
    ensures forall a, i :: a in s.acceptors && !(a == acc && i == inst) ==> StateAt(s', a, i) == StateAt(s, a, i)
  {
  }

  lemma HandlePrepareKeepsInv(s: System, acc: nat, m: Message)
    requires Inv(s) && Enabled(s, HandlePrepare(acc, m))
    ensures Inv(After(s, HandlePrepare(acc, m)))
  {
    var s' := After(s, HandlePrepare(acc, m));
    var (st, reply) := StateAt(s, acc, m.inst).OnPrepare(m.num);
    OthersUnchanged(s, s', acc, m.inst, st);
    ChoicesStay(s, s');
    JustifiedStays(s, s');
    VotesKeptKeepsRecords(s, s');
    assert AcceptorOk(s, acc, m.inst);
    assert st.promised >= m.num;
    assert reply.Promised? ==> PromiseOk(s', Promise(acc, m.inst, m.num, reply));
    assert PromisesOk(s');
    LearnersKept(s, s');
  }

  lemma HandleLearnKeepsInv(s: System, acc: nat, m: Message)
    requires Inv(s) && Enabled(s, HandleLearn(acc, m))
    ensures Inv(After(s, HandleLearn(acc, m)))
  {
    var s' := After(s, HandleLearn(acc, m));
    var st := StateAt(s, acc, m.inst).OnLearn(m.value);
    OthersUnchanged(s, s', acc, m.inst, st);
    ChoicesStay(s, s');
    JustifiedStays(s, s');
    VotesKeptKeepsRecords(s, s');
    LearnKeepsLearners(s, s', acc, m);
  }

  lemma LearnKeepsLearners(s: System, s': System, acc: nat, m: Message)
    requires LearnsOk(s) && Enabled(s, HandleLearn(acc, m)) && s' == After(s, HandleLearn(acc, m))
    ensures LearnsOk(s')
  {
    OthersUnchanged(s, s', acc, m.inst, StateAt(s, acc, m.inst).OnLearn(m.value));
    ChoicesStay(s, s');
    forall a, i | a in s'.acceptors && StateAt(s', a, i).learned != ""
      ensures exists num :: ChosenBy(s', i, num, StateAt(s', a, i).learned)
    {
      if StateAt(s', a, i).learned == StateAt(s, a, i).learned {
        var num :| ChosenBy(s, i, num, StateAt(s, a, i).learned);
        assert ChosenBy(s', i, num, StateAt(s', a, i).learned);
      } else {
        assert ChosenBy(s', i, m.num, StateAt(s', a, i).learned);
      }
    }
  }

  lemma HandleAcceptKeepsInv(s: System, acc: nat, m: Message)
    requires Inv(s) && Enabled(s, HandleAccept(acc, m))
    ensures Inv(After(s, HandleAccept(acc, m)))
  {
    var s' := After(s, HandleAccept(acc, m));
    var (st, ok, _) := StateAt(s, acc, m.inst).OnAccept(m.num, m.value);
    OthersUnchanged(s, s', acc, m.inst, st);
    ChoicesStay(s, s');
    JustifiedStays(s, s');
    VoteKeepsAcceptors(s, s', acc, m);
    VoteKeepsPromises(s, s', acc, m);
    LearnersKept(s, s');
  }

  lemma VoteKeepsAcceptors(s: System, s': System, acc: nat, m: Message)
    requires AcceptorsOk(s) && RequestsOk(s)
    requires Enabled(s, HandleAccept(acc, m)) && s' == After(s, HandleAccept(acc, m))
    ensures AcceptorsOk(s')
  {
    var (st, ok, _) := StateAt(s, acc, m.inst).OnAccept(m.num, m.value);
    OthersUnchanged(s, s', acc, m.inst, st);
    forall a, i | a in s'.acceptors
      ensures AcceptorOk(s', a, i)
    {
      assert AcceptorOk(s, a, i);
      assert ok ==> Voted(s', acc, m.inst, m.num, m.value);
      forall k: nat, v: string | Voted(s', a, i, k, v)
        ensures 0 < k <= StateAt(s', a, i).acceptedNum
      {
        assert Voted(s, a, i, k, v) || (ok && Accepted(a, i, k, v) == Accepted(acc, m.inst, m.num, m.value));
      }
    }
  }

  lemma VoteKeepsPromises(s: System, s': System, acc: nat, m: Message)
    requires PromisesOk(s)
    requires Enabled(s, HandleAccept(acc, m)) && s' == After(s, HandleAccept(acc, m))
    ensures PromisesOk(s')
  {
    var (st, ok, _) := StateAt(s, acc, m.inst).OnAccept(m.num, m.value);
    OthersUnchanged(s, s', acc, m.inst, st);
    forall p | p in s'.sent && p.Promise? && p.reply.Promised?
      ensures PromiseOk(s', p)
    {
      assert PromiseOk(s, p);
      assert p.num <= StateAt(s, p.acc, p.inst).promised <= StateAt(s', p.acc, p.inst).promised;
      forall k: nat, v: string | Voted(s', p.acc, p.inst, k, v) && k < p.num
        ensures k <= p.reply.num
      {
        assert Voted(s, p.acc, p.inst, k, v);
      }
    }
  }

  lemma NextKeepsInv(s: System, s': System)
    requires Inv(s) && Next(s, s')
    ensures Inv(s') && s'.n == s.n && s.sent <= s'.sent
  {
    var step :| Enabled(s, step) && s' == After(s, step);
    match step
    case Start(inst, num, value) => StartKeepsInv(s, inst, num, value);
    case HandlePrepare(acc, m) => HandlePrepareKeepsInv(s, acc, m);
    case Propose(_, _, _, _) => ProposeKeepsInv(s, step);
    case HandleAccept(acc, m) => HandleAcceptKeepsInv(s, acc, m);
    case Announce(_, _, _, _) => AnnounceKeepsInv(s, step);
    case HandleLearn(acc, m) => HandleLearnKeepsInv(s, acc, m);
  }

  lemma {:induction false} RunKeepsInv(trace: seq<System>, k: nat)
    requires IsRun(trace) && k < |trace|
    ensures Inv(trace[k]) && trace[k].n == trace[0].n
    ensures forall j :: 0 <= j <= k ==> trace[j].sent <= trace[k].sent
  {
    if k == 0 {
      InitInv(trace[0]);
    } else {
      RunKeepsInv(trace, k - 1);
      NextKeepsInv(trace[k - 1], trace[k]);
    }
  }

  // ---- A chosen value is proposed by every later number ----------------------------------------

  /** Acceptors behind the promises a proposer counted. */
  ghost function Promisers(from: seq<nat>, replies: seq<Reply>): set<nat>
    requires |from| == |replies|
  {
    set k | 0 <= k < |from| && replies[k].Promised? :: from[k]
  }

  /** Replies come from distinct acceptors, so the count of promises is the number of promisers. */
  lemma {:induction false} PromisersCounted(from: seq<nat>, replies: seq<Reply>)
    requires |from| == |replies|
    requires forall j, k :: 0 <= j < k < |from| ==> from[j] != from[k]
    ensures |Promisers(from, replies)| == Promises(replies)
  {
    if |from| > 0 {
      var last := |from| - 1;
      PromisersCounted(from[..last], replies[..last]);
      var before := Promisers(from[..last], replies[..last]);
      if replies[last].Promised? {
        assert Promisers(from, replies) == before + {from[last]};
        assert from[last] !in before;
      } else {
        assert Promisers(from, replies) == before;
      }
    }
  }

  /** Some acceptor both voted for the chosen value and promised the later proposer. */
  lemma VoterPromised(s: System, inst: nat, num: nat, value: string, m: Message, from: seq<nat>, replies: seq<Reply>,
                      own: string)
    returns (k: nat)
    requires PromisesOk(s) && AcceptorsOk(s) && ChosenBy(s, inst, num, value)
    requires m.Accept? && m.inst == inst && Justifies(s, m, from, replies, own)
    ensures k < |from| && replies[k].Promised? && Voted(s, from[k], inst, num, value)
    ensures Promise(from[k], inst, m.num, replies[k]) in s.sent
  {
    PromisersCounted(from, replies);
    var promisers := Promisers(from, replies);
    forall a | a in promisers
      ensures a in Cluster(s.n)
    {
      var j :| 0 <= j < |from| && replies[j].Promised? && from[j] == a;
      assert PromiseOk(s, Promise(a, inst, m.num, replies[j]));
    }
    var a := MajorityWitness(promisers, Voters(s, inst, num, value), s.n);
    k :| 0 <= k < |from| && replies[k].Promised? && from[k] == a;
  }

  /** Once a value is chosen under `num`, every accept request with a number at or above carries it. */
  lemma {:induction false} ChosenIsProposed(s: System, inst: nat, num: nat, value: string, m: Message)
    requires Inv(s) && ChosenBy(s, inst, num, value)
    requires m in s.sent && m.Accept? && m.inst == inst && m.num >= num
    ensures m.value == value
    decreases m.num
  {
    ChosenWasRequested(s, inst, num, value);
    if m.num > num {
      assert Justified(s, m);
      var from: seq<nat>, replies: seq<Reply>, own: string :| Justifies(s, m, from, replies, own);
      var k := VoterPromised(s, inst, num, value, m, from, replies, own);
      assert PromiseOk(s, Promise(from[k], inst, m.num, replies[k]));
      HighestIsMaximal(replies, k);
      var (high, chosen) := Highest(replies);
      assert num <= replies[k].num <= high;
      HighestWasRequested(s, m, from, replies, own);
      ChosenIsProposed(s, inst, num, value, Accept(inst, high, chosen));
    }
  }

  lemma ChosenWasRequested(s: System, inst: nat, num: nat, value: string)
    requires VotesRequested(s) && AcceptorsOk(s) && ChosenBy(s, inst, num, value)
    ensures Accept(inst, num, value) in s.sent && num > 0
  {
    var voters := Voters(s, inst, num, value);
    assert voters != {};
    var a :| a in voters;
    assert Accepted(a, inst, num, value) in s.sent;
    assert AcceptorOk(s, a, inst);
  }

  lemma HighestWasRequested(s: System, m: Message, from: seq<nat>, replies: seq<Reply>, own: string)
    requires PromisesOk(s) && VotesRequested(s) && RequestsOk(s)
    requires m in s.sent && m.Accept? && Justifies(s, m, from, replies, own) && Highest(replies).0 > 0
    ensures Accept(m.inst, Highest(replies).0, Highest(replies).1) in s.sent
    ensures Highest(replies).0 < m.num && m.value == Highest(replies).1
  {
    HighestIsReported(replies);
    var (high, chosen) := Highest(replies);
    var j :| 0 <= j < |replies| && replies[j] == Promised(high, chosen);
    assert PromiseOk(s, Promise(from[j], m.inst, m.num, replies[j]));
    assert Accepted(from[j], m.inst, high, chosen) in s.sent;
  }

  /** Two majorities of one instance accepted the same value, whatever their numbers. */
  lemma ChoiceIsUnique(s: System, inst: nat, num: nat, value: string, num': nat, value': string)
    requires Inv(s) && ChosenBy(s, inst, num, value) && ChosenBy(s, inst, num', value')
    ensures value == value'
  {
    ChosenWasRequested(s, inst, num, value);
    ChosenWasRequested(s, inst, num', value');
    if num <= num' {
      ChosenIsProposed(s, inst, num, value, Accept(inst, num', value'));
    } else {
      ChosenIsProposed(s, inst, num', value', Accept(inst, num, value));
    }
  }

  /** No two majorities accept different values in one instance, at whatever points of a run they formed. */
  lemma Agreement(trace: seq<System>, j: nat, k: nat, inst: nat, num: nat, value: string, num': nat, value': string)
    requires IsRun(trace) && j < |trace| && k < |trace|
    requires ChosenBy(trace[j], inst, num, value) && ChosenBy(trace[k], inst, num', value')
    ensures value == value'
  {
    var last := if j > k then j else k;
    RunKeepsInv(trace, j);
    RunKeepsInv(trace, k);
    RunKeepsInv(trace, last);
    VotersGrow(trace[j], trace[last], inst, num, value);
    VotersGrow(trace[k], trace[last], inst, num', value');
    ChoiceIsUnique(trace[last], inst, num, value, num', value');
  }

  /** Whatever any server has learned at any point is the value some majority accepted, and the only one. */
  lemma LearnedIsChosen(trace: seq<System>, j: nat, k: nat, acc: nat, inst: nat, num': nat, value': string)
    requires IsRun(trace) && j < |trace| && k < |trace|
    requires acc in trace[j].acceptors && StateAt(trace[j], acc, inst).learned != ""
    ensures exists num :: ChosenBy(trace[j], inst, num, StateAt(trace[j], acc, inst).learned)
    ensures ChosenBy(trace[k], inst, num', value') ==> StateAt(trace[j], acc, inst).learned == value'
  {
    RunKeepsInv(trace, j);
    var num :| ChosenBy(trace[j], inst, num, StateAt(trace[j], acc, inst).learned);
    if ChosenBy(trace[k], inst, num', value') {
      Agreement(trace, j, k, inst, num, StateAt(trace[j], acc, inst).learned, num', value');
    }
  }

  // ---- Promises --------------------------------------------------------------------------------

  /** An acceptor answers a number with a promise at most once, so that no answer is ever replaced by another. */
  ghost predicate OnePromiseEach(s: System) {
    forall m, m' :: (m in s.sent && m' in s.sent && m.Promise? && m'.Promise? && m.reply.Promised? && m'.reply.Promised?
                     && m.acc == m'.acc && m.inst == m'.inst && m.num == m'.num) ==> m == m'
  }

  lemma NextKeepsPromises(s: System, s': System)
    requires PromisesOk(s) && OnePromiseEach(s) && Next(s, s')
    ensures OnePromiseEach(s')
  {
    var step :| Enabled(s, step) && s' == After(s, step);
    forall m | m in s'.sent && m !in s.sent && m.Promise? && m.reply.Promised?
      ensures NewPromise(s, step, m)
    {
      PromisesAboveAll(s, step, m);
    }
    forall m | m in s.sent && m.Promise? && m.reply.Promised?
      ensures m.num <= StateAt(s, m.acc, m.inst).promised
    {
      assert PromiseOk(s, m);
    }
  }

  /** The answer of this step to a number above all that the acceptor promised. */
  ghost predicate NewPromise(s: System, step: Step, m: Message)
    requires m.Promise?
  {
    && step.HandlePrepare? && step.m.Prepare? && {step.acc, m.acc} <= s.acceptors.Keys
    && m.num > StateAt(s, m.acc, m.inst).promised
    && m == Promise(step.acc, step.m.inst, step.m.num, StateAt(s, step.acc, step.m.inst).OnPrepare(step.m.num).1)
  }

  lemma PromisesAboveAll(s: System, step: Step, m: Message)
    requires Enabled(s, step) && m in After(s, step).sent && m !in s.sent && m.Promise? && m.reply.Promised?
    ensures NewPromise(s, step, m)
  {
  }

  /** Over any run an acceptor promises a number of an instance at most once. */
  lemma {:induction false} PromisesOnce(trace: seq<System>, k: nat)
    requires IsRun(trace) && k < |trace|
    ensures OnePromiseEach(trace[k])
  {
    if k > 0 {
      PromisesOnce(trace, k - 1);
      RunKeepsInv(trace, k - 1);
      NextKeepsPromises(trace[k - 1], trace[k]);
    }
  }
}
