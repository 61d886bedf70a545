/** What one attempt of a proposer does with the answers it gets, and why agreement covers what it sends. */
module PaxosAttempts {
  import opened Options
  import opened PaxosServer
  import opened PaxosClient
  import opened Quorum
  import A = PaxosAgreement
  import S = PaxosStride

  // ---- Counting and choosing, said without a loop ----------------------------------------------

  ghost function PromiseSet(replies: seq<Reply>): set<nat> {
    set k | 0 <= k < |replies| && replies[k].Promised?
  }

  ghost function AcceptSet(accepts: seq<bool>): set<nat> {
    set k | 0 <= k < |accepts| && accepts[k]
  }

  lemma {:induction false} PromisesAreCounted(replies: seq<Reply>)
    ensures Promises(replies) == |PromiseSet(replies)|
  {
    if replies != [] {
      var last := |replies| - 1;
      PromisesAreCounted(replies[..last]);
      assert PromiseSet(replies) == PromiseSet(replies[..last]) + if replies[last].Promised? then {last} else {};
    }
  }

  lemma {:induction false} AcceptancesAreCounted(accepts: seq<bool>)
    ensures Acceptances(accepts) == |AcceptSet(accepts)|
  {
    if accepts != [] {
      var last := |accepts| - 1;
      AcceptancesAreCounted(accepts[..last]);
      assert AcceptSet(accepts) == AcceptSet(accepts[..last]) + if accepts[last] then {last} else {};
    }
  }

  /** No promise reports an accepted value. */
  ghost predicate NoneReported(replies: seq<Reply>) {
    forall k :: 0 <= k < |replies| && replies[k].Promised? ==> replies[k].num == 0
  }

  /** Answer k is the first promise that reports the largest number. */
  ghost predicate FirstHighest(replies: seq<Reply>, k: nat) {
    && k < |replies| && replies[k].Promised? && replies[k].num > 0
    && forall j :: 0 <= j < |replies| && replies[j].Promised? ==>
         replies[j].num <= replies[k].num && (j < k ==> replies[j].num < replies[k].num)
  }

  /** An empty value counts as none. */
  ghost function Sent(replies: seq<Reply>, k: nat, own: string): string
    requires FirstHighest(replies, k)
  {
    if replies[k].value != "" then replies[k].value else own
  }

  /** The value to send: what was reported under the largest number, or the own value where nothing was. */
  ghost predicate Carries(replies: seq<Reply>, own: string, value: string) {
    || (NoneReported(replies) && value == own)
    || exists k: nat :: FirstHighest(replies, k) && value == Sent(replies, k, own)
  }

  lemma {:induction false} HighestIsFirst(replies: seq<Reply>)
    ensures NoneReported(replies) ==> Highest(replies) == (0, "")
    ensures !NoneReported(replies) ==>
              exists k: nat :: FirstHighest(replies, k) && Highest(replies) == (replies[k].num, replies[k].value)
  {
    if replies != [] {
      var last := |replies| - 1;
      var init, r := replies[..last], replies[last];
      HighestIsFirst(init);
      if NoneReported(init) {
        if r.Promised? && r.num > 0 {
          assert FirstHighest(replies, last);
        }
      } else {
        var k: nat :| FirstHighest(init, k) && Highest(init) == (init[k].num, init[k].value);
        assert init[k] == replies[k];
        assert FirstHighest(replies, if r.Promised? && r.num > init[k].num then last else k);
      }
    }
  }

  lemma ChoiceCarries(replies: seq<Reply>, own: string)
    ensures Carries(replies, own, Choice(replies, own))
  {
    HighestIsFirst(replies);
  }

  /** Nothing else would do: two first highest answers are one. */
  lemma CarriedIsUnique(replies: seq<Reply>, own: string, value: string, value': string)
    requires Carries(replies, own, value) && Carries(replies, own, value')
    ensures value == value'
  {
    forall j: nat, k: nat | FirstHighest(replies, j) && FirstHighest(replies, k)
      ensures j == k
    {
      FirstIsUnique(replies, j, k);
    }
  }

  lemma FirstIsUnique(replies: seq<Reply>, j: nat, k: nat)
    requires FirstHighest(replies, j) && FirstHighest(replies, k)
    ensures j == k
  {
    assert replies[j].num <= replies[k].num <= replies[j].num;
  }

  // ---- One attempt -----------------------------------------------------------------------------

  /** The state after an attempt that got as far as phase 2. */
  ghost predicate RecordsAttempt(c: ClientState, c': ClientState, instance: nat, ok: bool, nothingSeen: bool) {
    && c'.highestSeen == (if c.highestSeen < instance then instance else c.highestSeen)
    && c'.prepared == (if ok then c.prepared + {instance} else c.prepared - {instance})
    && c'.untouched == (if nothingSeen then c.untouched + {instance} else c.untouched)
    && c'.id == c.id && c'.nextInstance == c.nextInstance && c'.stride == c.stride
  }

  /**
   * One attempt, for any answers: phase 1 is skipped exactly in a prepared instance and right behind a prepared one in
   * which nothing had been accepted; otherwise phase 2 is reached exactly with a majority of promises, and carries what
   * the promises demand; it succeeds exactly with a majority of acceptances.
   */
  lemma AttemptIsExact(c: ClientState, instance: nat, own: string, replies: seq<Reply>, accepts: seq<bool>, n: nat)
    ensures
      var (c', a) := c.TryPropose(instance, own, replies, accepts, n);
      && a.num == c.proposalNum + 1 == c'.proposalNum
      && (a.skipped <==>
            || instance in c.prepared
            || (c.highestSeen > 0 && c.highestSeen in c.prepared * c.untouched && instance == c.highestSeen + c.stride))
      && (a.accept.Some? <==> a.skipped || 2 * |PromiseSet(replies)| > n)
      && (a.accept.Some? ==> if a.skipped then a.accept.value == own else Carries(replies, own, a.accept.value))
      && (a.ok <==> a.accept.Some? && 2 * |AcceptSet(accepts)| > n)
  {
    PromisesAreCounted(replies);
    AcceptancesAreCounted(accepts);
    ChoiceCarries(replies, own);
  }

  /** No value comes with the largest number. */
  ghost predicate NothingSeen(replies: seq<Reply>) {
    forall k: nat :: FirstHighest(replies, k) ==> replies[k].value == ""
  }

  lemma NothingIsSeen(replies: seq<Reply>)
    ensures Highest(replies).1 == "" <==> NothingSeen(replies)
  {
    HighestIsFirst(replies);
    forall j: nat, k: nat | FirstHighest(replies, j) && FirstHighest(replies, k)
      ensures j == k
    {
      FirstIsUnique(replies, j, k);
    }
  }

  /** What the client remembers of an attempt. */
  lemma AttemptIsRecorded(c: ClientState, instance: nat, own: string, replies: seq<Reply>, accepts: seq<bool>, n: nat)
    ensures
      var (c', a) := c.TryPropose(instance, own, replies, accepts, n);
      && (a.accept.None? ==> c' == c.(proposalNum := c.proposalNum + 1))
      && (a.accept.Some? ==>
            RecordsAttempt(c, c', instance, a.ok,
              a.skipped || NothingSeen(replies)))
  {
    NothingIsSeen(replies);
  }

  // ---- The attempts of one proposal ------------------------------------------------------------

  /** What the retries k, k + 1, ..., k + i add to the number, in steps of 50000. */
  function Penalty(k: nat, i: nat): nat {
    if i == 0 then k else Penalty(k, i - 1) + k + i
  }

  lemma {:induction false} PenaltyShifts(k: nat, i: nat)
    ensures k + Penalty(k + 1, i) == Penalty(k, i + 1)
  {
    if i > 0 {
      PenaltyShifts(k, i - 1);
    }
  }

  /** The numbers of the attempts from retry k on, after number `before`. */
  ghost predicate Numbered(attempts: seq<Attempt>, before: nat, k: nat) {
    forall i :: 0 <= i < |attempts| ==> attempts[i].num == before + i + 1 + 50000 * Penalty(k, i)
  }

  /** Attempts go on until one succeeds, and the waiting attempts move the number on by 50000, 100000, and so on. */
  lemma {:induction false} AttemptsAreExact(c: ClientState, instance: nat, own: string,
                                            answers: seq<(seq<Reply>, seq<bool>)>, n: nat)
    requires |answers| <= 8
    ensures
      var k, attempts := 8 - |answers|, c.Attempts(instance, own, answers, n).1;
      && |attempts| <= |answers|
      && (forall i :: 0 <= i < |attempts| - 1 ==> !attempts[i].ok)
      && (|attempts| < |answers| ==> attempts != [] && attempts[|attempts| - 1].ok)
      && Numbered(attempts, c.proposalNum, k)
    decreases |answers|
  {
    if answers != [] {
      var k := 8 - |answers|;
      var (c1, a) := c.AttemptOnce(k, instance, own, answers[0], n);
      AttemptIsNumbered(c, k, instance, own, answers[0], n);
      if !a.ok {
        AttemptsAreExact(c1, instance, own, answers[1..], n);
        NumbersJoin(c.proposalNum, c1.proposalNum, k, a, c1.Attempts(instance, own, answers[1..], n).1);
      }
    }
  }

  lemma AttemptIsNumbered(c: ClientState, k: nat, instance: nat, own: string, answers: (seq<Reply>, seq<bool>), n: nat)
    ensures
      var (c1, a) := c.AttemptOnce(k, instance, own, answers, n);
      a.num == c.proposalNum + 1 + 50000 * k == c1.proposalNum
  {
    var c0 := if k > 0 then c.Retry(k, instance) else c;
    AttemptIsExact(c0, instance, own, answers.0, answers.1, n);
  }

  lemma NumbersJoin(before: nat, now: nat, k: nat, a: Attempt, rest: seq<Attempt>)
    requires a.num == now == before + 1 + 50000 * k && Numbered(rest, now, k + 1)
    ensures Numbered([a] + rest, before, k)
  {
    forall i | 0 <= i < |[a] + rest|
      ensures ([a] + rest)[i].num == before + i + 1 + 50000 * Penalty(k, i)
    {
      if i > 0 {
        PenaltyShifts(k, i - 1);
        assert ([a] + rest)[i] == rest[i - 1];
      }
    }
  }

  /** A retry runs phase 1 again, unless the instance before this one lets it skip. */
  lemma RetryRunsPhase1(c: ClientState, k: nat, instance: nat, own: string, answers: (seq<Reply>, seq<bool>), n: nat)
    requires k > 0 && instance != c.highestSeen + c.stride
    ensures !c.AttemptOnce(k, instance, own, answers, n).1.skipped
  {
  }

  /**
   * Right after its strides were set a client runs phase 1; where that attempt succeeds in an instance in which nothing
   * had been accepted, it skips phase 1 in the next one.
   */
  lemma SkipsFromTheSecond(c: ClientState, start: nat, stride: nat, own: string, replies: seq<Reply>,
      accepts: seq<bool>, n: nat)
    requires start > 0
    ensures
      var c0 := c.SetStride(start, stride);
      var (c1, instance) := c0.Allocate();
      var (c2, a) := c1.TryPropose(instance, own, replies, accepts, n);
      && instance == start && !a.skipped
      && (a.ok && NothingSeen(replies) ==> c2.Allocate().1 == start + stride && c2.SkipsPhase1(start + stride))
  {
    NothingIsSeen(replies);
  }

  // ---- An attempt is a proposal of the agreement proof -----------------------------------------

  /**
   * An attempt with phase 1, from its answers: it sends an accept request exactly where the protocol lets this proposer
   * propose, and exactly the one the protocol sends.
   */
  lemma AttemptIsProposal(s: A.System, c: ClientState, instance: nat, own: string, from: seq<nat>, replies: seq<Reply>,
                          accepts: seq<bool>)
    requires !c.SkipsPhase1(instance) && s.n > 0
    requires
      var num := c.proposalNum + 1;
      && (instance, num) in s.attempts && s.attempts[(instance, num)] == own && (instance, num) !in s.accepting
      && A.Collected(s, instance, num, from, replies)
    ensures
      var a := c.TryPropose(instance, own, replies, accepts, s.n).1;
      var step := A.Propose(instance, a.num, from, replies);
      && (a.accept.Some? <==> A.Enabled(s, step))
      && (a.accept.Some? ==> A.After(s, step).sent == s.sent + {A.Accept(instance, a.num, a.accept.value)})
  {
  }

  /** A successful attempt had its value chosen, when the acceptances are what distinct acceptors sent. */
  lemma SuccessIsChosen(s: A.System, c: ClientState, instance: nat, own: string, replies: seq<Reply>, from: seq<nat>,
                        accepts: seq<bool>)
    requires |from| == |accepts| && forall j, k :: 0 <= j < k < |from| ==> from[j] != from[k]
    requires
      var a := c.TryPropose(instance, own, replies, accepts, s.n).1;
      && a.ok
      && forall k :: 0 <= k < |from| && accepts[k] ==>
           from[k] in Cluster(s.n) && A.Accepted(from[k], instance, a.num, a.accept.value) in s.sent
    ensures
      var a := c.TryPropose(instance, own, replies, accepts, s.n).1;
      A.ChosenBy(s, instance, a.num, a.accept.value)
  {
    var a := c.TryPropose(instance, own, replies, accepts, s.n).1;
    AttemptIsExact(c, instance, own, replies, accepts, s.n);
    var voters := set k | 0 <= k < |from| && accepts[k] :: from[k];
    Renamed(AcceptSet(accepts), from, voters);
    SubsetSize(voters, A.Voters(s, instance, a.num, a.accept.value));
  }

  /** Distinct positions name distinct acceptors. */
  lemma {:induction false} Renamed(positions: set<nat>, from: seq<nat>, names: set<nat>)
    requires forall k :: k in positions ==> k < |from|
    requires forall j, k :: 0 <= j < k < |from| ==> from[j] != from[k]
    requires forall x :: x in names <==> exists k :: k in positions && from[k] == x
    ensures |names| == |positions|
    decreases |positions|
  {
    if positions == {} {
      assert names == {};
    } else {
      var k :| k in positions;
      assert from[k] in names;
      forall x
        ensures x in names - {from[k]} <==> exists j :: j in positions - {k} && from[j] == x
      {
      }
      Renamed(positions - {k}, from, names - {from[k]});
    }
  }

  /**
   * Over any run: whatever has been chosen in an instance under the number of an attempt with phase 1 or a lower one is
   * what the attempt sends. It never overwrites a choice.
   */
  lemma AttemptKeepsChoice(trace: seq<A.System>, c: ClientState, instance: nat, own: string, from: seq<nat>,
                           replies: seq<Reply>, accepts: seq<bool>, num: nat, value: string)
    requires A.IsRun(trace) && trace[|trace| - 1].n > 0 && !c.SkipsPhase1(instance)
    requires
      var s := trace[|trace| - 1];
      && (instance, c.proposalNum + 1) in s.attempts && s.attempts[(instance, c.proposalNum + 1)] == own
      && (instance, c.proposalNum + 1) !in s.accepting && A.Collected(s, instance, c.proposalNum + 1, from, replies)
      && A.ChosenBy(s, instance, num, value) && num <= c.proposalNum + 1
    ensures
      var a := c.TryPropose(instance, own, replies, accepts, trace[|trace| - 1].n).1;
      a.accept.Some? ==> a.accept.value == value
  {
    var s := trace[|trace| - 1];
    var a := c.TryPropose(instance, own, replies, accepts, s.n).1;
    AttemptIsProposal(s, c, instance, own, from, replies, accepts);
    if a.accept.Some? {
      var step := A.Propose(instance, a.num, from, replies);
      var s' := A.After(s, step);
      A.RunKeepsInv(trace, |trace| - 1);
      assert A.Next(s, s');
      A.NextKeepsInv(s, s');
      A.VotersGrow(s, s', instance, num, value);
      A.ChosenIsProposed(s', instance, num, value, A.Accept(instance, a.num, a.accept.value));
    }
  }

  // ---- An attempt is a row of steps of the stride proof ----------------------------------------

  /** The client step between the two phases. */
  ghost function MiddleStep(a: Attempt, instance: nat, from: seq<nat>, replies: seq<Reply>): S.Step {
    if a.skipped then S.AfterSkip(instance, a.num) else S.AfterPhase1(instance, a.num, from, replies)
  }

  /**
   * An attempt of a client of the stride system, with whatever the network does in between: the steps it takes are
   * enabled, the accept request is the one it sends, and they leave the client as the attempt does.
   */
  lemma AttemptIsStrideSteps(s: S.System, instance: nat, from: seq<nat>, replies: seq<Reply>, accepts: seq<bool>,
                             net: A.System, net': A.System)
    requires S.HasClient(s, instance) && net.n == s.net.n && net.n > 0
    requires A.Collected(net, instance, S.ClientOf(s, instance).proposalNum + 1, from, replies)
    ensures
      var c := S.ClientOf(s, instance);
      var (c', a) := c.TryPropose(instance, s.jobs[instance].value, replies, accepts, s.net.n);
      var s1 := S.After(s, S.BeginAttempt(instance));
      var s2, step := s1.(net := net), MiddleStep(a, instance, from, replies);
      && s1.net.sent == s.net.sent + (if a.skipped then {} else {A.Prepare(instance, a.num)})
      && (a.accept.None? <==> !S.Enabled(s2, step)) && (a.accept.None? ==> S.ClientOf(s2, instance) == c')
      && (a.accept.Some? ==>
            var s3 := S.After(s2, step);
            && s3.net == net.(sent := net.sent + {A.Accept(instance, a.num, a.accept.value)})
            && (a.ok ==> S.ClientOf(s3, instance) == c')
            && (!a.ok ==> S.ClientOf(S.After(s3.(net := net'), S.Phase2Failed(instance)), instance) == c'))
  {
  }
}
