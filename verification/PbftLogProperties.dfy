/** What the message log keeps over any sequence of checkpoint votes, and the state-transfer round trip. */
module PbftLogProperties {
  import opened PbftMessages
  import opened PbftLog

  ghost predicate VotesFor(ms: seq<Message>, num: nat) {
    forall k :: 0 <= k < |ms| ==> ms[k].Checkpoint? && ms[k].num == num
  }

  ghost predicate CheckpointVotes(ms: seq<Message>) {
    forall k :: 0 <= k < |ms| ==> ms[k].Checkpoint?
  }

  /** Tally after a list of votes, oldest first. */
  ghost function Tallied(num: nat, ms: seq<Message>, f: nat): Tally
    requires VotesFor(ms, num)
  {
    if ms == [] then FreshTally(num)
    else Tallied(num, ms[..|ms| - 1], f).Voted(ms[|ms| - 1], f)
  }

  /** Log after a list of checkpoint votes, oldest first. */
  ghost function Replay(l: Log, ms: seq<Message>, f: nat): Log
    requires CheckpointVotes(ms)
  {
    if ms == [] then l
    else Replay(l, ms[..|ms| - 1], f).RecordCheckpoint(ms[|ms| - 1], f).0
  }

  /** Replicas whose vote in `ms` names digest `d`. */
  ghost function VotersFor(ms: seq<Message>, d: Digest): set<nat>
    requires CheckpointVotes(ms)
  {
    set k | 0 <= k < |ms| && ms[k].digest == d :: ms[k].from
  }

  ghost predicate DistinctVoters(ms: seq<Message>)
    requires CheckpointVotes(ms)
  {
    forall j, k :: 0 <= j < k < |ms| ==> ms[j].from != ms[k].from
  }

  /** A tally never holds a vote it did not count: it is what its own proof adds up to. */
  ghost predicate TallyInv(t: Tally, f: nat) {
    VotesFor(t.proof, t.num) && t == Tallied(t.num, t.proof, f)
  }

  ghost predicate TalliesInv(c: map<nat, Tally>, f: nat) {
    forall s :: s in c ==> c[s].num == s && TallyInv(c[s], f)
  }

  ghost predicate LogInv(l: Log, f: nat) {
    && l.low == l.lastStable
    && l.high == l.lastStable + WATER_MARK_WINDOW
    && TalliesInv(l.checkpoints, f)
    && (forall s :: s in l.checkpoints && l.checkpoints[s].stable ==> s <= l.lastStable)
    && (l.lastStable > 0 ==> l.lastStable in l.checkpoints && l.checkpoints[l.lastStable].stable)
  }

  lemma VotedKeepsTallyInv(t: Tally, m: Message, f: nat)
    requires TallyInv(t, f) && m.Checkpoint? && m.num == t.num
    ensures TallyInv(t.Voted(m, f), f)
  {
    if !t.stable && m.from !in t.voters {
      var ms := t.proof + [m];
      assert ms[..|ms| - 1] == t.proof;
    }
  }

  /** One checkpoint vote keeps the log invariant and never moves a water mark back. */
  lemma RecordKeepsInv(l: Log, m: Message, f: nat)
    requires LogInv(l, f) && m.Checkpoint?
    ensures LogInv(l.RecordCheckpoint(m, f).0, f)
    ensures l.RecordCheckpoint(m, f).0.lastStable >= l.lastStable
  {
    var t := l.TallyAt(m.num);
    var voted := l.(checkpoints := l.checkpoints[m.num := t.Voted(m, f)]);
    VotedTallies(l, m, f);
    if t.RecordVote(m, f).1 && m.num > l.lastStable {
      assert l.RecordCheckpoint(m, f).0 == voted.AdvanceTo(m.num).0;
      AdvanceKeepsInv(voted, m.num, f);
    } else {
      assert l.RecordCheckpoint(m, f).0 == voted;
      assert LogInv(voted, f);
    }
  }

  lemma VotedTallies(l: Log, m: Message, f: nat)
    requires LogInv(l, f) && m.Checkpoint?
    ensures
      var c := l.checkpoints[m.num := l.TallyAt(m.num).Voted(m, f)];
      && TalliesInv(c, f)
      && (forall s :: s in c && c[s].stable && s != m.num ==> s <= l.lastStable)
      && (l.lastStable > 0 ==> l.lastStable in c && c[l.lastStable].stable)
  {
    VotedTally(l, m, f);
  }

  /** Moving to a stable checkpoint that no other stable one exceeds. */
  lemma AdvanceKeepsInv(l: Log, num: nat, f: nat)
    requires TalliesInv(l.checkpoints, f) && num in l.checkpoints && l.checkpoints[num].stable
    requires forall s :: s in l.checkpoints && l.checkpoints[s].stable ==> s <= num
    ensures LogInv(l.AdvanceTo(num).0, f)
  {
    var l' := l.AdvanceTo(num).0;
    assert forall s :: s in l'.checkpoints ==> s in l.checkpoints && l'.checkpoints[s] == l.checkpoints[s];
  }

  lemma VotedTally(l: Log, m: Message, f: nat)
    requires TalliesInv(l.checkpoints, f) && m.Checkpoint?
    ensures TallyInv(l.TallyAt(m.num).Voted(m, f), f)
    ensures l.TallyAt(m.num).Voted(m, f).num == m.num
  {
    assert TallyInv(FreshTally(m.num), f);
    VotedKeepsTallyInv(l.TallyAt(m.num), m, f);
  }

  /**
   * The invariant over any sequence of votes: low is the stable number, high lies one window above it, both
   * only grow, and the certificate of the stable checkpoint is still there.
   */
  lemma {:induction false} ReplayKeepsInv(l: Log, ms: seq<Message>, f: nat)
    requires LogInv(l, f) && CheckpointVotes(ms)
    ensures LogInv(Replay(l, ms, f), f)
    ensures Replay(l, ms, f).low >= l.low && Replay(l, ms, f).high >= l.high
  {
    if ms != [] {
      ReplayKeepsInv(l, ms[..|ms| - 1], f);
      RecordKeepsInv(Replay(l, ms[..|ms| - 1], f), ms[|ms| - 1], f);
    }
  }

  /** A vote discards exactly the executed entries at or below a newly stable number, and touches no other. */
  lemma CollectionIsExact(l: Log, m: Message, f: nat, s: nat)
    requires LogInv(l, f) && m.Checkpoint?
    ensures
      var l' := l.RecordCheckpoint(m, f).0;
      && (s in l'.entries ==> s in l.entries && l'.entries[s] == l.entries[s])
      && (s in l.entries && s !in l'.entries <==>
            s in l.entries && l'.lastStable > l.lastStable && s <= l'.lastStable && l.entries[s].executed)
      && (s in l.checkpoints && s !in l'.checkpoints <==>
            s in l.checkpoints && l'.lastStable > l.lastStable && s < l'.lastStable)
  {
  }

  // ---- Certificates ----------------------------------------------------------------------------

  ghost predicate Faithful(t: Tally) {
    && CheckpointVotes(t.proof)
    && DistinctVoters(t.proof)
    && (forall i :: i in t.voters <==> exists k :: 0 <= k < |t.proof| && t.proof[k].from == i)
    && (forall d :: t.Count(d) == |VotersFor(t.proof, d)|)
  }

  lemma VotersForSnoc(ms: seq<Message>, m: Message, d: Digest)
    requires CheckpointVotes(ms) && m.Checkpoint?
    ensures VotersFor(ms + [m], d) == VotersFor(ms, d) + if m.digest == d then {m.from} else {}
  {
    var all := ms + [m];
    assert forall k :: 0 <= k < |ms| ==> all[k] == ms[k];
    assert all[|ms|] == m;
    forall i | i in VotersFor(ms, d)
      ensures i in VotersFor(all, d)
    {
      var k :| 0 <= k < |ms| && ms[k].digest == d && ms[k].from == i;
      assert all[k].from == i;
    }
  }

  lemma VotedKeepsVoters(t: Tally, m: Message, f: nat)
    requires Faithful(t) && m.Checkpoint? && !t.stable && m.from !in t.voters
    ensures
      var t' := t.Voted(m, f);
      forall i :: i in t'.voters <==> exists k :: 0 <= k < |t'.proof| && t'.proof[k].from == i
  {
    var t' := t.Voted(m, f);
    assert t'.proof[|t.proof|] == m;
    forall i | i in t.voters
      ensures exists k :: 0 <= k < |t'.proof| && t'.proof[k].from == i
    {
      var k :| 0 <= k < |t.proof| && t.proof[k].from == i;
      assert t'.proof[k].from == i;
    }
  }

  lemma VotedKeepsFaithful(t: Tally, m: Message, f: nat)
    requires Faithful(t) && m.Checkpoint?
    ensures Faithful(t.Voted(m, f))
  {
    if !t.stable && m.from !in t.voters {
      var t' := t.Voted(m, f);
      assert t'.proof == t.proof + [m];
      VotedKeepsVoters(t, m, f);
      forall d
        ensures t'.Count(d) == |VotersFor(t'.proof, d)|
      {
        assert m.from !in VotersFor(t.proof, d);
        VotedCounts(t, m, f, d);
      }
    }
  }

  lemma VotedCounts(t: Tally, m: Message, f: nat, d: Digest)
    requires CheckpointVotes(t.proof) && m.Checkpoint? && !t.stable && m.from !in t.voters
    requires t.Count(d) == |VotersFor(t.proof, d)| && m.from !in VotersFor(t.proof, d)
    ensures t.Voted(m, f).Count(d) == |VotersFor(t.proof + [m], d)|
  {
    VotersForSnoc(t.proof, m, d);
  }

  /** Where a tally stands against its quorum. */
  ghost predicate AtThreshold(t: Tally, f: nat) {
    && CheckpointVotes(t.proof)
    && (t.stable ==> t.proof != [] && t.Count(t.proof[|t.proof| - 1].digest) >= 2 * f + 1)
    && (!t.stable ==> forall d :: t.Count(d) < 2 * f + 1)
  }

  lemma VotedKeepsThreshold(t: Tally, m: Message, f: nat)
    requires AtThreshold(t, f) && m.Checkpoint?
    ensures AtThreshold(t.Voted(m, f), f)
  {
    if !t.stable && m.from !in t.voters {
      var t' := t.Voted(m, f);
      assert t'.Count(m.digest) == t.Count(m.digest) + 1;
      assert forall d :: d != m.digest ==> t'.Count(d) == t.Count(d);
    }
  }

  /** What a list of votes adds up to: voters are distinct, and stability means 2f+1 of them on the last digest. */
  lemma {:induction false} TalliedProperties(num: nat, ms: seq<Message>, f: nat)
    requires VotesFor(ms, num)
    ensures
      var t := Tallied(num, ms, f);
      Faithful(t) && AtThreshold(t, f) && t.num == num && VotesFor(t.proof, num) && |t.proof| <= |ms|
  {
    if ms == [] {
      assert forall d :: VotersFor([], d) == {};
    } else {
      var ms' := ms[..|ms| - 1];
      TalliedProperties(num, ms', f);
      VotedKeepsFaithful(Tallied(num, ms', f), ms[|ms| - 1], f);
      VotedKeepsThreshold(Tallied(num, ms', f), ms[|ms| - 1], f);
    }
  }

  /** A stable checkpoint holds votes of at least 2f+1 distinct replicas on one digest. */
  lemma StableIsCertified(l: Log, s: nat, f: nat) returns (d: Digest)
    requires LogInv(l, f) && s in l.checkpoints && l.checkpoints[s].stable
    ensures VotesFor(l.checkpoints[s].proof, s) && DistinctVoters(l.checkpoints[s].proof)
    ensures |VotersFor(l.checkpoints[s].proof, d)| >= 2 * f + 1
  {
    var t := l.checkpoints[s];
    TalliedProperties(s, t.proof, f);
    d := t.proof[|t.proof| - 1].digest;
  }

  // ---- State transfer --------------------------------------------------------------------------

  lemma {:induction false} TalliedPrefix(num: nat, ms: seq<Message>, k: nat, f: nat)
    requires VotesFor(ms, num) && k <= |ms|
    requires |Tallied(num, ms, f).proof| == |ms|
    ensures |Tallied(num, ms[..k], f).proof| == k
    ensures k < |ms| ==> !Tallied(num, ms[..k], f).stable
    decreases |ms| - k
  {
    if k == |ms| {
      assert ms[..k] == ms;
    } else {
      TalliedPrefix(num, ms, k + 1, f);
      TalliedStep(num, ms, k, f);
      TalliedLength(num, ms[..k], f);
    }
  }

  lemma TalliedLength(num: nat, ms: seq<Message>, f: nat)
    requires VotesFor(ms, num)
    ensures |Tallied(num, ms, f).proof| <= |ms|
  {
    if ms != [] {
      TalliedLength(num, ms[..|ms| - 1], f);
    }
  }

  lemma TalliedStep(num: nat, ms: seq<Message>, k: nat, f: nat)
    requires VotesFor(ms, num) && k < |ms|
    ensures Tallied(num, ms[..k + 1], f) == Tallied(num, ms[..k], f).Voted(ms[k], f)
    ensures Replay(EmptyLog(), ms[..k + 1], f) == Replay(EmptyLog(), ms[..k], f).RecordCheckpoint(ms[k], f).0
  {
    assert ms[..k + 1][..k] == ms[..k];
  }

  /** An empty log, but for the one tally. */
  ghost function Only(t: Tally): Log {
    EmptyLog().(checkpoints := if t == FreshTally(t.num) then map[] else map[t.num := t])
  }

  /** The log in which that tally is the stable checkpoint. */
  ghost function OnlyStable(t: Tally): Log {
    Log(map[], t.num, t.num + WATER_MARK_WINDOW, map[t.num := t], t.num)
  }

  lemma RecordIntoOnly(t: Tally, m: Message, f: nat)
    requires m.Checkpoint? && m.num == t.num && !t.stable && m.from !in t.voters
    ensures
      var (l, reached, collected) := Only(t).RecordCheckpoint(m, f);
      l == (if reached then OnlyStable(t.Voted(m, f)) else Only(t.Voted(m, f))) && (reached <==> t.Voted(m, f).stable)
  {
    var t' := t.Voted(m, f);
    assert Only(t).TallyAt(t.num) == t && t' != FreshTally(t.num);
    assert Only(t).checkpoints[t.num := t'] == map[t.num := t'];
    var l' := Only(t).RecordCheckpoint(m, f).0;
    assert l'.entries == map[] && l'.checkpoints == map[t.num := t'];
  }

  /** Replaying part of a certificate into an empty log only builds up that one tally. */
  lemma {:induction false} ReplayPrefix(num: nat, ms: seq<Message>, k: nat, f: nat)
    requires VotesFor(ms, num) && k <= |ms|
    requires |Tallied(num, ms, f).proof| == |ms|
    ensures
      var t := Tallied(num, ms[..k], f);
      Replay(EmptyLog(), ms[..k], f) == if t.stable then OnlyStable(t) else Only(t)
  {
    if k > 0 {
      ReplayPrefix(num, ms, k - 1, f);
      TalliedPrefix(num, ms, k - 1, f);
      ReplayStep(num, ms, k - 1, f);
    }
  }

  lemma ReplayStep(num: nat, ms: seq<Message>, k: nat, f: nat)
    requires VotesFor(ms, num) && k < |ms|
    requires |Tallied(num, ms, f).proof| == |ms|
    requires Replay(EmptyLog(), ms[..k], f) == Only(Tallied(num, ms[..k], f))
    ensures
      var t := Tallied(num, ms[..k + 1], f);
      && Replay(EmptyLog(), ms[..k + 1], f) == (if t.stable then OnlyStable(t) else Only(t))
      && (Replay(EmptyLog(), ms[..k], f).RecordCheckpoint(ms[k], f).1 <==> t.stable)
  {
    TalliedPrefix(num, ms, k, f);
    TalliedPrefix(num, ms, k + 1, f);
    TalliedStep(num, ms, k, f);
    TalliedProperties(num, ms[..k], f);
    RecordIntoOnly(Tallied(num, ms[..k], f), ms[k], f);
  }

  /**
   * Replaying the certificate a replica serves, in order, into the log of a joining replica: the checkpoint
   * becomes stable exactly at the last message, the stable number and both water marks come out equal, and
   * the new log serves the identical certificate. Holds for every log the votes can build.
   */
  lemma ProofRoundTrip(l: Log, f: nat)
    requires LogInv(l, f)
    ensures
      var (num, proof) := l.StableProof();
      && VotesFor(proof, num)
      && (forall k :: 0 <= k < |proof| ==>
            (Replay(EmptyLog(), proof[..k], f).RecordCheckpoint(proof[k], f).1 <==> k == |proof| - 1))
      && var l' := Replay(EmptyLog(), proof, f);
         && l'.lastStable == l.lastStable && l'.low == l.low && l'.high == l.high
         && l'.StableProof() == (num, proof)
  {
    var (num, proof) := l.StableProof();
    if proof != [] {
      TalliedProperties(num, proof, f);
      forall k | 0 <= k < |proof|
        ensures Replay(EmptyLog(), proof[..k], f).RecordCheckpoint(proof[k], f).1 <==> k == |proof| - 1
      {
        StableAtTheLast(num, proof, k, f);
      }
      ReplayPrefix(num, proof, |proof|, f);
      assert proof[..|proof|] == proof;
    } else if l.lastStable in l.checkpoints && l.checkpoints[l.lastStable].stable {
      TalliedProperties(num, proof, f);
      assert false;
    }
  }

  lemma StableAtTheLast(num: nat, ms: seq<Message>, k: nat, f: nat)
    requires VotesFor(ms, num) && k < |ms|
    requires |Tallied(num, ms, f).proof| == |ms| && Tallied(num, ms, f).stable
    ensures Replay(EmptyLog(), ms[..k], f).RecordCheckpoint(ms[k], f).1 <==> k == |ms| - 1
  {
    ReplayPrefix(num, ms, k, f);
    TalliedPrefix(num, ms, k, f);
    ReplayStep(num, ms, k, f);
    TalliedPrefix(num, ms, k + 1, f);
    assert ms[..|ms|] == ms;
  }
}
