/** What a replica makes of the votes for one number, whatever the order in which they arrive. */
module PbftArrivals {
  import opened Options
  import opened PbftMessages
  import opened PbftEntry
  import opened PbftLog
  import opened PbftNewView
  import opened PbftReplica
  import opened PbftSystem
  import opened PbftAgreement
  import opened PbftRuns
  import opened Quorum

  // ---- Votes, counted from the list of arrivals ------------------------------------------------

  ghost predicate Votes(ms: seq<Message>) {
    forall k :: 0 <= k < |ms| ==> VoteKind(ms[k])
  }

  /** The same sender speaks about the same number in the same kind of message. */
  predicate SameVoice(m: Message, m': Message)
    requires VoteKind(m) && VoteKind(m')
  {
    && m.from == m'.from && m.num == m'.num
    && (m.PrePrepare? <==> m'.PrePrepare?) && (m.Prepare? <==> m'.Prepare?)
  }

  /** Only the first message of a voice counts. */
  ghost predicate First(ms: seq<Message>, k: nat)
    requires Votes(ms)
  {
    k < |ms| && forall i :: 0 <= i < k ==> !SameVoice(ms[i], ms[k])
  }

  function VoteOf(m: Message): Vote
    requires VoteKind(m)
  {
    Vote(m.view, m.num, m.digest)
  }

  /** The first pre-prepare of the primary for the number. */
  ghost predicate Opens(ms: seq<Message>, k: nat, num: nat, primary: nat)
    requires Votes(ms)
  {
    First(ms, k) && ms[k].PrePrepare? && ms[k].num == num && ms[k].from == primary
  }

  /** Replica j prepared `v` with its first prepare for the number. */
  ghost predicate PreparedBy(ms: seq<Message>, k: nat, v: Vote)
    requires Votes(ms)
  {
    First(ms, k) && ms[k].Prepare? && VoteOf(ms[k]) == v
  }

  ghost predicate CommittedBy(ms: seq<Message>, k: nat, v: Vote)
    requires Votes(ms)
  {
    First(ms, k) && ms[k].Commit? && VoteOf(ms[k]) == v
  }

  /** The replica itself, once it has recorded the pre-prepare, and the others that prepared the same. */
  ghost function Preparers(ms: seq<Message>, v: Vote, id: nat): set<nat>
    requires Votes(ms)
  {
    (set k | 0 <= k < |ms| && PreparedBy(ms, k, v) && ms[k].from != id :: ms[k].from) + {id}
  }

  ghost function Committers(ms: seq<Message>, v: Vote): set<nat>
    requires Votes(ms)
  {
    set k | 0 <= k < |ms| && CommittedBy(ms, k, v) :: ms[k].from
  }

  // ---- The record of the number ----------------------------------------------------------------

  /** The vote under which a pre-prepare is recorded: the replica's own view and the digest of the timestamp. */
  ghost function Record(view: nat, m: Message): Vote
    requires m.PrePrepare?
  {
    Vote(view, m.num, OfRequest(m.ts))
  }

  /** Who counts in a cluster, for one number at one replica. */
  datatype Seat = Seat(id: nat, view: nat, n: nat, num: nat)
  {
    ghost function F(): nat { if n == 0 then 0 else (n - 1) / 3 }

    ghost predicate Open(ms: seq<Message>, k: nat)
      requires Votes(ms)
    {
      n > 0 && Opens(ms, k, num, view % n + 1)
    }

    ghost predicate Recorded(ms: seq<Message>, v: Vote)
      requires Votes(ms)
    {
      exists k: nat :: Open(ms, k) && v == Record(view, ms[k])
    }

    /** A pre-prepare, and 2f prepares that match it, the own one included. */
    ghost predicate Prepared(ms: seq<Message>)
      requires Votes(ms)
    {
      exists v :: Recorded(ms, v) && |Preparers(ms, v, id)| >= 2 * F()
    }

    /** Arrival k makes the replica look at the commits: a new commit, or the pre-prepare. */
    ghost predicate Looks(ms: seq<Message>, k: nat)
      requires Votes(ms)
    {
      Open(ms, k) || (First(ms, k) && ms[k].Commit? && ms[k].num == num)
    }

    /** At that moment the number is prepared and 2f+1 commits match. */
    ghost predicate Completes(ms: seq<Message>, k: nat)
      requires Votes(ms)
    {
      && k < |ms| && Looks(ms, k)
      && var soFar := ms[..k + 1];
         Prepared(soFar) && exists v :: Recorded(soFar, v) && |Committers(soFar, v)| >= 2 * F() + 1
    }

    ghost predicate Committed(ms: seq<Message>)
      requires Votes(ms)
    {
      exists k: nat :: Completes(ms, k)
    }
  }

  // ---- One more arrival ------------------------------------------------------------------------

  lemma FirstGrows(ms: seq<Message>, m: Message, k: nat)
    requires Votes(ms) && VoteKind(m) && k < |ms|
    ensures First(ms + [m], k) <==> First(ms, k)
    ensures (ms + [m])[k] == ms[k]
  {
    var all := ms + [m];
    assert forall i :: 0 <= i <= k ==> all[i] == ms[i];
  }

  /** The new arrival is the first of its voice. */
  ghost predicate IsNew(ms: seq<Message>, m: Message)
    requires Votes(ms) && VoteKind(m)
  {
    forall i :: 0 <= i < |ms| ==> !SameVoice(ms[i], m)
  }

  lemma NewIsFirst(ms: seq<Message>, m: Message)
    requires Votes(ms) && VoteKind(m)
    ensures First(ms + [m], |ms|) <==> IsNew(ms, m)
  {
    var all := ms + [m];
    assert forall i :: 0 <= i < |ms| ==> all[i] == ms[i];
  }

  lemma PreparersGrow(ms: seq<Message>, m: Message, v: Vote, id: nat)
    requires Votes(ms) && VoteKind(m)
    ensures Preparers(ms + [m], v, id)
         == Preparers(ms, v, id) + if IsNew(ms, m) && m.Prepare? && VoteOf(m) == v then {m.from} else {}
  {
    var all := ms + [m];
    NewIsFirst(ms, m);
    forall k: nat | k < |ms|
      ensures PreparedBy(all, k, v) <==> PreparedBy(ms, k, v)
    {
      FirstGrows(ms, m, k);
    }
    assert all[|ms|] == m && PreparedBy(all, |ms|, v) <==> IsNew(ms, m) && m.Prepare? && VoteOf(m) == v;
    forall j | j in Preparers(ms, v, id) && j != id
      ensures j in Preparers(all, v, id)
    {
      var k :| 0 <= k < |ms| && PreparedBy(ms, k, v) && ms[k].from == j;
      assert PreparedBy(all, k, v) && all[k].from == j;
    }
  }

  /** The new arrival opens the number. */
  ghost predicate OpensNow(seat: Seat, ms: seq<Message>, m: Message)
    requires Votes(ms) && VoteKind(m)
  {
    && seat.n > 0 && IsNew(ms, m) && m.PrePrepare? && m.num == seat.num
    && m.from == seat.view % seat.n + 1
  }

  lemma RecordedGrows(seat: Seat, ms: seq<Message>, m: Message, v: Vote)
    requires Votes(ms) && VoteKind(m)
    ensures seat.Recorded(ms + [m], v)
       <==> seat.Recorded(ms, v) || (OpensNow(seat, ms, m) && v == Record(seat.view, m))
  {
    var all := ms + [m];
    NewIsFirst(ms, m);
    assert seat.Open(all, |ms|) <==> OpensNow(seat, ms, m);
    forall k: nat | k < |ms|
      ensures seat.Open(all, k) <==> seat.Open(ms, k)
    {
      FirstGrows(ms, m, k);
    }
    if seat.Recorded(ms, v) {
      var k: nat :| seat.Open(ms, k) && v == Record(seat.view, ms[k]);
      assert seat.Open(all, k) && all[k] == ms[k];
    }
    if seat.Recorded(all, v) {
      var k: nat :| seat.Open(all, k) && v == Record(seat.view, all[k]);
      assert k < |ms| ==> seat.Open(ms, k);
    }
  }

  /** There is at most one opening, so that what is recorded is unique. */
  lemma RecordedOnce(seat: Seat, ms: seq<Message>, v: Vote, v': Vote)
    requires Votes(ms) && seat.Recorded(ms, v) && seat.Recorded(ms, v')
    ensures v == v'
  {
    var k: nat :| seat.Open(ms, k) && v == Record(seat.view, ms[k]);
    var k': nat :| seat.Open(ms, k') && v' == Record(seat.view, ms[k']);
    assert SameVoice(ms[k], ms[k']);
  }

  lemma CompletesGrows(seat: Seat, ms: seq<Message>, m: Message, k: nat)
    requires Votes(ms) && VoteKind(m) && k < |ms|
    ensures seat.Completes(ms + [m], k) <==> seat.Completes(ms, k)
  {
    FirstGrows(ms, m, k);
    assert (ms + [m])[..k + 1] == ms[..k + 1];
  }

  ghost predicate CompletesNow(seat: Seat, ms: seq<Message>, m: Message)
    requires Votes(ms) && VoteKind(m)
  {
    var all := ms + [m];
    && (OpensNow(seat, ms, m) || (IsNew(ms, m) && m.Commit? && m.num == seat.num))
    && seat.Prepared(all) && exists v :: seat.Recorded(all, v) && |Committers(all, v)| >= 2 * seat.F() + 1
  }

  lemma CommittedGrows(seat: Seat, ms: seq<Message>, m: Message)
    requires Votes(ms) && VoteKind(m)
    ensures seat.Committed(ms + [m]) <==> seat.Committed(ms) || CompletesNow(seat, ms, m)
  {
    var all := ms + [m];
    NewIsFirst(ms, m);
    assert all[..|ms| + 1] == all;
    assert seat.Completes(all, |ms|) <==> CompletesNow(seat, ms, m);
    forall k: nat | k < |ms|
      ensures seat.Completes(all, k) <==> seat.Completes(ms, k)
    {
      CompletesGrows(seat, ms, m, k);
    }
    if seat.Committed(ms) {
      var k: nat :| seat.Completes(ms, k);
      assert seat.Completes(all, k);
    }
    if seat.Committed(all) {
      var k: nat :| seat.Completes(all, k);
      assert k < |ms| ==> seat.Completes(ms, k);
    }
  }

  // ---- The entry says what arrived -------------------------------------------------------------

  /** The prepares of others in the entry are the first ones that arrived, and nothing else. */
  ghost predicate HoldsPrepares(e: Entry, ms: seq<Message>, seat: Seat)
    requires Votes(ms)
  {
    && (forall k: nat :: First(ms, k) && ms[k].Prepare? && ms[k].num == seat.num ==>
          ms[k].from in e.prepares && (ms[k].from != seat.id ==> e.prepares[ms[k].from] == VoteOf(ms[k])))
    && (forall j :: j in e.prepares && j != seat.id ==>
          exists k: nat :: PreparedBy(ms, k, e.prepares[j]) && ms[k].from == j)
    && (forall j :: j in e.prepares && j != seat.id ==> e.prepares[j].num == seat.num)
    && (e.prePrepare.Some? ==> seat.id in e.prepares && e.prepares[seat.id] == e.prePrepare.value)
  }

  ghost predicate HoldsCommits(e: Entry, ms: seq<Message>, seat: Seat)
    requires Votes(ms)
  {
    && (forall k: nat :: First(ms, k) && ms[k].Commit? && ms[k].num == seat.num ==>
          ms[k].from in e.commits && e.commits[ms[k].from] == VoteOf(ms[k]))
    && (forall j :: j in e.commits ==> exists k: nat :: CommittedBy(ms, k, e.commits[j]) && ms[k].from == j)
    && (forall j :: j in e.commits ==> e.commits[j].num == seat.num)
  }

  ghost predicate Holds(e: Entry, ms: seq<Message>, seat: Seat)
    requires Votes(ms)
  {
    && e.num == seat.num && (e.sentPrepare <==> e.prePrepare.Some?)
    && (forall v :: e.prePrepare == Some(v) <==> seat.Recorded(ms, v))
    && (e.prePrepare.Some? ==> e.prePrepare.value.digest == OfRequest(e.ts))
    && HoldsPrepares(e, ms, seat) && HoldsCommits(e, ms, seat)
    && (e.prepared <==> seat.Prepared(ms)) && (e.committed <==> seat.Committed(ms))
    && e.sentCommit == e.prepared && e.executed == e.committed
  }

  lemma MatchingPrepares(e: Entry, ms: seq<Message>, seat: Seat, v: Vote)
    requires Votes(ms) && HoldsPrepares(e, ms, seat) && e.prePrepare == Some(v) && v.num == seat.num
    ensures Matching(e.prepares, v) == Preparers(ms, v, seat.id)
  {
    forall j | j in Matching(e.prepares, v) && j != seat.id
      ensures j in Preparers(ms, v, seat.id)
    {
      var k: nat :| PreparedBy(ms, k, e.prepares[j]) && ms[k].from == j;
    }
  }

  lemma MatchingCommits(e: Entry, ms: seq<Message>, seat: Seat, v: Vote)
    requires Votes(ms) && HoldsCommits(e, ms, seat) && v.num == seat.num
    ensures Matching(e.commits, v) == Committers(ms, v)
  {
    forall j | j in Matching(e.commits, v)
      ensures j in Committers(ms, v)
    {
      var k: nat :| CommittedBy(ms, k, e.commits[j]) && ms[k].from == j;
    }
  }

  lemma RecordedNum(seat: Seat, ms: seq<Message>, v: Vote)
    requires Votes(ms) && seat.Recorded(ms, v)
    ensures v.num == seat.num && v.view == seat.view
  {
  }

  /** What prepared and committed mean once the pre-prepare is there. */
  lemma PreparedCounts(seat: Seat, ms: seq<Message>, v: Vote)
    requires Votes(ms) && seat.Recorded(ms, v)
    ensures seat.Prepared(ms) <==> |Preparers(ms, v, seat.id)| >= 2 * seat.F()
  {
    if seat.Prepared(ms) {
      var w :| seat.Recorded(ms, w) && |Preparers(ms, w, seat.id)| >= 2 * seat.F();
      RecordedOnce(seat, ms, v, w);
    }
  }

  lemma CompletesCounts(seat: Seat, ms: seq<Message>, m: Message, v: Vote)
    requires Votes(ms) && VoteKind(m) && seat.Recorded(ms + [m], v)
    ensures CompletesNow(seat, ms, m) <==>
              && (OpensNow(seat, ms, m) || (IsNew(ms, m) && m.Commit? && m.num == seat.num))
              && seat.Prepared(ms + [m]) && |Committers(ms + [m], v)| >= 2 * seat.F() + 1
  {
    if CompletesNow(seat, ms, m) {
      var w :| seat.Recorded(ms + [m], w) && |Committers(ms + [m], w)| >= 2 * seat.F() + 1;
      RecordedOnce(seat, ms + [m], v, w);
    }
  }

  // ---- Each kind of arrival keeps that ---------------------------------------------------------

  /** An arrival that cannot count: another number, a voice heard before, or a pre-prepare of the wrong sender. */
  ghost predicate Idle(seat: Seat, ms: seq<Message>, m: Message)
    requires Votes(ms) && VoteKind(m)
  {
    m.num != seat.num || !IsNew(ms, m) || (m.PrePrepare? && !OpensNow(seat, ms, m))
  }

  lemma HoldsPreparesGrow(e: Entry, e': Entry, ms: seq<Message>, m: Message, seat: Seat)
    requires Votes(ms) && VoteKind(m) && HoldsPrepares(e, ms, seat)
    requires !(IsNew(ms, m) && m.Prepare? && m.num == seat.num)
    requires forall j :: j != seat.id ==>
               (j in e'.prepares <==> j in e.prepares) && (j in e.prepares ==> e'.prepares[j] == e.prepares[j])
    requires seat.id in e.prepares ==> seat.id in e'.prepares
    requires e'.prePrepare.Some? ==> seat.id in e'.prepares && e'.prepares[seat.id] == e'.prePrepare.value
    ensures HoldsPrepares(e', ms + [m], seat)
  {
    var all := ms + [m];
    NewIsFirst(ms, m);
    forall k: nat | First(all, k) && all[k].Prepare? && all[k].num == seat.num
      ensures all[k].from in e'.prepares && (all[k].from != seat.id ==> e'.prepares[all[k].from] == VoteOf(all[k]))
    {
      if k < |ms| {
        FirstGrows(ms, m, k);
      }
    }
    forall j | j in e'.prepares && j != seat.id
      ensures exists k: nat :: PreparedBy(all, k, e'.prepares[j]) && all[k].from == j
    {
      var k: nat :| PreparedBy(ms, k, e.prepares[j]) && ms[k].from == j;
      FirstGrows(ms, m, k);
      assert PreparedBy(all, k, e'.prepares[j]) && all[k].from == j;
    }
  }

  lemma HoldsCommitsGrow(e: Entry, e': Entry, ms: seq<Message>, m: Message, seat: Seat)
    requires Votes(ms) && VoteKind(m) && HoldsCommits(e, ms, seat) && e'.commits == e.commits
    requires !(IsNew(ms, m) && m.Commit? && m.num == seat.num)
    ensures HoldsCommits(e', ms + [m], seat)
  {
    var all := ms + [m];
    NewIsFirst(ms, m);
    forall k: nat | First(all, k) && all[k].Commit? && all[k].num == seat.num
      ensures all[k].from in e'.commits && e'.commits[all[k].from] == VoteOf(all[k])
    {
      if k < |ms| {
        FirstGrows(ms, m, k);
      }
    }
    forall j | j in e'.commits
      ensures exists k: nat :: CommittedBy(all, k, e'.commits[j]) && all[k].from == j
    {
      var k: nat :| CommittedBy(ms, k, e.commits[j]) && ms[k].from == j;
      FirstGrows(ms, m, k);
      assert CommittedBy(all, k, e'.commits[j]) && all[k].from == j;
    }
  }

  lemma HeardPrepare(e: Entry, ms: seq<Message>, m: Message, seat: Seat)
    requires Votes(ms) && m.Prepare? && m.num == seat.num && HoldsPrepares(e, ms, seat) && IsNew(ms, m)
    requires m.from != seat.id
    ensures m.from !in e.prepares
  {
    assert forall k: nat :: k < |ms| && ms[k].Prepare? && ms[k].num == seat.num ==> ms[k].from != m.from;
  }

  lemma HeardCommit(e: Entry, ms: seq<Message>, m: Message, seat: Seat)
    requires Votes(ms) && m.Commit? && m.num == seat.num && HoldsCommits(e, ms, seat) && IsNew(ms, m)
    ensures m.from !in e.commits
  {
    assert forall k: nat :: k < |ms| && ms[k].Commit? && ms[k].num == seat.num ==> ms[k].from != m.from;
  }

  /** Where a voice is heard again there was a first time. */
  lemma {:induction false} FirstTime(ms: seq<Message>, m: Message, i: nat) returns (k: nat)
    requires Votes(ms) && VoteKind(m) && i < |ms| && SameVoice(ms[i], m)
    ensures First(ms, k) && SameVoice(ms[k], m)
    decreases i
  {
    if j :| 0 <= j < i && SameVoice(ms[j], m) {
      k := FirstTime(ms, m, j);
    } else {
      k := i;
    }
  }

  lemma RepeatedPrepare(e: Entry, ms: seq<Message>, m: Message, seat: Seat)
    requires Votes(ms) && m.Prepare? && m.num == seat.num && HoldsPrepares(e, ms, seat) && !IsNew(ms, m)
    ensures m.from in e.prepares
  {
    var i: nat :| i < |ms| && SameVoice(ms[i], m);
    var k := FirstTime(ms, m, i);
  }

  lemma RepeatedCommit(e: Entry, ms: seq<Message>, m: Message, seat: Seat)
    requires Votes(ms) && m.Commit? && m.num == seat.num && HoldsCommits(e, ms, seat) && !IsNew(ms, m)
    ensures m.from in e.commits
  {
    var i: nat :| i < |ms| && SameVoice(ms[i], m);
    var k := FirstTime(ms, m, i);
  }

  /** What is recorded, prepared and committed after an arrival that neither opens the number nor votes on it. */
  lemma IdleKeepsFlags(seat: Seat, ms: seq<Message>, m: Message)
    requires Votes(ms) && VoteKind(m) && Idle(seat, ms, m)
    ensures forall v :: seat.Recorded(ms + [m], v) <==> seat.Recorded(ms, v)
    ensures seat.Prepared(ms + [m]) <==> seat.Prepared(ms)
    ensures seat.Committed(ms + [m]) <==> seat.Committed(ms)
  {
    forall v
      ensures seat.Recorded(ms + [m], v) <==> seat.Recorded(ms, v)
    {
      RecordedGrows(seat, ms, m, v);
    }
    forall v | seat.Recorded(ms, v)
      ensures Preparers(ms + [m], v, seat.id) == Preparers(ms, v, seat.id)
    {
      RecordedNum(seat, ms, v);
      PreparersGrow(ms, m, v, seat.id);
    }
    CommittedGrows(seat, ms, m);
  }

  lemma IdleKeeps(e: Entry, ms: seq<Message>, m: Message, seat: Seat)
    requires Votes(ms) && VoteKind(m) && Holds(e, ms, seat) && Idle(seat, ms, m)
    ensures Holds(e, ms + [m], seat)
  {
    IdleKeepsFlags(seat, ms, m);
    HoldsPreparesGrow(e, e, ms, m, seat);
    HoldsCommitsGrow(e, e, ms, m, seat);
  }

  /** A new prepare changes no record and completes no commit. */
  lemma PrepareKeepsFlags(seat: Seat, ms: seq<Message>, m: Message)
    requires Votes(ms) && m.Prepare?
    ensures forall v :: seat.Recorded(ms + [m], v) <==> seat.Recorded(ms, v)
    ensures seat.Committed(ms + [m]) <==> seat.Committed(ms)
  {
    forall v
      ensures seat.Recorded(ms + [m], v) <==> seat.Recorded(ms, v)
    {
      RecordedGrows(seat, ms, m, v);
    }
    CommittedGrows(seat, ms, m);
  }

  lemma AddedPrepare(e: Entry, e': Entry, ms: seq<Message>, m: Message, seat: Seat)
    requires Votes(ms) && m.Prepare? && m.num == seat.num && IsNew(ms, m) && HoldsPrepares(e, ms, seat)
    requires e'.prePrepare == e.prePrepare
    requires e'.prepares == if m.from in e.prepares then e.prepares else e.prepares[m.from := VoteOf(m)]
    ensures HoldsPrepares(e', ms + [m], seat)
  {
    var all := ms + [m];
    NewIsFirst(ms, m);
    if m.from != seat.id {
      HeardPrepare(e, ms, m, seat);
    }
    forall k: nat | First(all, k) && all[k].Prepare? && all[k].num == seat.num
      ensures all[k].from in e'.prepares && (all[k].from != seat.id ==> e'.prepares[all[k].from] == VoteOf(all[k]))
    {
      if k < |ms| {
        FirstGrows(ms, m, k);
      }
    }
    forall j | j in e'.prepares && j != seat.id
      ensures exists k: nat :: PreparedBy(all, k, e'.prepares[j]) && all[k].from == j
    {
      if j == m.from {
        assert PreparedBy(all, |ms|, e'.prepares[j]) && all[|ms|] == m;
      } else {
        var k: nat :| PreparedBy(ms, k, e.prepares[j]) && ms[k].from == j;
        FirstGrows(ms, m, k);
        assert PreparedBy(all, k, e'.prepares[j]) && all[k].from == j;
      }
    }
  }

  lemma AddedCommit(e: Entry, e': Entry, ms: seq<Message>, m: Message, seat: Seat)
    requires Votes(ms) && m.Commit? && m.num == seat.num && IsNew(ms, m) && HoldsCommits(e, ms, seat)
    requires m.from !in e.commits && e'.commits == e.commits[m.from := VoteOf(m)]
    ensures HoldsCommits(e', ms + [m], seat)
  {
    var all := ms + [m];
    NewIsFirst(ms, m);
    forall k: nat | First(all, k) && all[k].Commit? && all[k].num == seat.num
      ensures all[k].from in e'.commits && e'.commits[all[k].from] == VoteOf(all[k])
    {
      if k < |ms| {
        FirstGrows(ms, m, k);
      }
    }
    forall j | j in e'.commits
      ensures exists k: nat :: CommittedBy(all, k, e'.commits[j]) && all[k].from == j
    {
      if j == m.from {
        assert CommittedBy(all, |ms|, e'.commits[j]) && all[|ms|] == m;
      } else {
        var k: nat :| CommittedBy(ms, k, e.commits[j]) && ms[k].from == j;
        FirstGrows(ms, m, k);
        assert CommittedBy(all, k, e'.commits[j]) && all[k].from == j;
      }
    }
  }

  /** The prepared flag after the check, against the list. */
  lemma CheckedPrepared(e: Entry, ms: seq<Message>, seat: Seat)
    requires Votes(ms) && HoldsPrepares(e, ms, seat) && (e.sentPrepare <==> e.prePrepare.Some?)
    requires forall v :: e.prePrepare == Some(v) <==> seat.Recorded(ms, v)
    requires e.prepared ==> seat.Prepared(ms)
    ensures
      var (e', ready) := e.CheckPrepared(seat.F());
      (e'.prepared <==> seat.Prepared(ms)) && (ready <==> seat.Prepared(ms) && !e.prepared)
  {
    if e.prePrepare.Some? {
      var v := e.prePrepare.value;
      RecordedNum(seat, ms, v);
      MatchingPrepares(e, ms, seat, v);
      PreparedCounts(seat, ms, v);
    }
  }

  /** Prepared stays: preparers only grow. */
  lemma StaysPrepared(seat: Seat, ms: seq<Message>, m: Message)
    requires Votes(ms) && VoteKind(m) && seat.Prepared(ms)
    ensures seat.Prepared(ms + [m])
  {
    var v :| seat.Recorded(ms, v) && |Preparers(ms, v, seat.id)| >= 2 * seat.F();
    RecordedGrows(seat, ms, m, v);
    PreparersGrow(ms, m, v, seat.id);
    SubsetSize(Preparers(ms, v, seat.id), Preparers(ms + [m], v, seat.id));
  }

  lemma NewPrepareKeeps(e: Entry, ms: seq<Message>, m: Message, seat: Seat)
    requires Votes(ms) && m.Prepare? && m.num == seat.num && Holds(e, ms, seat)
    ensures
      var (e', ready) := e.TryPrepare(seat.F(), m.from, VoteOf(m));
      Holds(e', ms + [m], seat) && (ready <==> seat.Prepared(ms + [m]) && !seat.Prepared(ms))
  {
    if IsNew(ms, m) {
      var e1 := if m.from in e.prepares then e else e.(prepares := e.prepares[m.from := VoteOf(m)]);
      AddedPrepare(e, e1, ms, m, seat);
      PrepareKeepsFlags(seat, ms, m);
      HoldsCommitsGrow(e, e1, ms, m, seat);
      if e.prepared {
        StaysPrepared(seat, ms, m);
      }
      CheckedPrepared(e1, ms + [m], seat);
      if m.from in e.prepares {
        OwnPrepareCountsOnce(e, ms, m, seat);
      }
    } else {
      RepeatedPrepare(e, ms, m, seat);
      IdleKeeps(e, ms, m, seat);
    }
  }

  /** The own prepare is counted with the pre-prepare; arriving once more it changes nothing. */
  lemma OwnPrepareCountsOnce(e: Entry, ms: seq<Message>, m: Message, seat: Seat)
    requires Votes(ms) && m.Prepare? && m.num == seat.num && Holds(e, ms, seat) && IsNew(ms, m) && m.from in e.prepares
    ensures seat.Prepared(ms + [m]) <==> seat.Prepared(ms)
  {
    if m.from != seat.id {
      HeardPrepare(e, ms, m, seat);
    }
    PrepareKeepsFlags(seat, ms, m);
    forall v | seat.Recorded(ms, v)
      ensures Preparers(ms + [m], v, seat.id) == Preparers(ms, v, seat.id)
    {
      PreparersGrow(ms, m, v, seat.id);
    }
  }

  lemma CommitKeepsFlags(seat: Seat, ms: seq<Message>, m: Message)
    requires Votes(ms) && m.Commit?
    ensures forall v :: seat.Recorded(ms + [m], v) <==> seat.Recorded(ms, v)
    ensures seat.Prepared(ms + [m]) <==> seat.Prepared(ms)
  {
    forall v
      ensures seat.Recorded(ms + [m], v) <==> seat.Recorded(ms, v)
      ensures Preparers(ms + [m], v, seat.id) == Preparers(ms, v, seat.id)
    {
      RecordedGrows(seat, ms, m, v);
      PreparersGrow(ms, m, v, seat.id);
    }
  }

  /** The commit check after an arrival that makes the replica look. */
  lemma CheckedCommitted(e: Entry, ms: seq<Message>, m: Message, seat: Seat)
    requires Votes(ms) && VoteKind(m) && HoldsCommits(e, ms + [m], seat)
    requires forall v :: e.prePrepare == Some(v) <==> seat.Recorded(ms + [m], v)
    requires e.prepared <==> seat.Prepared(ms + [m])
    requires e.committed <==> seat.Committed(ms)
    requires OpensNow(seat, ms, m) || (IsNew(ms, m) && m.Commit? && m.num == seat.num)
    ensures
      var (e', done) := e.CheckCommitted(seat.F());
      (e'.committed <==> seat.Committed(ms + [m])) && (done <==> seat.Committed(ms + [m]) && !seat.Committed(ms))
  {
    CommittedGrows(seat, ms, m);
    if e.prePrepare.Some? {
      var v := e.prePrepare.value;
      RecordedNum(seat, ms + [m], v);
      MatchingCommits(e, ms + [m], seat, v);
      CompletesCounts(seat, ms, m, v);
    }
  }

  lemma NewCommitKeeps(e: Entry, ms: seq<Message>, m: Message, seat: Seat)
    requires Votes(ms) && m.Commit? && m.num == seat.num && Holds(e, ms, seat)
    ensures
      var (e', done) := e.TryCommit(seat.F(), m.from, VoteOf(m));
      Holds(e', ms + [m], seat) && (done <==> seat.Committed(ms + [m]) && !seat.Committed(ms))
  {
    if IsNew(ms, m) {
      HeardCommit(e, ms, m, seat);
      var e1 := e.(commits := e.commits[m.from := VoteOf(m)]);
      AddedCommit(e, e1, ms, m, seat);
      CommitKeepsFlags(seat, ms, m);
      HoldsPreparesGrow(e, e1, ms, m, seat);
      CheckedCommitted(e1, ms, m, seat);
    } else {
      RepeatedCommit(e, ms, m, seat);
      IdleKeeps(e, ms, m, seat);
    }
  }

  /** Before the pre-prepare nothing is prepared. */
  lemma NothingYet(seat: Seat, ms: seq<Message>)
    requires Votes(ms) && forall v :: !seat.Recorded(ms, v)
    ensures !seat.Prepared(ms) && !seat.Committed(ms)
  {
    forall k: nat
      ensures !seat.Completes(ms, k)
    {
      NothingCompletes(seat, ms, k);
    }
  }

  lemma NothingCompletes(seat: Seat, ms: seq<Message>, k: nat)
    requires Votes(ms) && forall v :: !seat.Recorded(ms, v)
    ensures !seat.Completes(ms, k)
  {
    if k < |ms| {
      var soFar := ms[..k + 1];
      forall v
        ensures !seat.Recorded(soFar, v)
      {
        if seat.Recorded(soFar, v) {
          RecordedEarlier(seat, ms, k + 1, v);
          assert false;
        }
      }
    }
  }

  lemma {:induction false} RecordedEarlier(seat: Seat, ms: seq<Message>, k: nat, v: Vote)
    requires Votes(ms) && k <= |ms| && seat.Recorded(ms[..k], v)
    ensures seat.Recorded(ms, v)
    decreases |ms| - k
  {
    if k == |ms| {
      assert ms[..k] == ms;
    } else {
      assert ms[..k + 1] == ms[..k] + [ms[k]];
      RecordedGrows(seat, ms[..k], ms[k], v);
      RecordedEarlier(seat, ms, k + 1, v);
    }
  }

  /** A pre-prepare opens the number only once. */
  lemma OpensOnce(seat: Seat, ms: seq<Message>, m: Message, v: Vote)
    requires Votes(ms) && VoteKind(m) && OpensNow(seat, ms, m)
    ensures !seat.Recorded(ms, v)
  {
    assert forall k: nat :: k < |ms| && ms[k].PrePrepare? && ms[k].num == seat.num ==> ms[k].from != m.from;
  }

  lemma OpeningFlags(seat: Seat, ms: seq<Message>, m: Message)
    requires Votes(ms) && m.PrePrepare? && OpensNow(seat, ms, m)
    ensures forall v :: !seat.Recorded(ms, v) && (seat.Recorded(ms + [m], v) <==> v == Record(seat.view, m))
    ensures !seat.Prepared(ms) && !seat.Committed(ms)
  {
    forall v
      ensures !seat.Recorded(ms, v) && (seat.Recorded(ms + [m], v) <==> v == Record(seat.view, m))
    {
      OpensOnce(seat, ms, m, v);
      RecordedGrows(seat, ms, m, v);
    }
    NothingYet(seat, ms);
  }

  /** The entry right after recording: its votes are the ones that arrived, and nothing has been checked. */
  lemma OpenedEntry(e: Entry, ms: seq<Message>, m: Message, seat: Seat)
    requires Votes(ms) && m.PrePrepare? && OpensNow(seat, ms, m) && Holds(e, ms, seat)
    ensures
      var (e1, first) := e.RecordPrePrepare(seat.id, seat.view, m.ts);
      && first && e1.num == seat.num && e1.sentPrepare && !e1.prepared && !e1.committed && e1.ts == m.ts
      && !e1.sentCommit && !e1.executed
      && e1.prePrepare == Some(Record(seat.view, m))
      && HoldsPrepares(e1, ms + [m], seat) && HoldsCommits(e1, ms + [m], seat)
  {
    OpeningFlags(seat, ms, m);
    var e1 := e.RecordPrePrepare(seat.id, seat.view, m.ts).0;
    HoldsPreparesGrow(e, e1, ms, m, seat);
    HoldsCommitsGrow(e, e1, ms, m, seat);
  }

  lemma OpeningKeeps(e: Entry, ms: seq<Message>, m: Message, seat: Seat)
    requires Votes(ms) && m.PrePrepare? && OpensNow(seat, ms, m) && Holds(e, ms, seat)
    ensures
      var (e2, ready) := e.RecordPrePrepare(seat.id, seat.view, m.ts).0.CheckPrepared(seat.F());
      var (e3, done) := e2.CheckCommitted(seat.F());
      && Holds(if ready then e3 else e2, ms + [m], seat)
      && (ready <==> seat.Prepared(ms + [m])) && (ready && done <==> seat.Committed(ms + [m]))
  {
    OpenedEntry(e, ms, m, seat);
    OpeningFlags(seat, ms, m);
    OpenedChecks(e.RecordPrePrepare(seat.id, seat.view, m.ts).0, ms, m, seat);
  }

  lemma OpenedChecks(e1: Entry, ms: seq<Message>, m: Message, seat: Seat)
    requires Votes(ms) && m.PrePrepare? && OpensNow(seat, ms, m) && !seat.Committed(ms)
    requires e1.num == seat.num && e1.sentPrepare && !e1.prepared && !e1.committed && e1.ts == m.ts
    requires !e1.sentCommit && !e1.executed
    requires e1.prePrepare == Some(Record(seat.view, m))
    requires forall v :: seat.Recorded(ms + [m], v) <==> v == Record(seat.view, m)
    requires HoldsPrepares(e1, ms + [m], seat) && HoldsCommits(e1, ms + [m], seat)
    ensures
      var (e2, ready) := e1.CheckPrepared(seat.F());
      var (e3, done) := e2.CheckCommitted(seat.F());
      && Holds(if ready then e3 else e2, ms + [m], seat)
      && (ready <==> seat.Prepared(ms + [m])) && (ready && done <==> seat.Committed(ms + [m]))
  {
    CheckedPrepared(e1, ms + [m], seat);
    var (e2, ready) := e1.CheckPrepared(seat.F());
    var e3 := e2.CheckCommitted(seat.F()).0;
    SameVotes(e1, e2, ms + [m], seat);
    CheckedCommitted(e2, ms, m, seat);
    SameVotes(e1, e3, ms + [m], seat);
    if !ready {
      CommittedGrows(seat, ms, m);
    }
  }

  /** The checks touch no vote. */
  lemma SameVotes(e: Entry, e': Entry, ms: seq<Message>, seat: Seat)
    requires Votes(ms) && HoldsPrepares(e, ms, seat) && HoldsCommits(e, ms, seat)
    requires e'.prePrepare == e.prePrepare && e'.prepares == e.prepares && e'.commits == e.commits
    ensures HoldsPrepares(e', ms, seat) && HoldsCommits(e', ms, seat)
  {
  }

  /** A pre-prepare from the wrong sender, or after the first, is not recorded. */
  lemma LatePrePrepare(e: Entry, ms: seq<Message>, m: Message, seat: Seat)
    requires Votes(ms) && m.PrePrepare? && m.num == seat.num && seat.n > 0 && m.from == seat.view % seat.n + 1
    requires !IsNew(ms, m) && Holds(e, ms, seat)
    ensures e.sentPrepare
  {
    var i: nat :| i < |ms| && SameVoice(ms[i], m);
    var k := FirstTime(ms, m, i);
    assert seat.Open(ms, k);
    assert seat.Recorded(ms, Record(seat.view, ms[k]));
  }

  // ---- The replica -----------------------------------------------------------------------------

  /** The replica works in the view of the seat, and the number is within its marks. */
  ghost predicate Sits(r: ReplicaState, seat: Seat) {
    && r.id == seat.id && r.view == seat.view && r.n == seat.n > 0
    && !r.inViewChange && r.log.low < seat.num <= r.log.high && LogOk(r.log)
  }

  /** What goes out for the number with one arrival: a prepare on opening, a commit on becoming prepared. */
  ghost predicate SpeaksExactly(o: Outcome, ms: seq<Message>, m: Message, seat: Seat)
    requires Votes(ms) && VoteKind(m)
  {
    && (forall x :: x in o.sent && x.Prepare? && x.num == seat.num
          <==> OpensNow(seat, ms, m) && x == Prepare(seat.id, m.view, m.num, m.digest))
    && (Commits(Elements(o.sent), seat.num) <==> seat.Prepared(ms + [m]) && !seat.Prepared(ms))
  }

  /** What is handed over for the number: the recorded request, at the moment of the commit. */
  ghost predicate DecidesExactly(o: Outcome, ms: seq<Message>, m: Message, seat: Seat)
    requires Votes(ms) && VoteKind(m)
  {
    && (Decides(o, seat.num) <==> seat.Committed(ms + [m]) && !seat.Committed(ms))
    && (Decides(o, seat.num) ==>
          var d, queue := o.decided.value, o.state.deliverCh;
          && seat.Recorded(ms + [m], d.vote) && d.vote.digest == OfRequest(d.ts)
          && queue != [] && queue[|queue| - 1] == Delivery(seat.num, d.ts))
  }

  predicate Decides(o: Outcome, num: nat) {
    o.decided.Some? && o.decided.value.vote.num == num
  }

  /** An arrival about another number touches nothing of this one. */
  lemma OtherNumber(r: ReplicaState, m: Message, seat: Seat)
    requires Sits(r, seat) && VoteKind(m) && m.num != seat.num
    ensures
      var o := Arrive(r, m);
      && o.state.log.At(seat.num) == r.log.At(seat.num)
      && (forall x :: x in o.sent ==> VoteKind(x) && x.num == m.num)
      && (o.decided.Some? ==> o.decided.value.vote.num == m.num)
  {
    var before := r.log.At(m.num);
    assert EntryOk(before, m.num);
    if m.PrePrepare? {
      OtherPrePrepare(r, m, seat);
    } else if m.Prepare? {
      var (e, ready) := before.TryPrepare(r.F(), m.from, VoteOf(m));
      assert r.log.WithinWaterMarks(m.num) ==> Arrive(r, m).state == r.WithEntry(m.num, e);
    } else {
      var (e, done) := before.TryCommit(r.F(), m.from, VoteOf(m));
      assert r.log.WithinWaterMarks(m.num) ==> Arrive(r, m) == r.Settle(m.num, e, done, []);
    }
  }

  lemma OtherPrePrepare(r: ReplicaState, m: Message, seat: Seat)
    requires Sits(r, seat) && m.PrePrepare? && m.num != seat.num
    ensures
      var o := Arrive(r, m);
      && o.state.log.At(seat.num) == r.log.At(seat.num)
      && (forall x :: x in o.sent ==> VoteKind(x) && x.num == m.num)
      && (o.decided.Some? ==> o.decided.value.vote.num == m.num)
  {
    assert EntryOk(r.log.At(m.num), m.num);
    EchoSettles(r, m, r.log.At(m.num).RecordPrePrepare(r.id, r.view, m.ts).0);
  }

  lemma StillSits(r: ReplicaState, m: Message, seat: Seat)
    requires Sits(r, seat) && VoteKind(m)
    ensures Sits(Arrive(r, m).state, seat)
  {
    HandleStep(r, Receive(m, true, []));
    if m.PrePrepare? {
      EchoSettles(r, m, r.log.At(m.num).RecordPrePrepare(r.id, r.view, m.ts).0);
    }
  }

  lemma SpeaksOfVote(o: Outcome, ms: seq<Message>, m: Message, seat: Seat, ready: bool)
    requires Votes(ms) && (m.Prepare? || m.Commit?) && m.num == seat.num
    requires o.sent == if ready then [Commit(seat.id, m.view, m.num, m.digest)] else []
    requires ready <==> seat.Prepared(ms + [m]) && !seat.Prepared(ms)
    ensures SpeaksExactly(o, ms, m, seat)
  {
    assert ready ==> o.sent[0] in Elements(o.sent);
  }

  lemma DecidesNothing(o: Outcome, ms: seq<Message>, m: Message, seat: Seat)
    requires Votes(ms) && VoteKind(m) && !Decides(o, seat.num)
    requires seat.Committed(ms + [m]) ==> seat.Committed(ms)
    ensures DecidesExactly(o, ms, m, seat)
  {
  }

  lemma DecidesEntry(o: Outcome, ms: seq<Message>, m: Message, seat: Seat, e: Entry)
    requires Votes(ms) && VoteKind(m) && Holds(e, ms + [m], seat) && e.prePrepare.Some?
    requires o.decided == Some(Decision(e.prePrepare.value, e.ts))
    requires o.state.deliverCh != [] && o.state.deliverCh[|o.state.deliverCh| - 1] == Delivery(seat.num, e.ts)
    requires seat.Committed(ms + [m]) && !seat.Committed(ms)
    ensures DecidesExactly(o, ms, m, seat)
  {
    RecordedNum(seat, ms + [m], e.prePrepare.value);
  }

  /** All of it for one arrival. */
  ghost predicate ArrivesExactly(r: ReplicaState, ms: seq<Message>, m: Message, seat: Seat)
    requires Votes(ms) && VoteKind(m) && r.n > 0
  {
    var o := Arrive(r, m);
    && Holds(o.state.log.At(seat.num), ms + [m], seat)
    && SpeaksExactly(o, ms, m, seat) && DecidesExactly(o, ms, m, seat)
  }

  lemma PrepareArrives(r: ReplicaState, ms: seq<Message>, m: Message, seat: Seat)
    requires Votes(ms) && m.Prepare? && m.num == seat.num && Sits(r, seat) && Holds(r.log.At(seat.num), ms, seat)
    ensures ArrivesExactly(r, ms, m, seat)
  {
    var e := r.log.At(seat.num);
    var (e', ready) := e.TryPrepare(seat.F(), m.from, VoteOf(m));
    NewPrepareKeeps(e, ms, m, seat);
    PrepareKeepsFlags(seat, ms, m);
    var o := Outcome(r.WithEntry(m.num, e'), if ready then [Commit(r.id, m.view, m.num, m.digest)] else [], None);
    assert Arrive(r, m) == o;
    SpeaksOfVote(o, ms, m, seat, ready);
    DecidesNothing(o, ms, m, seat);
  }

  lemma CommitArrives(r: ReplicaState, ms: seq<Message>, m: Message, seat: Seat)
    requires Votes(ms) && m.Commit? && m.num == seat.num && Sits(r, seat) && Holds(r.log.At(seat.num), ms, seat)
    ensures ArrivesExactly(r, ms, m, seat)
  {
    var e := r.log.At(seat.num);
    var (e', done) := e.TryCommit(seat.F(), m.from, VoteOf(m));
    NewCommitKeeps(e, ms, m, seat);
    CommitKeepsFlags(seat, ms, m);
    assert EntryOk(e, m.num);
    var o := r.Settle(m.num, e', done, []);
    assert Arrive(r, m) == o;
    SpeaksOfVote(o, ms, m, seat, false);
    if done {
      DecidesEntry(o, ms, m, seat, e');
    } else {
      DecidesNothing(o, ms, m, seat);
    }
  }

  /** The first pre-prepare of the primary, with everything that came before it. */
  lemma OpeningArrives(r: ReplicaState, ms: seq<Message>, m: Message, seat: Seat)
    requires Votes(ms) && m.PrePrepare? && OpensNow(seat, ms, m)
    requires Sits(r, seat) && Holds(r.log.At(seat.num), ms, seat)
    ensures ArrivesExactly(r, ms, m, seat)
  {
    var e := r.log.At(seat.num);
    var e2, e3, ready, done := OpenedOutcome(r, ms, m, seat);
    OpeningFlags(seat, ms, m);
    OpeningKeeps(e, ms, m, seat);
    SpeaksOfOpening(Arrive(r, m), ms, m, seat, ready);
    if ready && done {
      DecidesEntry(Arrive(r, m), ms, m, seat, e3);
    } else {
      DecidesNothing(Arrive(r, m), ms, m, seat);
    }
  }

  lemma OpenedOutcome(r: ReplicaState, ms: seq<Message>, m: Message, seat: Seat)
    returns (e2: Entry, e3: Entry, ready: bool, done: bool)
    requires Votes(ms) && m.PrePrepare? && OpensNow(seat, ms, m)
    requires Sits(r, seat) && Holds(r.log.At(seat.num), ms, seat)
    ensures (e2, ready) == r.log.At(seat.num).RecordPrePrepare(seat.id, seat.view, m.ts).0.CheckPrepared(seat.F())
    ensures (e3, done) == e2.CheckCommitted(seat.F())
    ensures
      var prepare, commit := Prepare(r.id, m.view, m.num, m.digest), Commit(r.id, m.view, m.num, m.digest);
      Arrive(r, m)
      == if ready then r.Settle(m.num, e3, done, [prepare, commit]) else r.Settle(m.num, e2, false, [prepare])
  {
    var e := r.log.At(seat.num);
    OpenedEntry(e, ms, m, seat);
    var e1 := e.RecordPrePrepare(seat.id, seat.view, m.ts).0;
    var checked, completed := e1.CheckPrepared(seat.F()), e1.CheckPrepared(seat.F()).0.CheckCommitted(seat.F());
    e2, ready, e3, done := checked.0, checked.1, completed.0, completed.1;
    EchoedOutcome(r, m, seat, e1);
  }

  lemma EchoedOutcome(r: ReplicaState, m: Message, seat: Seat, e1: Entry)
    requires Sits(r, seat) && m.PrePrepare? && m.num == seat.num && m.from == seat.view % seat.n + 1
    requires !r.log.At(seat.num).sentPrepare
    requires e1 == r.log.At(seat.num).RecordPrePrepare(seat.id, seat.view, m.ts).0
    ensures
      var prepare, commit := Prepare(r.id, m.view, m.num, m.digest), Commit(r.id, m.view, m.num, m.digest);
      var (e2, ready) := e1.CheckPrepared(seat.F());
      var (e3, done) := e2.CheckCommitted(seat.F());
      Arrive(r, m)
      == if ready then r.Settle(m.num, e3, done, [prepare, commit]) else r.Settle(m.num, e2, false, [prepare])
  {
    EchoSettles(r, m, e1);
    PrePrepareIsEchoed(r, m, seat);
  }

  lemma PrePrepareIsEchoed(r: ReplicaState, m: Message, seat: Seat)
    requires Sits(r, seat) && m.PrePrepare? && m.num == seat.num && m.from == seat.view % seat.n + 1
    requires !r.log.At(seat.num).sentPrepare
    ensures Arrive(r, m)
         == r.WithEntry(m.num, r.log.At(m.num).RecordPrePrepare(seat.id, seat.view, m.ts).0).Echo(m)
  {
  }

  lemma SpeaksOfOpening(o: Outcome, ms: seq<Message>, m: Message, seat: Seat, ready: bool)
    requires Votes(ms) && m.PrePrepare? && OpensNow(seat, ms, m) && !seat.Prepared(ms)
    requires
      var prepare, commit := Prepare(seat.id, m.view, m.num, m.digest), Commit(seat.id, m.view, m.num, m.digest);
      o.sent == if ready then [prepare, commit] else [prepare]
    requires ready <==> seat.Prepared(ms + [m])
    ensures SpeaksExactly(o, ms, m, seat)
  {
    assert o.sent[0] in o.sent && (ready ==> o.sent[1] in Elements(o.sent));
  }

  /** What cannot count changes nothing. */
  lemma IdleArrives(r: ReplicaState, ms: seq<Message>, m: Message, seat: Seat)
    requires Votes(ms) && VoteKind(m) && Idle(seat, ms, m)
    requires Sits(r, seat) && Holds(r.log.At(seat.num), ms, seat)
    requires
      var o := Arrive(r, m);
      && o.state.log.At(seat.num) == r.log.At(seat.num) && !Decides(o, seat.num)
      && forall x :: x in o.sent && (x.Prepare? || x.Commit?) ==> x.num != seat.num
    ensures ArrivesExactly(r, ms, m, seat)
  {
    IdleKeepsFlags(seat, ms, m);
    IdleKeeps(r.log.At(seat.num), ms, m, seat);
    DecidesNothing(Arrive(r, m), ms, m, seat);
  }

  /** Every arrival, of whatever kind, number and sender. */
  lemma EveryArrival(r: ReplicaState, ms: seq<Message>, m: Message, seat: Seat)
    requires Votes(ms) && VoteKind(m) && Sits(r, seat) && Holds(r.log.At(seat.num), ms, seat)
    ensures ArrivesExactly(r, ms, m, seat)
  {
    if m.num != seat.num {
      OtherNumber(r, m, seat);
      IdleArrives(r, ms, m, seat);
    } else if m.Prepare? {
      PrepareArrives(r, ms, m, seat);
    } else if m.Commit? {
      CommitArrives(r, ms, m, seat);
    } else if OpensNow(seat, ms, m) {
      OpeningArrives(r, ms, m, seat);
    } else {
      if m.from == seat.view % seat.n + 1 {
        LatePrePrepare(r.log.At(seat.num), ms, m, seat);
      }
      IgnoredPrePrepare(r, m, seat);
      IdleArrives(r, ms, m, seat);
    }
  }

  lemma IgnoredPrePrepare(r: ReplicaState, m: Message, seat: Seat)
    requires Sits(r, seat) && m.PrePrepare? && m.num == seat.num
    requires m.from != seat.view % seat.n + 1 || r.log.At(seat.num).sentPrepare
    ensures
      var o := Arrive(r, m);
      o.state.log.At(seat.num) == r.log.At(seat.num) && o.decided.None? && o.sent == []
  {
  }

  // ---- Any list of arrivals --------------------------------------------------------------------

  /** An entry nobody has touched. */
  lemma NothingHeld(seat: Seat)
    ensures Holds(FreshEntry(seat.num), [], seat)
  {
  }

  /** Messages for the number that one replica sends and decisions it takes on some more arrivals. */
  ghost predicate ResultExactly(o: Result, before: seq<Message>, after: seq<Message>, seat: Seat)
    requires Votes(before) && Votes(after)
  {
    && (Commits(o.sent, seat.num) <==> seat.Prepared(after) && !seat.Prepared(before))
    && (Takes(o.decided, seat.num) <==> seat.Committed(after) && !seat.Committed(before))
    && (forall d :: d in o.decided && d.vote.num == seat.num ==>
          seat.Recorded(after, d.vote) && d.vote.digest == OfRequest(d.ts))
  }

  lemma StaysCommitted(seat: Seat, ms: seq<Message>, m: Message)
    requires Votes(ms) && VoteKind(m) && seat.Committed(ms)
    ensures seat.Committed(ms + [m])
  {
    CommittedGrows(seat, ms, m);
  }

  ghost predicate Commits(sent: set<Message>, num: nat) {
    exists x :: x in sent && x.Commit? && x.num == num
  }

  ghost predicate Takes(decided: set<Decision>, num: nat) {
    exists d :: d in decided && d.vote.num == num
  }

  lemma SentJoins(sent: seq<Message>, rest: set<Message>, num: nat)
    ensures Commits(Elements(sent) + rest, num) <==> Commits(Elements(sent), num) || Commits(rest, num)
  {
    if Commits(Elements(sent), num) {
      var x :| x in Elements(sent) && x.Commit? && x.num == num;
      assert x in Elements(sent) + rest;
    }
    if Commits(rest, num) {
      var x :| x in rest && x.Commit? && x.num == num;
      assert x in Elements(sent) + rest;
    }
  }

  ghost function Taken(o: Outcome): set<Decision> {
    if o.decided.Some? then {o.decided.value} else {}
  }

  lemma DecidedJoins(o: Outcome, rest: set<Decision>, num: nat)
    ensures Takes(Taken(o) + rest, num) <==> Decides(o, num) || Takes(rest, num)
  {
    if Decides(o, num) {
      assert o.decided.value in Taken(o) + rest;
    }
    if Takes(rest, num) {
      var d :| d in rest && d.vote.num == num;
      assert d in Taken(o) + rest;
    }
  }

  /** One arrival and then the others. */
  lemma ResultsJoin(o: Outcome, rest: Result, before: seq<Message>, m: Message, after: seq<Message>, seat: Seat)
    requires Votes(before) && VoteKind(m) && Votes(after)
    requires SpeaksExactly(o, before, m, seat) && DecidesExactly(o, before, m, seat)
    requires ResultExactly(rest, before + [m], after, seat)
    requires seat.Prepared(before + [m]) ==> seat.Prepared(after)
    requires seat.Committed(before + [m]) ==> seat.Committed(after)
    requires forall v :: seat.Recorded(before + [m], v) ==> seat.Recorded(after, v)
    ensures
      var joined := Result(rest.state, Elements(o.sent) + rest.sent, Taken(o) + rest.decided);
      ResultExactly(joined, before, after, seat)
  {
    if seat.Prepared(before) {
      StaysPrepared(seat, before, m);
    }
    if seat.Committed(before) {
      StaysCommitted(seat, before, m);
    }
    SentJoins(o.sent, rest.sent, seat.num);
    DecidedJoins(o, rest.decided, seat.num);
  }

  lemma {:induction false} StaysTrue(seat: Seat, ms: seq<Message>, more: seq<Message>)
    requires Votes(ms) && Votes(more)
    ensures Votes(ms + more)
    ensures seat.Prepared(ms) ==> seat.Prepared(ms + more)
    ensures seat.Committed(ms) ==> seat.Committed(ms + more)
    ensures forall v :: seat.Recorded(ms, v) ==> seat.Recorded(ms + more, v)
    decreases |more|
  {
    if more == [] {
      assert ms + more == ms;
    } else {
      var m := more[0];
      assert (ms + [m]) + more[1..] == ms + more;
      StaysTrue(seat, ms + [m], more[1..]);
      forall v
        ensures seat.Recorded(ms, v) ==> seat.Recorded(ms + [m], v)
      {
        RecordedGrows(seat, ms, m, v);
      }
      if seat.Prepared(ms) {
        StaysPrepared(seat, ms, m);
      }
      if seat.Committed(ms) {
        StaysCommitted(seat, ms, m);
      }
    }
  }

  lemma {:induction false} MoreArrivals(r: ReplicaState, before: seq<Message>, ms: seq<Message>, seat: Seat)
    requires Votes(before) && Votes(ms) && Sits(r, seat) && Holds(r.log.At(seat.num), before, seat)
    ensures Votes(before + ms)
    ensures
      var o := ArriveAll(r, ms);
      && Sits(o.state, seat) && Holds(o.state.log.At(seat.num), before + ms, seat)
      && ResultExactly(o, before, before + ms, seat)
    decreases |ms|
  {
    if ms == [] {
      assert before + ms == before;
    } else {
      var m := ms[0];
      var o := Arrive(r, m);
      EveryArrival(r, before, m, seat);
      StillSits(r, m, seat);
      assert (before + [m]) + ms[1..] == before + ms;
      MoreArrivals(o.state, before + [m], ms[1..], seat);
      StaysTrue(seat, before + [m], ms[1..]);
      ResultsJoin(o, ArriveAll(o.state, ms[1..]), before, m, before + ms, seat);
    }
  }

  /**
   * Any list of votes, of any senders, for any numbers, in any order, at a replica that works in its view: a number
   * without a record is afterwards prepared, and a commit has gone out for it, if and only if its pre-prepare and 2f
   * matching prepares are among them, the own one included; it is committed and handed over if and only if besides, at
   * the moment of some commit that counts or of the pre-prepare, it was prepared and 2f+1 commits matched.
   */
  lemma ArrivalsAreExact(r: ReplicaState, ms: seq<Message>, seat: Seat)
    requires Votes(ms) && Sits(r, seat) && seat.num !in r.log.entries
    ensures
      var o := ArriveAll(r, ms);
      var e := o.state.log.At(seat.num);
      && (forall v :: e.prePrepare == Some(v) <==> seat.Recorded(ms, v))
      && (e.prepared <==> seat.Prepared(ms))
      && (Commits(o.sent, seat.num) <==> seat.Prepared(ms))
      && (e.committed <==> seat.Committed(ms)) && e.executed == e.committed
      && (Takes(o.decided, seat.num) <==> seat.Committed(ms))
      && (forall d :: d in o.decided && d.vote.num == seat.num ==>
            seat.Recorded(ms, d.vote) && d.vote.digest == OfRequest(d.ts))
  {
    NothingHeld(seat);
    NothingYet(seat, []);
    assert [] + ms == ms;
    MoreArrivals(r, [], ms, seat);
  }

  // ---- A prepare that comes last ---------------------------------------------------------------

  lemma PrefixStays(seat: Seat, ms: seq<Message>, j: nat, k: nat)
    requires Votes(ms) && j <= k <= |ms|
    ensures seat.Prepared(ms[..j]) ==> seat.Prepared(ms[..k])
    ensures forall v :: seat.Recorded(ms[..j], v) ==> seat.Recorded(ms[..k], v)
  {
    assert ms[..j] + ms[j..k] == ms[..k];
    StaysTrue(seat, ms[..j], ms[j..k]);
  }

  lemma PrefixFirst(ms: seq<Message>, k: nat, i: nat)
    requires Votes(ms) && i < k <= |ms|
    ensures First(ms[..k], i) <==> First(ms, i)
  {
    assert forall j :: 0 <= j <= i ==> ms[..k][j] == ms[j];
  }

  /** Commits that matter all arrived by the last look. */
  lemma CommittersByThen(seat: Seat, ms: seq<Message>, v: Vote, k: nat)
    requires Votes(ms) && v.num == seat.num && k < |ms| && forall j: nat :: k < j < |ms| ==> !seat.Looks(ms, j)
    ensures Committers(ms[..k + 1], v) == Committers(ms, v)
  {
    var soFar := ms[..k + 1];
    forall i | i in Committers(ms, v)
      ensures i in Committers(soFar, v)
    {
      var j :| 0 <= j < |ms| && CommittedBy(ms, j, v) && ms[j].from == i;
      assert seat.Looks(ms, j);
      PrefixFirst(ms, k + 1, j);
      assert CommittedBy(soFar, j, v) && soFar[j] == ms[j];
    }
    forall i | i in Committers(soFar, v)
      ensures i in Committers(ms, v)
    {
      var j :| 0 <= j < |soFar| && CommittedBy(soFar, j, v) && soFar[j].from == i;
      PrefixFirst(ms, k + 1, j);
      assert CommittedBy(ms, j, v) && soFar[j] == ms[j];
    }
  }

  /**
   * Once 2f+1 commits matching the record have arrived, whether the replica committed depends on one moment only: it
   * did if and only if it was prepared when it last looked, at the last commit that counts or at the pre-prepare.
   */
  lemma CommittedExactly(seat: Seat, ms: seq<Message>, v: Vote, k: nat)
    requires Votes(ms) && seat.Recorded(ms, v) && |Committers(ms, v)| >= 2 * seat.F() + 1
    requires k < |ms| && seat.Looks(ms, k) && forall j: nat :: k < j < |ms| ==> !seat.Looks(ms, j)
    ensures seat.Committed(ms) <==> seat.Prepared(ms[..k + 1])
  {
    if seat.Committed(ms) {
      CommittedWasPrepared(seat, ms, k);
    }
    if seat.Prepared(ms[..k + 1]) {
      PreparedCommits(seat, ms, v, k);
    }
  }

  lemma CommittedWasPrepared(seat: Seat, ms: seq<Message>, k: nat)
    requires Votes(ms) && seat.Committed(ms)
    requires k < |ms| && forall j: nat :: k < j < |ms| ==> !seat.Looks(ms, j)
    ensures seat.Prepared(ms[..k + 1])
  {
    var j: nat :| seat.Completes(ms, j);
    PrefixStays(seat, ms, j + 1, k + 1);
  }

  lemma PreparedCommits(seat: Seat, ms: seq<Message>, v: Vote, k: nat)
    requires Votes(ms) && seat.Recorded(ms, v) && |Committers(ms, v)| >= 2 * seat.F() + 1
    requires k < |ms| && seat.Looks(ms, k) && forall j: nat :: k < j < |ms| ==> !seat.Looks(ms, j)
    requires seat.Prepared(ms[..k + 1])
    ensures seat.Committed(ms)
  {
    var soFar := ms[..k + 1];
    var w :| seat.Recorded(soFar, w) && |Preparers(soFar, w, seat.id)| >= 2 * seat.F();
    PrefixStays(seat, ms, k + 1, |ms|);
    assert ms[..|ms|] == ms;
    RecordedOnce(seat, ms, v, w);
    RecordedNum(seat, ms, v);
    CommittersByThen(seat, ms, v, k);
    assert seat.Completes(ms, k);
  }

  /** Replica 4 of a cluster of four hears all commits before the one prepare it still needs. */
  ghost function CommitsFirst(t: int): seq<Message> {
    var d := OfRequest(t);
    [PrePrepare(1, 0, 1, t, d), Commit(1, 0, 1, d), Commit(2, 0, 1, d), Commit(3, 0, 1, d), Prepare(2, 0, 1, d)]
  }

  lemma CommitsFirstCounts(t: int)
    ensures
      var seat, ms, v := Seat(4, 0, 4, 1), CommitsFirst(t), Vote(0, 1, OfRequest(t));
      && Votes(ms) && seat.Recorded(ms, v)
      && Preparers(ms, v, 4) >= {2, 4} && Committers(ms, v) >= {1, 2, 3}
  {
    var seat, ms, v := Seat(4, 0, 4, 1), CommitsFirst(t), Vote(0, 1, OfRequest(t));
    assert seat.Open(ms, 0);
    assert PreparedBy(ms, 4, v);
    assert CommittedBy(ms, 1, v) && CommittedBy(ms, 2, v) && CommittedBy(ms, 3, v);
  }

  lemma NobodyPrepared(seat: Seat, ms: seq<Message>)
    requires Votes(ms) && seat.F() >= 1 && forall k :: 0 <= k < |ms| ==> !ms[k].Prepare?
    ensures !seat.Prepared(ms)
  {
    forall v
      ensures |Preparers(ms, v, seat.id)| <= 1
    {
      assert Preparers(ms, v, seat.id) == {seat.id};
    }
  }

  /**
   * Everything a commit takes has arrived, and the replica does not commit: a prepare that completes the entry does not
   * make it look at the commits again.
   */
  lemma PrepareComesLast(t: int)
    ensures
      var seat, ms := Seat(4, 0, 4, 1), CommitsFirst(t);
      && Votes(ms) && seat.Prepared(ms) && |Committers(ms, Vote(0, 1, OfRequest(t)))| >= 2 * seat.F() + 1
      && !seat.Committed(ms)
  {
    var seat, ms, v := Seat(4, 0, 4, 1), CommitsFirst(t), Vote(0, 1, OfRequest(t));
    EnoughOfBoth(t);
    LastLook(t);
    TooLate(seat, ms, v, 3);
  }

  lemma TooLate(seat: Seat, ms: seq<Message>, v: Vote, k: nat)
    requires Votes(ms) && seat.Recorded(ms, v) && seat.F() >= 1
    requires |Preparers(ms, v, seat.id)| >= 2 * seat.F() && |Committers(ms, v)| >= 2 * seat.F() + 1
    requires k < |ms| && seat.Looks(ms, k) && forall j: nat :: k < j < |ms| ==> !seat.Looks(ms, j)
    requires forall j :: 0 <= j <= k ==> !ms[j].Prepare?
    ensures seat.Prepared(ms) && !seat.Committed(ms)
  {
    PreparedCounts(seat, ms, v);
    CommittedExactly(seat, ms, v, k);
    NobodyPrepared(seat, ms[..k + 1]);
  }

  lemma EnoughOfBoth(t: int)
    ensures
      var seat, ms, v := Seat(4, 0, 4, 1), CommitsFirst(t), Vote(0, 1, OfRequest(t));
      Votes(ms) && seat.Recorded(ms, v) && |Preparers(ms, v, 4)| >= 2 && |Committers(ms, v)| >= 3
  {
    var ms, v := CommitsFirst(t), Vote(0, 1, OfRequest(t));
    CommitsFirstCounts(t);
    SubsetSize({2, 4}, Preparers(ms, v, 4));
    SubsetSize({1, 2, 3}, Committers(ms, v));
  }

  lemma LastLook(t: int)
    ensures
      var seat, ms := Seat(4, 0, 4, 1), CommitsFirst(t);
      Votes(ms) && seat.Looks(ms, 3) && forall j: nat :: 3 < j < |ms| ==> !seat.Looks(ms, j)
  {
    var ms := CommitsFirst(t);
    assert First(ms, 3) && ms[4].Prepare?;
  }
}
