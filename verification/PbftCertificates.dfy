/** What a replica may claim in a view-change, and the numbers a primary hands out. */
module PbftCertificates {
  import opened Options
  import opened PbftMessages
  import opened PbftEntry
  import opened PbftLog
  import opened PbftReplica
  import opened PbftAgreement
  import opened PbftRuns
  import opened PbftArrivals

  // ---- Certificates ----------------------------------------------------------------------------

  /** Only numbers within the marks get a record, and votes do not move the marks. */
  ghost predicate TouchesWindow(l: Log, l': Log) {
    && l'.low == l.low && l'.high == l.high && l'.lastStable == l.lastStable
    && forall s :: s in l'.entries ==> s in l.entries || l.low < s <= l.high
  }

  lemma PutTouchesWindow(r: ReplicaState, num: nat, e: Entry, done: bool, sent: seq<Message>)
    requires (done ==> e.prePrepare.Some?) && r.log.low < num <= r.log.high
    ensures TouchesWindow(r.log, r.Settle(num, e, done, sent).state.log)
  {
  }

  lemma EchoTouchesWindow(r: ReplicaState, m: Message, e: Entry)
    requires r.n > 0 && m.PrePrepare? && r.log.low < m.num <= r.log.high && EntryOk(e, m.num)
    ensures TouchesWindow(r.log, r.WithEntry(m.num, e).Echo(m).state.log)
  {
    EchoSettles(r, m, e);
    var prepare, commit := Prepare(r.id, m.view, m.num, m.digest), Commit(r.id, m.view, m.num, m.digest);
    var (e1, ready) := e.CheckPrepared(r.F());
    var (e2, done) := e1.CheckCommitted(r.F());
    if ready {
      PutTouchesWindow(r, m.num, e2, done, [prepare, commit]);
    } else {
      PutTouchesWindow(r, m.num, e1, false, [prepare]);
    }
  }

  lemma PrePrepareTouchesWindow(r: ReplicaState, m: Message)
    requires r.n > 0 && m.PrePrepare? && EntryOk(r.log.At(m.num), m.num)
    ensures TouchesWindow(r.log, r.OnPrePrepare(m, true).state.log)
  {
    if r.log.WithinWaterMarks(m.num) {
      EchoTouchesWindow(r, m, r.log.At(m.num).RecordPrePrepare(r.id, r.view, m.ts).0);
    }
  }

  lemma ArriveTouchesWindow(r: ReplicaState, m: Message)
    requires r.n > 0 && VoteKind(m) && LogOk(r.log)
    ensures TouchesWindow(r.log, Arrive(r, m).state.log)
  {
    assert EntryOk(r.log.At(m.num), m.num);
    if m.PrePrepare? {
      PrePrepareTouchesWindow(r, m);
    }
  }

  /** A replica that works in its view and has recorded nothing since its last stable checkpoint. */
  ghost predicate Blank(r: ReplicaState) {
    && r.n > 0 && !r.inViewChange && r.log.entries == map[]
    && r.log.low == r.log.lastStable < r.log.high
  }

  lemma {:induction false} WindowStays(r: ReplicaState, ms: seq<Message>, seat: Seat)
    requires Votes(ms) && Sits(r, seat)
    ensures TouchesWindow(r.log, ArriveAll(r, ms).state.log)
    decreases |ms|
  {
    if ms != [] {
      ArriveTouchesWindow(r, ms[0]);
      StillSits(r, ms[0], seat);
      WindowStays(Arrive(r, ms[0]).state, ms[1..], seat);
    }
  }

  /** What the votes say about one number, where there are any within the marks. */
  ghost predicate Earned(r: ReplicaState, ms: seq<Message>, v: Vote)
    requires Votes(ms)
  {
    var seat := Seat(r.id, r.view, r.n, v.num);
    r.log.low < v.num <= r.log.high && seat.Recorded(ms, v) && seat.Prepared(ms)
  }

  lemma NumberIsPrepared(r: ReplicaState, ms: seq<Message>, num: nat)
    requires Votes(ms) && Blank(r) && r.log.low < num <= r.log.high
    ensures
      var seat, l := Seat(r.id, r.view, r.n, num), ArriveAll(r, ms).state.log;
      && TouchesWindow(r.log, l)
      && (l.At(num).prepared <==> seat.Prepared(ms))
      && forall v :: l.At(num).prePrepare == Some(v) <==> seat.Recorded(ms, v)
  {
    var seat := Seat(r.id, r.view, r.n, num);
    ArrivalsAreExact(r, ms, seat);
    WindowStays(r, ms, seat);
  }

  lemma CertificateIsEarned(r: ReplicaState, ms: seq<Message>, s: nat, v: Vote)
    requires Votes(ms) && Blank(r)
    requires var l := ArriveAll(r, ms).state.log; s in l.PreparedEntries(l.lastStable) && l.At(s).prePrepare == Some(v)
    ensures Earned(r, ms, v) && v.num == s
  {
    NumberIsPrepared(r, ms, r.log.high);
    NumberIsPrepared(r, ms, s);
    RecordedNum(Seat(r.id, r.view, r.n, s), ms, v);
  }

  lemma EarnedIsCertified(r: ReplicaState, ms: seq<Message>, v: Vote)
    requires Votes(ms) && Blank(r) && Earned(r, ms, v)
    ensures var l := ArriveAll(r, ms).state.log;
            v.num in l.PreparedEntries(l.lastStable) && l.At(v.num).prePrepare == Some(v)
  {
    NumberIsPrepared(r, ms, v.num);
  }

  /**
   * After any votes in any order, whatever prompts a view-change: it names the last stable number, and certifies
   * exactly the pre-prepares within the marks for which the votes hold 2f matching prepares, the own one included.
   */
  lemma CertificatesAreEarned(r: ReplicaState, ms: seq<Message>, certs: seq<Vote>, v: Vote)
    requires Votes(ms) && Blank(r)
    requires ArriveAll(r, ms).state.PreparedCertificates(certs)
    ensures v in certs <==> Earned(r, ms, v)
    ensures ArriveAll(r, ms).state.log.lastStable == r.log.lastStable
  {
    var l := ArriveAll(r, ms).state.log;
    NumberIsPrepared(r, ms, r.log.high);
    if v in certs {
      var s :| s in l.PreparedEntries(l.lastStable) && l.entries[s].prePrepare == Some(v);
      CertificateIsEarned(r, ms, s, v);
    }
    if Earned(r, ms, v) {
      EarnedIsCertified(r, ms, v);
    }
  }

  // ---- Numbers ---------------------------------------------------------------------------------

  function ProposeAll(r: ReplicaState, requests: seq<int>): Outcome {
    if requests == [] then Outcome(r, [], None)
    else
      var before := ProposeAll(r, requests[..|requests| - 1]);
      var o := before.state.Propose(requests[|requests| - 1]);
      o.(sent := before.sent + o.sent)
  }

  /** The record of a number that was proposed. */
  ghost predicate ProposedAt(r: ReplicaState, l: Log, k: nat, ts: int) {
    var num := r.counter + 1 + k;
    && num in l.entries && l.entries[num].prePrepare == Some(Vote(r.view, num, OfRequest(ts)))
    && l.entries[num].ts == ts && r.id in l.entries[num].prepares
  }

  lemma ProposesNext(r: ReplicaState, ts: int)
    requires !r.log.At(r.counter + 1).sentPrepare
    ensures
      var o, num := r.Propose(ts), r.counter + 1;
      && o.sent == [PrePrepare(r.id, r.view, num, ts, OfRequest(ts))] && o.decided.None?
      && o.state == r.(counter := num, log := o.state.log)
      && (forall s :: s != num ==> o.state.log.At(s) == r.log.At(s))
      && num in o.state.log.entries && o.state.log.entries[num].ts == ts
      && o.state.log.entries[num].prePrepare == Some(Vote(r.view, o.state.log.entries[num].num, OfRequest(ts)))
      && r.id in o.state.log.entries[num].prepares
  {
  }

  /** Consecutive numbers from the next one on, each sent and recorded, and nothing else touched. */
  ghost predicate InSequence(r: ReplicaState, requests: seq<int>, o: Outcome) {
    && o.state == r.(counter := r.counter + |requests|, log := o.state.log) && o.decided.None?
    && |o.sent| == |requests|
    && (forall k :: 0 <= k < |requests| ==>
          o.sent[k] == PrePrepare(r.id, r.view, r.counter + 1 + k, requests[k], OfRequest(requests[k])))
    && (forall k: nat :: k < |requests| ==> ProposedAt(r, o.state.log, k, requests[k]))
    && (forall num :: num > o.state.counter ==> num !in o.state.log.entries)
    && forall num: nat :: num <= r.counter ==> o.state.log.At(num) == r.log.At(num)
  }

  /**
   * A primary hands out consecutive numbers, without a gap that would stop delivery: request k is sent once, under its
   * own digest and the number k after the next one, and recorded so with the own prepare.
   */
  lemma {:induction false} ProposesInSequence(r: ReplicaState, requests: seq<int>)
    requires forall num :: num > r.counter ==> num !in r.log.entries
    ensures InSequence(r, requests, ProposeAll(r, requests))
  {
    if requests != [] {
      var before, last := requests[..|requests| - 1], requests[|requests| - 1];
      ProposesInSequence(r, before);
      ProposesOneMore(r, ProposeAll(r, before), before, last);
      assert requests == before + [last];
    }
  }

  lemma ProposesOneMore(r: ReplicaState, b: Outcome, before: seq<int>, last: int)
    requires InSequence(r, before, b)
    ensures
      var o := b.state.Propose(last);
      InSequence(r, before + [last], o.(sent := b.sent + o.sent))
  {
    ProposesNext(b.state, last);
  }
}
