/** Numbers that a BFT-SMaRt leader hands out, and the window in which instances are handled. */
module BftSmartProgress {
  import opened Options
  import opened BftSmartEntry
  import opened BftSmartReplica
  import opened BftSmartArrivals

  // ---- Numbers ---------------------------------------------------------------------------------

  /** What moves the counter: a batch is proposed, or an instance is executed. */
  datatype Turn = Proposes(batch: seq<int>) | Executes(cid: nat)

  function Take(r: ReplicaState, t: Turn): Outcome {
    match t
    case Proposes(batch) => r.ProposeBatch(batch)
    case Executes(cid) => Outcome(r.Executed(cid), [], None)
  }

  function TakeAll(r: ReplicaState, ts: seq<Turn>): ReplicaState {
    if ts == [] then r else Take(TakeAll(r, ts[..|ts| - 1]), ts[|ts| - 1]).state
  }

  /** The number that turn k proposes or executes. */
  function NumberOf(r: ReplicaState, ts: seq<Turn>, k: nat): nat
    requires k < |ts|
  {
    match ts[k]
    case Executes(cid) => cid
    case Proposes(batch) => Take(TakeAll(r, ts[..k]), ts[k]).sent[0].cid
  }

  /** Nothing before turn k had a larger number. */
  ghost predicate AtLeastAll(r: ReplicaState, ts: seq<Turn>, k: nat, top: nat)
    requires k <= |ts|
  {
    r.counter <= top && forall j :: 0 <= j < k ==> NumberOf(r, ts, j) <= top
  }

  /** The largest number so far: the one at the start, or that of some turn. */
  ghost predicate IsLargest(r: ReplicaState, ts: seq<Turn>, k: nat, top: nat)
    requires k <= |ts|
  {
    AtLeastAll(r, ts, k, top) && (top == r.counter || exists j :: 0 <= j < k && NumberOf(r, ts, j) == top)
  }

  lemma {:induction false} CounterIsLargest(r: ReplicaState, ts: seq<Turn>, k: nat)
    requires k <= |ts|
    ensures IsLargest(r, ts, k, TakeAll(r, ts[..k]).counter)
  {
    if k == 0 {
      assert ts[..k] == [];
    } else {
      CounterIsLargest(r, ts, k - 1);
      assert ts[..k][..k - 1] == ts[..k - 1];
      assert TakeAll(r, ts[..k]) == Take(TakeAll(r, ts[..k - 1]), ts[k - 1]).state;
      LargestGrows(r, ts, k, TakeAll(r, ts[..k - 1]).counter, TakeAll(r, ts[..k]).counter);
    }
  }

  lemma LargestGrows(r: ReplicaState, ts: seq<Turn>, k: nat, top: nat, top': nat)
    requires 0 < k <= |ts| && IsLargest(r, ts, k - 1, top)
    requires top' == if NumberOf(r, ts, k - 1) > top then NumberOf(r, ts, k - 1) else top
    ensures IsLargest(r, ts, k, top')
  {
  }

  /**
   * Whatever a leader proposes and executes, in any order: a batch gets the number after the largest one that was
   * proposed or executed so far, and is sent under it once, with its own digest and in the leader's own name and view.
   */
  lemma NumbersAreExact(r: ReplicaState, ts: seq<Turn>, k: nat)
    requires k < |ts| && ts[k].Proposes?
    ensures
      var now, batch := TakeAll(r, ts[..k]), ts[k].batch;
      && NumberOf(r, ts, k) > 0 && IsLargest(r, ts, k, NumberOf(r, ts, k) - 1)
      && Take(now, ts[k]).sent == [Propose(r.id, NumberOf(r, ts, k), r.view, batch, OfBatch(batch))]
  {
    CounterIsLargest(r, ts, k);
    SameReplica(r, ts[..k]);
  }

  lemma {:induction false} SameReplica(r: ReplicaState, ts: seq<Turn>)
    ensures TakeAll(r, ts) == r.(counter := TakeAll(r, ts).counter)
  {
    if ts != [] {
      SameReplica(r, ts[..|ts| - 1]);
    }
  }

  // ---- The window ------------------------------------------------------------------------------

  function StabilizeAll(r: ReplicaState, cids: seq<nat>): ReplicaState {
    if cids == [] then r else StabilizeAll(r, cids[..|cids| - 1]).Stabilize(cids[|cids| - 1])
  }

  ghost predicate IsMaximum(first: nat, xs: seq<nat>, top: nat) {
    && first <= top && (forall k :: 0 <= k < |xs| ==> xs[k] <= top)
    && (top == first || exists k :: 0 <= k < |xs| && xs[k] == top)
  }

  /** An entry is gone if and only if its instance was executed and some stable checkpoint covers it. */
  ghost predicate KeptExactly(r: ReplicaState, r': ReplicaState, top: nat) {
    && (forall c :: c in r'.entries <==> c in r.entries && (c <= top && top > r.lastStable ==> !r.entries[c].executed))
    && (forall c :: c in r'.entries ==> r'.entries[c] == r.entries[c])
  }

  lemma StabilizesExactly(r: ReplicaState, r1: ReplicaState, cid: nat)
    requires KeptExactly(r, r1, r1.lastStable) && r.lastStable <= r1.lastStable
    requires r.low == r.lastStable && r.high == r.low + 200000
    requires r1 == r.(entries := r1.entries, lastStable := r1.lastStable, low := r1.lastStable,
                      high := r1.lastStable + 200000)
    ensures
      var r' := r1.Stabilize(cid);
      && r'.lastStable == (if cid > r1.lastStable then cid else r1.lastStable)
      && r' == r.(entries := r'.entries, lastStable := r'.lastStable, low := r'.lastStable,
                  high := r'.lastStable + 200000)
      && KeptExactly(r, r', r'.lastStable)
  {
  }

  /**
   * After any checkpoints that became stable, in any order: the largest one counts, instances are handled from the next
   * number on, two hundred thousand of them, and exactly the executed entries up to it are gone.
   */
  lemma {:induction false} WindowIsExact(r: ReplicaState, cids: seq<nat>)
    requires r.low == r.lastStable && r.high == r.low + 200000
    ensures
      var r' := StabilizeAll(r, cids);
      && IsMaximum(r.lastStable, cids, r'.lastStable)
      && r' == r.(entries := r'.entries, lastStable := r'.lastStable, low := r'.lastStable,
                  high := r'.lastStable + 200000)
      && KeptExactly(r, r', r'.lastStable)
      && forall cid: nat :: r'.WithinWaterMarks(cid) <==> 1 <= cid - r'.lastStable <= 200000
  {
    if cids == [] {
    } else {
      var before, last := cids[..|cids| - 1], cids[|cids| - 1];
      WindowIsExact(r, before);
      StabilizesExactly(r, StabilizeAll(r, before), last);
      MaximumGrows(r.lastStable, before, last, StabilizeAll(r, before).lastStable);
      assert cids == before + [last];
    }
  }

  lemma MaximumGrows(first: nat, xs: seq<nat>, x: nat, top: nat)
    requires IsMaximum(first, xs, top)
    ensures IsMaximum(first, xs + [x], if x > top then x else top)
  {
    var longer := xs + [x];
    assert longer[|xs|] == x;
    if k :| 0 <= k < |xs| && xs[k] == top {
      assert longer[k] == top;
    }
  }

  /** What a replica handles from the start on: every message for the first two hundred thousand instances. */
  lemma NewReplicaHandles(id: nat, n: nat, view: nat, ms: seq<Message>, refs: seq<Refs>, cid: nat)
    requires n > 0 && |ms| == |refs| && 1 <= cid <= 200000
    ensures
      var seat, s := Seat(id, n, view, cid), ArriveAll(NewReplica(id, n, view), ms, refs);
      && (SaysAccept(s.sent, cid) <==> seat.Written(ms, refs))
      && (HandsOverSome(s.handed, cid) <==> seat.Accepted(ms, refs))
  {
    ArrivalsAreExact(NewReplica(id, n, view), ms, refs, Seat(id, n, view, cid));
  }

  /** Outside the window, in a leader change, and as a proposal of anyone but the leader, a message has no effect. */
  lemma DroppedMessages(r: ReplicaState, m: Message, refs: Refs)
    requires r.n > 0
    requires r.inViewChange || m.cid <= r.low || m.cid > r.high || (m.Propose? && m.from != r.view % r.n + 1)
    ensures Arrive(r, m, refs) == Outcome(r, [], None)
  {
  }
}
