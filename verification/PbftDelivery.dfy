/** Ordered delivery: the reorder buffer that executes committed entries by sequence number. */
module PbftDelivery {
  import opened PbftMessages

  /** The loop's two variables: the next number to execute and the entries that arrived early. */
  datatype Buffer = Buffer(next: nat, pending: map<nat, Delivery>)
  {
    /** Numbers at or below the low water mark were committed elsewhere: forget them and jump over. */
    function SkipTo(low: nat): Buffer {
      if next <= low then Buffer(low + 1, map s | s in pending && s > low :: pending[s]) else this
    }

    function Add(e: Delivery): Buffer {
      this.(pending := pending[e.num := e])
    }

    predicate Ready() {
      next in pending
    }

    function Pop(): Buffer {
      Buffer(next + 1, pending - {next})
    }
  }

  const EMPTY_BUFFER := Buffer(1, map[])

  /** Buffer, executed entries and number of low-water-mark reads. */
  datatype Drained = Drained(buffer: Buffer, executed: seq<Delivery>, polls: nat)

  /**
   * Inner loop: read the low water mark, skip, execute the next entry if it is there, repeat. The mark may
   * move between any two polls; marks(t) is what the t-th read returns.
   */
  function Drain(b: Buffer, marks: nat -> nat, t: nat): Drained
    decreases b.pending.Keys
  {
    var b1 := b.SkipTo(marks(t));
    if b1.Ready() then
      var rest := Drain(b1.Pop(), marks, t + 1);
      rest.(executed := [b1.pending[b1.next]] + rest.executed)
    else
      Drained(b1, [], t + 1)
  }

  /** Outer loop, over the entries in the order they were committed here. */
  function Run(arrivals: seq<Delivery>, marks: nat -> nat): Drained {
    if arrivals == [] then Drained(EMPTY_BUFFER, [], 0)
    else
      var before := Run(arrivals[..|arrivals| - 1], marks);
      var step := Drain(before.buffer.Add(arrivals[|arrivals| - 1]), marks, before.polls);
      step.(executed := before.executed + step.executed)
  }

  method Purge(pending: map<nat, Delivery>, low: nat) returns (kept: map<nat, Delivery>)
    ensures kept == map s | s in pending && s > low :: pending[s]
  {
    kept := pending;
    var rest := pending.Keys;
    while rest != {}
      invariant rest <= pending.Keys
      invariant forall s :: s in kept <==> s in pending && (s in rest || s > low)
      invariant forall s :: s in kept ==> kept[s] == pending[s]
      decreases |rest|
    {
      var s :| s in rest;
      rest := rest - {s};
      if s <= low {
        kept := kept - {s};
      }
    }
  }

  lemma OneMoreExecuted(executed: seq<Delivery>, entry: Delivery, rest: seq<Delivery>)
    ensures executed + ([entry] + rest) == (executed + [entry]) + rest
  {
  }

  /** Inner loop. Variables live outside the call, as they do in the source's closure of one goroutine. */
  method DrainLoop(b: Buffer, marks: nat -> nat, t: nat) returns (next: nat, pending: map<nat, Delivery>,
                                                                  executed: seq<Delivery>, polls: nat)
    ensures Drained(Buffer(next, pending), executed, polls) == Drain(b, marks, t)
  {
    next, pending, executed, polls := b.next, b.pending, [], t;
    ghost var goal := Drain(b, marks, t);
    ghost var todo := goal;
    while true
      invariant todo == Drain(Buffer(next, pending), marks, polls)
      invariant executed + todo.executed == goal.executed
      invariant todo.buffer == goal.buffer && todo.polls == goal.polls
      decreases pending.Keys
    {
      var low := marks(polls);
      ghost var b1 := Buffer(next, pending).SkipTo(low);
      polls := polls + 1;
      if next <= low {
        pending := Purge(pending, low);
        next := low + 1;
      }
      assert Buffer(next, pending) == b1;
      if next !in pending {
        assert executed + [] == executed;
        return;
      }
      var entry := pending[next];
      pending := pending - {next};
      ghost var rest := Drain(b1.Pop(), marks, polls);
      OneMoreExecuted(executed, entry, rest.executed);
      executed := executed + [entry];
      next := next + 1;
      todo := rest;
    }
  }

  method RunDeliver(arrivals: seq<Delivery>, marks: nat -> nat) returns (next: nat, pending: map<nat, Delivery>,
                                                                        executed: seq<Delivery>, polls: nat)
    ensures Drained(Buffer(next, pending), executed, polls) == Run(arrivals, marks)
  {
    next, pending, executed, polls := 1, map[], [], 0;
    for i := 0 to |arrivals|
      invariant Drained(Buffer(next, pending), executed, polls) == Run(arrivals[..i], marks)
    {
      pending := pending[arrivals[i].num := arrivals[i]];
      var more: seq<Delivery>;
      next, pending, more, polls := DrainLoop(Buffer(next, pending), marks, polls);
      executed := executed + more;
      assert arrivals[..i + 1][..i] == arrivals[..i];
    }
    assert arrivals[..|arrivals|] == arrivals;
  }

  // ---- What ordered delivery promises ----------------------------------------------------------

  ghost predicate Monotone(marks: nat -> nat) {
    forall i: nat, j: nat :: i <= j ==> marks(i) <= marks(j)
  }

  ghost predicate WellFormed(b: Buffer) {
    forall s :: s in b.pending ==> b.pending[s].num == s
  }

  ghost predicate Increasing(log: seq<Delivery>) {
    forall i, j :: 0 <= i < j < |log| ==> log[i].num < log[j].num
  }

  ghost predicate Executes(log: seq<Delivery>, s: nat) {
    exists i :: 0 <= i < |log| && log[i].num == s
  }

  /** Every number in [from, to) was executed or lies at or below the mark. */
  ghost predicate Accounted(log: seq<Delivery>, from: nat, to: nat, mark: nat) {
    forall s :: from <= s < to ==> Executes(log, s) || s <= mark
  }

  lemma ExecutesConcat(a: seq<Delivery>, b: seq<Delivery>, s: nat)
    ensures Executes(a + b, s) <==> Executes(a, s) || Executes(b, s)
  {
    if Executes(a, s) {
      var i :| 0 <= i < |a| && a[i].num == s;
      assert (a + b)[i].num == s;
    }
    if Executes(b, s) {
      var i :| 0 <= i < |b| && b[i].num == s;
      assert (a + b)[|a| + i].num == s;
    }
  }

  lemma {:induction false} DrainOrdered(b: Buffer, marks: nat -> nat, t: nat)
    requires WellFormed(b) && Monotone(marks)
    ensures
      var d := Drain(b, marks, t);
      && WellFormed(d.buffer) && b.next <= d.buffer.next && d.polls > t
      && Increasing(d.executed)
      && (forall i :: 0 <= i < |d.executed| ==> b.next <= d.executed[i].num < d.buffer.next)
      && Accounted(d.executed, b.next, d.buffer.next, marks(d.polls - 1))
    decreases b.pending.Keys
  {
    var b1 := b.SkipTo(marks(t));
    if b1.Ready() {
      DrainOrdered(b1.Pop(), marks, t + 1);
      var rest := Drain(b1.Pop(), marks, t + 1);
      var d := Drain(b, marks, t);
      forall s | b.next <= s < d.buffer.next
        ensures Executes(d.executed, s) || s <= marks(d.polls - 1)
      {
        ExecutesConcat([b1.pending[b1.next]], rest.executed, s);
        assert [b1.pending[b1.next]][0].num == b1.next;
      }
    }
  }

  /**
   * For any arrivals, duplicates included, and any movement of the low water mark that never goes back: the
   * executed numbers strictly increase, so none is executed twice, and a number that was passed over without
   * being executed lies at or below the mark.
   */
  lemma {:induction false} DeliveryIsOrdered(arrivals: seq<Delivery>, marks: nat -> nat)
    requires Monotone(marks)
    ensures
      var d := Run(arrivals, marks);
      && WellFormed(d.buffer) && Increasing(d.executed)
      && 1 <= d.buffer.next
      && (forall i :: 0 <= i < |d.executed| ==> 1 <= d.executed[i].num < d.buffer.next)
      && Accounted(d.executed, 1, d.buffer.next, if d.polls == 0 then 0 else marks(d.polls - 1))
  {
    if arrivals != [] {
      var before := Run(arrivals[..|arrivals| - 1], marks);
      DeliveryIsOrdered(arrivals[..|arrivals| - 1], marks);
      var b := before.buffer.Add(arrivals[|arrivals| - 1]);
      DrainOrdered(b, marks, before.polls);
      var step := Drain(b, marks, before.polls);
      var d := Run(arrivals, marks);
      assert d.executed == before.executed + step.executed && d.buffer == step.buffer;
      assert before.polls > 0 ==> marks(before.polls - 1) <= marks(d.polls - 1);
      AccountedConcat(before.executed, step.executed, b.next, d.buffer.next,
                      if before.polls == 0 then 0 else marks(before.polls - 1), marks(d.polls - 1));
    }
  }

  lemma AccountedConcat(a: seq<Delivery>, b: seq<Delivery>, mid: nat, to: nat, early: nat, late: nat)
    requires 1 <= mid && early <= late
    requires Accounted(a, 1, mid, early) && Accounted(b, mid, to, late)
    ensures Accounted(a + b, 1, to, late)
  {
    forall s | 1 <= s < to
      ensures Executes(a + b, s) || s <= late
    {
      ExecutesConcat(a, b, s);
    }
  }

  ghost predicate Arrived(arrivals: seq<Delivery>, s: nat) {
    exists i :: 0 <= i < |arrivals| && arrivals[i].num == s
  }

  /** What draining does while the mark stays at 0. */
  ghost predicate DrainsInto(b: Buffer, d: Drained) {
    && |d.executed| == d.buffer.next - b.next
    && (forall i :: 0 <= i < |d.executed| ==> d.executed[i].num == b.next + i && d.executed[i].num in b.pending)
    && d.buffer.next !in d.buffer.pending
    && (forall s :: s >= d.buffer.next ==> (s in d.buffer.pending <==> s in b.pending))
  }

  lemma {:induction false} DrainWithoutMark(b: Buffer, marks: nat -> nat, t: nat)
    requires WellFormed(b) && b.next > 0 && forall i: nat :: marks(i) == 0
    ensures DrainsInto(b, Drain(b, marks, t))
    decreases b.pending.Keys
  {
    if b.Ready() {
      DrainWithoutMark(b.Pop(), marks, t + 1);
      var rest := Drain(b.Pop(), marks, t + 1);
      var d := Drain(b, marks, t);
      assert b.SkipTo(marks(t)) == b;
      assert d == rest.(executed := [b.pending[b.next]] + rest.executed);
      forall i | 0 <= i < |d.executed|
        ensures d.executed[i].num == b.next + i && d.executed[i].num in b.pending
      {
        if i > 0 {
          assert d.executed[i] == rest.executed[i - 1] && rest.executed[i - 1].num == b.Pop().next + (i - 1);
        }
      }
    }
  }

  lemma ArrivedSnoc(arrivals: seq<Delivery>, e: Delivery, s: nat)
    ensures Arrived(arrivals + [e], s) <==> Arrived(arrivals, s) || e.num == s
  {
    var all := arrivals + [e];
    assert all[|arrivals|] == e;
    if Arrived(arrivals, s) {
      var i :| 0 <= i < |arrivals| && arrivals[i].num == s;
      assert all[i].num == s;
    }
  }

  /** The executed log is 1, 2, ..., m for the largest m such that all of 1..m arrived; what lies beyond is buffered. */
  ghost predicate Complete(d: Drained, arrivals: seq<Delivery>) {
    && d.buffer.next == |d.executed| + 1
    && (forall i :: 0 <= i < |d.executed| ==> d.executed[i].num == i + 1 && Arrived(arrivals, i + 1))
    && !Arrived(arrivals, d.buffer.next)
    && WellFormed(d.buffer)
    && (forall s :: s >= d.buffer.next ==> (s in d.buffer.pending <==> Arrived(arrivals, s)))
  }

  /**
   * With the mark at 0 the executed log is exactly 1, 2, ..., m, where m is the largest number such that all of
   * 1..m arrived, whatever the order and the duplicates.
   */
  lemma {:induction false} DeliveryIsComplete(arrivals: seq<Delivery>, marks: nat -> nat)
    requires forall i: nat :: marks(i) == 0
    ensures Complete(Run(arrivals, marks), arrivals)
  {
    if arrivals != [] {
      var init, last := arrivals[..|arrivals| - 1], arrivals[|arrivals| - 1];
      assert arrivals == init + [last];
      DeliveryIsComplete(init, marks);
      DeliveryIsOrdered(arrivals, marks);
      var before := Run(init, marks);
      var b := before.buffer.Add(last);
      AddKeepsWellFormed(before.buffer, last);
      DrainWithoutMark(b, marks, before.polls);
      OneMoreArrived(before, Drain(b, marks, before.polls), init, last);
    }
  }

  lemma AddKeepsWellFormed(b: Buffer, e: Delivery)
    requires WellFormed(b)
    ensures WellFormed(b.Add(e))
  {
  }

  lemma OneMoreArrived(before: Drained, step: Drained, arrivals: seq<Delivery>, last: Delivery)
    requires Complete(before, arrivals) && DrainsInto(before.buffer.Add(last), step) && WellFormed(step.buffer)
    ensures Complete(step.(executed := before.executed + step.executed), arrivals + [last])
  {
    forall s {
      ArrivedSnoc(arrivals, last, s);
    }
    var log, d := before.executed + step.executed, |before.executed|;
    forall i | 0 <= i < |log|
      ensures log[i].num == i + 1 && Arrived(arrivals + [last], i + 1)
    {
      ArrivedSnoc(arrivals, last, i + 1);
      if i < d {
        assert log[i] == before.executed[i] && Arrived(arrivals, i + 1);
      } else {
        assert log[i] == step.executed[i - d] && log[i].num == i + 1;
        assert i + 1 in before.buffer.Add(last).pending;
      }
    }
  }

  /** A permutation of 1..k executes exactly 1..k, in order. */
  lemma PermutationExecutesAll(arrivals: seq<Delivery>, k: nat, marks: nat -> nat)
    requires forall i: nat :: marks(i) == 0
    requires forall s: nat :: 1 <= s <= k <==> Arrived(arrivals, s)
    ensures
      var log := Run(arrivals, marks).executed;
      |log| == k && forall i :: 0 <= i < k ==> log[i].num == i + 1
  {
    DeliveryIsComplete(arrivals, marks);
    var d := Run(arrivals, marks);
    assert d.buffer.next > k;
    assert |d.executed| > 0 ==> d.executed[|d.executed| - 1].num == |d.executed| && Arrived(arrivals, |d.executed|);
  }
}
