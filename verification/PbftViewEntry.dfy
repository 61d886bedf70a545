/** What a replica does while a view changes, how it enters the new view, and that it works there. */
module PbftViewEntry {
  import opened Options
  import opened PbftMessages
  import opened PbftEntry
  import opened PbftLog
  import opened PbftNewView
  import opened PbftReplica
  import opened PbftSystem
  import opened PbftAgreement

  // ---- During the change -----------------------------------------------------------------------

  /** From the timeout on, a replica drops every vote, and it has asked for the next view. */
  lemma WaitsForTheView(r: ReplicaState, certs: seq<Vote>, m: Message, connected: bool)
    requires r.n > 0
    ensures
      var o := r.StartViewChange(certs);
      && o.sent == [ViewChange(r.id, r.view + 1, r.log.lastStable, certs)] && o.state == r.(inViewChange := true)
      && (m.PrePrepare? ==> o.state.OnPrePrepare(m, connected) == Outcome(o.state, [], None))
      && (m.Prepare? ==> o.state.OnPrepare(m, connected) == Outcome(o.state, [], None))
      && (m.Commit? ==> o.state.OnCommit(m) == Outcome(o.state, [], None))
  {
  }

  // ---- Entering ----------------------------------------------------------------------------------

  /** The number of a re-proposal that is within the marks and has nothing recorded. */
  ghost predicate Open(l: Log, num: nat) {
    l.low < num <= l.high && !(num in l.entries && l.entries[num].sentPrepare)
  }

  ghost predicate Named(ps: seq<Proposal>, num: nat) {
    exists i :: 0 <= i < |ps| && ps[i].num == num
  }

  /** An entry as a new view records it: the digest of no request, the replica's own prepare, and the rest as it was. */
  ghost predicate Reproposed(e: Entry, e': Entry, id: nat, view: nat) {
    var v := Vote(view, e.num, OfRequest(0));
    e' == e.(ts := 0, sentPrepare := true, prePrepare := Some(v), prepares := e.prepares[id := v])
  }

  /** The log after the re-proposals: the open numbers they name are recorded, and no other record changes. */
  ghost predicate LogAfter(l: Log, l': Log, ps: seq<Proposal>, id: nat, view: nat) {
    && l' == l.(entries := l'.entries)
    && forall num ::
         if Open(l, num) && Named(ps, num) then num in l'.entries && Reproposed(l.At(num), l'.entries[num], id, view)
         else l'.At(num) == l.At(num)
  }

  /** The message for the i-th re-proposal: the primary repeats each, a backup prepares each open number once. */
  ghost predicate Answers(r: ReplicaState, view: nat, ps: seq<Proposal>, i: nat, m: Message)
    requires i < |ps| && r.n > 0
  {
    var p := ps[i];
    && r.log.low < p.num <= r.log.high
    && if r.id == view % r.n + 1 then m == PrePrepare(r.id, view, p.num, 0, p.digest)
       else Open(r.log, p.num) && !Named(ps[..i], p.num) && m == Prepare(r.id, view, p.num, p.digest)
  }

  ghost predicate SendsAnswers(r: ReplicaState, view: nat, ps: seq<Proposal>, sent: seq<Message>)
    requires r.n > 0
  {
    forall m :: m in sent <==> exists i: nat :: i < |ps| && Answers(r, view, ps, i, m)
  }

  lemma NamedGrows(ps: seq<Proposal>, num: nat)
    requires ps != []
    ensures Named(ps, num) <==> Named(ps[..|ps| - 1], num) || ps[|ps| - 1].num == num
  {
    var init := ps[..|ps| - 1];
    if Named(init, num) {
      var i :| 0 <= i < |init| && init[i].num == num;
      assert ps[i].num == num;
    }
    if Named(ps, num) {
      var i :| 0 <= i < |ps| && ps[i].num == num;
      assert i < |init| ==> init[i].num == num;
    }
  }

  /** One more re-proposal: l1 is the log after the others, l2 after all. */
  lemma LogAfterOneMore(l: Log, l1: Log, l2: Log, ps: seq<Proposal>, id: nat, view: nat)
    requires ps != [] && LogOk(l) && LogAfter(l, l1, ps[..|ps| - 1], id, view)
    requires
      var num := ps[|ps| - 1].num;
      l2 == if l.low < num <= l.high then l1.Put(num, l1.At(num).RecordPrePrepare(id, view, 0).0) else l1
    ensures LogAfter(l, l2, ps, id, view)
  {
    var last := ps[|ps| - 1].num;
    forall num
      ensures if Open(l, num) && Named(ps, num)
              then num in l2.entries && Reproposed(l.At(num), l2.entries[num], id, view)
              else l2.At(num) == l.At(num)
    {
      NamedGrows(ps, num);
      if num == last {
        RecordsIfOpen(l, l1, ps[..|ps| - 1], num, id, view);
      }
    }
  }

  lemma RecordsIfOpen(l: Log, l1: Log, ps: seq<Proposal>, num: nat, id: nat, view: nat)
    requires LogOk(l) && LogAfter(l, l1, ps, id, view)
    ensures
      var (e, first) := l1.At(num).RecordPrePrepare(id, view, 0);
      && (l.low < num <= l.high ==> (first <==> Open(l, num) && !Named(ps, num)))
      && (Open(l, num) ==> Reproposed(l.At(num), e, id, view))
      && (!Open(l, num) && l.low < num <= l.high ==> e == l.At(num))
  {
    assert EntryOk(l.At(num), num);
    assert Open(l, num) && Named(ps, num) ==> Reproposed(l.At(num), l1.entries[num], id, view);
    assert !(Open(l, num) && Named(ps, num)) ==> l1.At(num) == l.At(num);
  }

  lemma AnswersOneMore(r: ReplicaState, view: nat, ps: seq<Proposal>, before: seq<Message>, last: seq<Message>)
    requires r.n > 0 && ps != [] && SendsAnswers(r, view, ps[..|ps| - 1], before)
    requires forall m :: m in last <==> Answers(r, view, ps, |ps| - 1, m)
    ensures SendsAnswers(r, view, ps, before + last)
  {
    var init := ps[..|ps| - 1];
    forall i: nat, m | i < |init|
      ensures Answers(r, view, init, i, m) <==> Answers(r, view, ps, i, m)
    {
      assert init[..i] == ps[..i];
    }
    forall m
      ensures m in before + last <==> exists i: nat :: i < |ps| && Answers(r, view, ps, i, m)
    {
      if m in before {
        var i: nat :| i < |init| && Answers(r, view, init, i, m);
        assert Answers(r, view, ps, i, m);
      }
    }
  }

  /** The whole replay, in order, for any re-proposals: what is recorded, and what goes out. */
  lemma {:induction false} ReplaysExactly(r: ReplicaState, ps: seq<Proposal>)
    requires r.n > 0 && LogOk(r.log) && (r.primary <==> r.id == r.view % r.n + 1)
    ensures
      var o := r.ReplayAll(ps);
      && o.state == r.(log := o.state.log) && o.decided.None?
      && LogAfter(r.log, o.state.log, ps, r.id, r.view) && SendsAnswers(r, r.view, ps, o.sent)
  {
    if ps != [] {
      ReplaysExactly(r, ps[..|ps| - 1]);
      ReplaysOneMore(r, ps, r.ReplayAll(ps[..|ps| - 1]));
    }
  }

  lemma ReplaysOneMore(r: ReplicaState, ps: seq<Proposal>, before: Outcome)
    requires r.n > 0 && LogOk(r.log) && (r.primary <==> r.id == r.view % r.n + 1) && ps != []
    requires before.state == r.(log := before.state.log)
    requires LogAfter(r.log, before.state.log, ps[..|ps| - 1], r.id, r.view)
    requires SendsAnswers(r, r.view, ps[..|ps| - 1], before.sent)
    ensures
      var o := before.state.ReplayOne(ps[|ps| - 1]);
      && o.state == r.(log := o.state.log) && o.decided.None?
      && LogAfter(r.log, o.state.log, ps, r.id, r.view) && SendsAnswers(r, r.view, ps, before.sent + o.sent)
  {
    var p := ps[|ps| - 1];
    var o := before.state.ReplayOne(p);
    RecordsIfOpen(r.log, before.state.log, ps[..|ps| - 1], p.num, r.id, r.view);
    LogAfterOneMore(r.log, before.state.log, o.state.log, ps, r.id, r.view);
    AnswersOneMore(r, r.view, ps, before.sent, o.sent);
  }

  /** The counter moves up to the highest re-proposal and never back. */
  ghost predicate CounterAfter(before: nat, after: nat, ps: seq<Proposal>) {
    && before <= after && (forall i :: 0 <= i < |ps| ==> ps[i].num <= after)
    && (after == before || exists i :: 0 <= i < |ps| && ps[i].num == after)
  }

  lemma {:induction false} MaxNumIsMaximal(ps: seq<Proposal>)
    ensures forall i :: 0 <= i < |ps| ==> ps[i].num <= MaxNum(ps)
    ensures MaxNum(ps) == 0 || exists i :: 0 <= i < |ps| && ps[i].num == MaxNum(ps)
  {
    if ps != [] {
      var init := ps[..|ps| - 1];
      MaxNumIsMaximal(init);
      assert forall i :: 0 <= i < |init| ==> init[i] == ps[i];
      if MaxNum(ps) == MaxNum(init) && MaxNum(ps) != 0 {
        var i :| 0 <= i < |init| && init[i].num == MaxNum(init);
        assert ps[i].num == MaxNum(ps);
      }
    }
  }

  /** State and messages of a replica that enters view `view`. */
  ghost predicate Entered(r: ReplicaState, o: Outcome, view: nat, ps: seq<Proposal>, sent: seq<Message>)
    requires r.n > 0
  {
    var s := o.state;
    && s.view == view && !s.inViewChange && (s.primary <==> r.id == view % r.n + 1)
    && CounterAfter(r.counter, s.counter, ps) && s.viewChangeMsgs == map[]
    && LogAfter(r.log, s.log, ps, r.id, view) && SendsAnswers(r, view, ps, sent)
    && s.id == r.id && s.n == r.n && s.deliverCh == r.deliverCh && s.buffer == r.buffer && s.executed == r.executed
    && o.decided.None?
  }

  /** Whatever is re-proposed: the whole state of a replica that enters a view, and what it sends. */
  lemma EntersExactly(r: ReplicaState, view: nat, ps: seq<Proposal>)
    requires r.n > 0 && LogOk(r.log)
    ensures Entered(r, r.EnterNewView(view, ps), view, ps, r.EnterNewView(view, ps).sent)
  {
    var s := r.InView(view, MaxNum(ps));
    MaxNumIsMaximal(ps);
    ReplaysExactly(s, ps);
    SameAnswers(r, s, view, ps, s.ReplayAll(ps).sent);
  }

  lemma SameAnswers(r: ReplicaState, s: ReplicaState, view: nat, ps: seq<Proposal>, sent: seq<Message>)
    requires r.n > 0 && s.n == r.n && s.id == r.id && s.log == r.log && SendsAnswers(s, view, ps, sent)
    ensures SendsAnswers(r, view, ps, sent)
  {
    assert forall i: nat, m | i < |ps| :: Answers(r, view, ps, i, m) <==> Answers(s, view, ps, i, m);
  }

  // ---- The two ways into a view ----------------------------------------------------------------

  /** A new-view message is followed if it comes from the primary of the view it names, and ignored otherwise. */
  lemma NewViewIsFollowed(r: ReplicaState, m: Message)
    requires r.n > 0 && LogOk(r.log) && m.NewView?
    ensures
      var o := r.OnNewView(m);
      if m.from == m.newView % r.n + 1 then Entered(r, o, m.newView, m.proposals, o.sent) else o == Outcome(r, [], None)
  {
    EntersExactly(r, m.newView, m.proposals);
  }

  /**
   * A view-change is collected by the primary of the view it names. The one that makes 2f senders, the primary itself
   * not counted, makes it send the new view and enter it.
   */
  lemma ViewChangeIsAnswered(r: ReplicaState, m: Message, ps: seq<Proposal>)
    requires r.n > 0 && LogOk(r.log) && m.ViewChange?
    ensures
      var o, collected := r.OnViewChange(m, ps), r.viewChangeMsgs[m.from := m];
      if m.newView % r.n + 1 != r.id then o == Outcome(r, [], None)
      else if |collected| != 2 * ((r.n - 1) / 3) then o == Outcome(r.(viewChangeMsgs := collected), [], None)
      else o.sent != [] && o.sent[0] == NewView(r.id, m.newView, ps) && Entered(r, o, m.newView, ps, o.sent[1..])
  {
    var s := r.(viewChangeMsgs := r.CollectViewChange(m));
    EntersExactly(s, m.newView, ps);
    if r.CompletesViewChange(m) {
      var o := s.EnterNewView(m.newView, ps);
      assert r.OnViewChange(m, ps).sent[1..] == o.sent;
      SameAnswers(r, s, m.newView, ps, o.sent);
    }
  }

  // ---- In the view -----------------------------------------------------------------------------

  /** A replica that is in a view answers the first pre-prepare of its primary for a number within the marks. */
  lemma PrePrepareIsAnswered(r: ReplicaState, m: Message)
    requires r.n > 0 && LogOk(r.log) && m.PrePrepare?
    requires !r.inViewChange && m.from == r.view % r.n + 1 && Open(r.log, m.num)
    ensures
      var o := r.OnPrePrepare(m, true);
      && m.num in o.state.log.entries
      && o.state.log.entries[m.num].prePrepare == Some(Vote(r.view, m.num, OfRequest(m.ts)))
      && o.sent != [] && o.sent[0] == Prepare(r.id, m.view, m.num, m.digest)
  {
    var before := r.log.At(m.num);
    assert EntryOk(before, m.num);
    EchoSettles(r, m, before.RecordPrePrepare(r.id, r.view, m.ts).0);
  }

  /**
   * So after a new-view message of the primary of a view, a replica is in that view and out of the change, and the next
   * pre-prepare of this primary, for a number that is open and was not re-proposed, is recorded under the view and
   * answered by a prepare that names it.
   */
  lemma WorksInTheNewView(r: ReplicaState, m: Message, next: Message)
    requires r.n > 0 && LogOk(r.log) && m.NewView? && m.from == m.newView % r.n + 1
    requires next.PrePrepare? && next.from == m.from && next.view == m.newView
    requires Open(r.log, next.num) && !Named(m.proposals, next.num)
    ensures
      var s := r.OnNewView(m).state;
      && s.view == m.newView && !s.inViewChange && (s.primary <==> m.newView % r.n + 1 == r.id) && s.n == r.n
      && var o := s.OnPrePrepare(next, true);
      && next.num in o.state.log.entries
      && o.state.log.entries[next.num].prePrepare == Some(Vote(m.newView, next.num, OfRequest(next.ts)))
      && o.sent != [] && o.sent[0] == Prepare(r.id, m.newView, next.num, next.digest)
  {
    NewViewIsFollowed(r, m);
    var s := r.OnNewView(m).state;
    LogStaysOk(r.log, s.log, m.proposals, r.id, m.newView);
    assert s.log.At(next.num) == r.log.At(next.num);
    StaysOpen(r.log, s.log, m.proposals, r.id, m.newView, next.num);
    PrePrepareIsAnswered(s, next);
  }

  lemma LogStaysOk(l: Log, l': Log, ps: seq<Proposal>, id: nat, view: nat)
    requires LogOk(l) && LogAfter(l, l', ps, id, view)
    ensures LogOk(l')
  {
    forall num | num in l'.entries
      ensures EntryOk(l'.entries[num], num)
    {
      assert EntryOk(l.At(num), num);
      assert Open(l, num) && Named(ps, num) ==> Reproposed(l.At(num), l'.entries[num], id, view);
      assert !(Open(l, num) && Named(ps, num)) ==> l'.At(num) == l.At(num);
    }
  }

  lemma StaysOpen(l: Log, l': Log, ps: seq<Proposal>, id: nat, view: nat, num: nat)
    requires LogAfter(l, l', ps, id, view) && Open(l, num) && !Named(ps, num)
    ensures Open(l', num)
  {
    assert l'.At(num) == l.At(num);
  }

  /** The same at every moment of every run, for any correct replica. */
  lemma WorksInEveryNewView(trace: seq<System>, k: nat, i: nat, m: Message, next: Message)
    requires IsRun(trace) && k < |trace| && i in trace[k].replicas
    requires
      var r := trace[k].replicas[i];
      && m.NewView? && m.from == m.newView % (3 * trace[k].f + 1) + 1
      && next.PrePrepare? && next.from == m.from && next.view == m.newView
      && Open(r.log, next.num) && !Named(m.proposals, next.num)
    ensures
      var r := trace[k].replicas[i];
      && r.n == 3 * trace[k].f + 1
      && var s := r.OnNewView(m).state;
      && s.view == m.newView && !s.inViewChange && (s.primary <==> m.from == i) && s.n == r.n
      && var o := s.OnPrePrepare(next, true);
      && next.num in o.state.log.entries
      && o.state.log.entries[next.num].prePrepare == Some(Vote(m.newView, next.num, OfRequest(next.ts)))
      && o.sent != [] && o.sent[0] == Prepare(i, m.newView, next.num, next.digest)
  {
    RunKeepsInv(trace, k);
    WorksInTheNewView(trace[k].replicas[i], m, next);
  }

  /**
   * A joining replica that takes over the view of its peer works in it, unless it is in a view change itself: that does
   * not end by it.
   */
  lemma WorksInTheAdoptedView(r: ReplicaState, view: nat, m: Message)
    requires r.n > 0 && LogOk(r.log) && m.PrePrepare? && m.from == view % r.n + 1 && Open(r.log, m.num)
    ensures
      var s := r.AdoptView(view).state;
      && s == r.(view := view)
      && var o := s.OnPrePrepare(m, true);
         if r.inViewChange then o == Outcome(s, [], None)
         else
           && m.num in o.state.log.entries
           && o.state.log.entries[m.num].prePrepare == Some(Vote(view, m.num, OfRequest(m.ts)))
           && o.sent != [] && o.sent[0] == Prepare(r.id, m.view, m.num, m.digest)
  {
    if !r.inViewChange {
      PrePrepareIsAnswered(r.AdoptView(view).state, m);
    }
  }
}
