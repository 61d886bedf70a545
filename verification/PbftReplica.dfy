/** One PBFT replica: its state as a value with one function per handler, and the mutable server that refines it. */
module PbftReplica {
  import opened Options
  import opened PbftMessages
  import opened PbftEntry
  import opened PbftLog
  import opened PbftDelivery
  import opened PbftNewView
  import opened PbftLogProperties

  /** A committed entry: the pre-prepare it holds and the request timestamp. */
  datatype Decision = Decision(vote: Vote, ts: int)

  /** State after a handler, messages multicast in order, and the entry that committed, if any. */
  datatype Outcome = Outcome(state: ReplicaState, sent: seq<Message>, decided: Option<Decision>)

  datatype ReplicaState = ReplicaState(
    id: nat,
    n: nat,
    view: nat,
    primary: bool,
    inViewChange: bool,
    counter: nat,
    log: Log,
    deliverCh: seq<Delivery>,
    viewChangeMsgs: map<nat, Message>,
    buffer: Buffer,
    executed: seq<Delivery>)
  {
    /** Fault bound the replica derives from the cluster size. */
    function F(): nat
      requires n > 0
    {
      (n - 1) / 3
    }

    function Idle(): Outcome {
      Outcome(this, [], None)
    }

    function WithEntry(num: nat, e: Entry): ReplicaState {
      this.(log := log.Put(num, e))
    }

    /** Stores the entry and, when it just committed, queues it for ordered delivery. */
    function Settle(num: nat, e: Entry, done: bool, sent: seq<Message>): Outcome
      requires done ==> e.prePrepare.Some?
    {
      if done then
        Outcome(WithEntry(num, e).(deliverCh := deliverCh + [Delivery(e.num, e.ts)]), sent,
                Some(Decision(e.prePrepare.value, e.ts)))
      else Outcome(WithEntry(num, e), sent, None)
    }

    /** `connected` is whether the caller's configuration is known; without it nothing is multicast. */
    function OnPrePrepare(m: Message, connected: bool): Outcome
      requires m.PrePrepare? && n > 0
    {
      if inViewChange || m.from != PrimaryOf(view, n) || !log.WithinWaterMarks(m.num) then Idle()
      else
        var (e, first) := log.At(m.num).RecordPrePrepare(id, view, m.ts);
        if !first || !connected then Settle(m.num, e, false, [])
        else WithEntry(m.num, e).Echo(m)
    }

    /**
     * What follows a newly recorded pre-prepare: multicast the prepare and, since votes may have come first,
     * re-check both thresholds.
     */
    function Echo(m: Message): Outcome
      requires m.PrePrepare? && n > 0
    {
      var prepare := Prepare(id, m.view, m.num, m.digest);
      var (e, ready) := log.At(m.num).CheckPrepared(F());
      if !ready then Settle(m.num, e, false, [prepare])
      else WithEntry(m.num, e).Conclude(m.num).(sent := [prepare, Commit(id, m.view, m.num, m.digest)])
    }

    /** Re-checks the commit threshold of one entry. */
    function Conclude(num: nat): Outcome
      requires n > 0
    {
      var (e, done) := log.At(num).CheckCommitted(F());
      Settle(num, e, done, [])
    }

    function OnPrepare(m: Message, connected: bool): Outcome
      requires m.Prepare? && n > 0
    {
      if inViewChange || !log.WithinWaterMarks(m.num) then Idle()
      else
        var (e, ready) := log.At(m.num).TryPrepare(F(), m.from, Vote(m.view, m.num, m.digest));
        Settle(m.num, e, false, if ready && connected then [Commit(id, m.view, m.num, m.digest)] else [])
    }

    function OnCommit(m: Message): Outcome
      requires m.Commit? && n > 0
    {
      if inViewChange || !log.WithinWaterMarks(m.num) then Idle()
      else
        var (e, done) := log.At(m.num).TryCommit(F(), m.from, Vote(m.view, m.num, m.digest));
        Settle(m.num, e, done, [])
    }

    function OnCheckpoint(m: Message): Outcome
      requires m.Checkpoint? && n > 0
    {
      Outcome(this.(log := log.RecordCheckpoint(m, F()).0), [], None)
    }

    /** One turn of the primary loop: the next number is used whether or not the entry was fresh. */
    function Propose(ts: int): Outcome {
      var num := counter + 1;
      var (e, first) := log.At(num).RecordPrePrepare(id, view, ts);
      Outcome(WithEntry(num, e).(counter := num), [PrePrepare(id, view, num, ts, OfRequest(ts))], None)
    }

    /** Certificates of a VIEW-CHANGE: exactly the pre-prepares of the prepared entries above the stable number. */
    ghost predicate PreparedCertificates(certs: seq<Vote>) {
      forall v :: v in certs <==>
        exists s :: s in log.PreparedEntries(log.lastStable) && log.entries[s].prePrepare == Some(v)
    }

    function StartViewChange(certs: seq<Vote>): Outcome {
      Outcome(this.(inViewChange := true), [ViewChange(id, view + 1, log.lastStable, certs)], None)
    }

    function CollectViewChange(m: Message): map<nat, Message>
      requires m.ViewChange?
    {
      viewChangeMsgs[m.from := m]
    }

    /** The message completes the 2f view-changes the new primary waits for. */
    predicate CompletesViewChange(m: Message)
      requires m.ViewChange? && n > 0
    {
      PrimaryOf(m.newView, n) == id && |CollectViewChange(m)| == 2 * F()
    }

    /** `ps` is the new-view set, used when the message completes the view change. */
    function OnViewChange(m: Message, ps: seq<Proposal>): Outcome
      requires m.ViewChange? && n > 0
    {
      if PrimaryOf(m.newView, n) != id then Idle()
      else
        var s := this.(viewChangeMsgs := CollectViewChange(m));
        if !CompletesViewChange(m) then Outcome(s, [], None)
        else s.SendNewView(m.newView, ps)
    }

    function SendNewView(newView: nat, ps: seq<Proposal>): Outcome
      requires n > 0
    {
      var o := EnterNewView(newView, ps);
      o.(sent := [NewView(id, newView, ps)] + o.sent)
    }

    function OnNewView(m: Message): Outcome
      requires m.NewView? && n > 0
    {
      if m.from != PrimaryOf(m.newView, n) then Idle()
      else EnterNewView(m.newView, m.proposals)
    }

    function EnterNewView(newView: nat, ps: seq<Proposal>): Outcome
      requires n > 0
    {
      InView(newView, MaxNum(ps)).ReplayAll(ps)
    }

    /** In the new view, with the counter at max-s or beyond. */
    function InView(newView: nat, maxS: nat): ReplicaState
      requires n > 0
    {
      this.(view := newView,
            primary := id == PrimaryOf(newView, n),
            inViewChange := false,
            viewChangeMsgs := map[],
            counter := if counter >= maxS then counter else maxS)
    }

    /** Replays re-proposals in order. Replayed entries are recorded with timestamp 0. */
    function ReplayAll(ps: seq<Proposal>): Outcome {
      if ps == [] then Idle()
      else
        var before := ReplayAll(ps[..|ps| - 1]);
        var o := before.state.ReplayOne(ps[|ps| - 1]);
        o.(sent := before.sent + o.sent)
    }

    function ReplayOne(p: Proposal): Outcome {
      if !log.WithinWaterMarks(p.num) then Idle()
      else
        var (e, first) := log.At(p.num).RecordPrePrepare(id, view, 0);
        Outcome(WithEntry(p.num, e),
                if primary then [PrePrepare(id, view, p.num, 0, p.digest)]
                else if first then [Prepare(id, view, p.num, p.digest)]
                else [],
                None)
    }

    /** A joining replica adopts the view a peer reports. */
    function AdoptView(newView: nat): Outcome {
      Outcome(this.(view := newView), [], None)
    }

    /** The delivery goroutine takes the oldest committed entry. */
    function Take(): Outcome
      requires deliverCh != []
    {
      Outcome(this.(buffer := buffer.Add(deliverCh[0]), deliverCh := deliverCh[1..]), [], None)
    }

    /** One turn of its inner loop. Executing a checkpoint number records the replica's own vote and multicasts it. */
    function DeliverNext(): Outcome
      requires n > 0
    {
      var b := buffer.SkipTo(log.low);
      if !b.Ready() then Outcome(this.(buffer := b), [], None)
      else
        var e := b.pending[b.next];
        var s := this.(buffer := b.Pop(), executed := executed + [e]);
        if ShouldCheckpoint(e.num) then
          var vote := Checkpoint(id, e.num, OfState(e.num));
          Outcome(s.(log := log.RecordCheckpoint(vote, F()).0), [vote], None)
        else Outcome(s, [], None)
    }
  }

  function NewReplica(id: nat, n: nat): ReplicaState {
    ReplicaState(id, n, 0, id == 1, false, 0, EmptyLog(), [], map[], EMPTY_BUFFER, [])
  }

  // ---- The mutable server ----------------------------------------------------------------------

  /**
   * Every handler is one critical section. The channel to the delivery goroutine and its reorder buffer hold
   * the number and timestamp of an entry: neither changes once the entry has committed.
   */
  class PBFTServer {
    const id: nat
    const n: nat
    const log: MessageLog
    var view: nat
    var primary: bool
    var inViewChange: bool
    var counter: nat
    var deliverCh: seq<Delivery>
    var viewChangeMsgs: map<nat, Message>
    var buffer: Buffer
    var executed: seq<Delivery>

    ghost predicate Valid()
      reads this, log
    {
      n > 0 && log.Valid()
    }

    function Model(): ReplicaState
      reads this, log, log.entries.Values
    {
      ReplicaState(id, n, view, primary, inViewChange, counter, log.Model(), deliverCh, viewChangeMsgs, buffer,
          executed)
    }

    constructor (id: nat, n: nat)
      requires n > 0
      ensures Valid() && Model() == NewReplica(id, n)
    {
      this.id, this.n := id, n;
      log := new MessageLog();
      view, primary, inViewChange, counter := 0, id == 1, false, 0;
      deliverCh, viewChangeMsgs, buffer, executed := [], map[], EMPTY_BUFFER, [];
    }

    method TryRecordPrePrepare(num: nat, ts: int) returns (first: bool)
      requires Valid()
      modifies log, log.entries.Values
      ensures Valid()
      ensures var (e, r) := old(log.Model()).At(num).RecordPrePrepare(id, view, ts);
              first == r && log.Model() == old(log.Model()).Put(num, e)
      ensures fresh(log.entries.Values - old(log.entries.Values))
    {
      ghost var before := log.Model();
      var e := log.GetOrCreate(num);
      assert forall s :: s in log.entries && s != num ==> log.entries[s] != e;
      ghost var mid := log.Entries();
      assert log.entries.Values <= old(log.entries.Values) + {e};
      first := e.RecordPrePrepare(id, view, ts);
      EntryChanged(log, mid, num);
      PutTwice(before, num, before.At(num), e.Model());
    }

    method TryPrepare(num: nat, from: nat, vote: Vote) returns (ok: bool)
      requires Valid()
      modifies log, log.entries.Values
      ensures Valid()
      ensures var (e, r) := old(log.Model()).At(num).TryPrepare((n - 1) / 3, from, vote);
              ok == r && log.Model() == old(log.Model()).Put(num, e)
      ensures fresh(log.entries.Values - old(log.entries.Values))
    {
      ghost var before := log.Model();
      var e := log.GetOrCreate(num);
      assert forall s :: s in log.entries && s != num ==> log.entries[s] != e;
      ghost var mid := log.Entries();
      assert log.entries.Values <= old(log.entries.Values) + {e};
      ok := e.TryPrepare((n - 1) / 3, from, vote);
      EntryChanged(log, mid, num);
      PutTwice(before, num, before.At(num), e.Model());
    }

    method TryCommit(num: nat, from: nat, vote: Vote) returns (ok: bool)
      requires Valid()
      modifies log, log.entries.Values
      ensures Valid()
      ensures var (e, r) := old(log.Model()).At(num).TryCommit((n - 1) / 3, from, vote);
              ok == r && log.Model() == old(log.Model()).Put(num, e)
      ensures fresh(log.entries.Values - old(log.entries.Values))
    {
      ghost var before := log.Model();
      var e := log.GetOrCreate(num);
      assert forall s :: s in log.entries && s != num ==> log.entries[s] != e;
      ghost var mid := log.Entries();
      assert log.entries.Values <= old(log.entries.Values) + {e};
      ok := e.TryCommit((n - 1) / 3, from, vote);
      EntryChanged(log, mid, num);
      PutTwice(before, num, before.At(num), e.Model());
    }

    method RecheckPrepared(num: nat) returns (ok: bool)
      requires Valid()
      modifies log, log.entries.Values
      ensures Valid()
      ensures var (e, r) := old(log.Model()).At(num).CheckPrepared((n - 1) / 3);
              ok == r && log.Model() == old(log.Model()).Put(num, e)
      ensures fresh(log.entries.Values - old(log.entries.Values))
    {
      ghost var before := log.Model();
      var e := log.GetOrCreate(num);
      assert forall s :: s in log.entries && s != num ==> log.entries[s] != e;
      ghost var mid := log.Entries();
      assert log.entries.Values <= old(log.entries.Values) + {e};
      ok := e.CheckPrepared((n - 1) / 3);
      EntryChanged(log, mid, num);
      PutTwice(before, num, before.At(num), e.Model());
    }

    method RecheckCommitted(num: nat) returns (ok: bool)
      requires Valid()
      modifies log, log.entries.Values
      ensures Valid()
      ensures var (e, r) := old(log.Model()).At(num).CheckCommitted((n - 1) / 3);
              ok == r && log.Model() == old(log.Model()).Put(num, e)
      ensures fresh(log.entries.Values - old(log.entries.Values))
    {
      ghost var before := log.Model();
      var e := log.GetOrCreate(num);
      assert forall s :: s in log.entries && s != num ==> log.entries[s] != e;
      ghost var mid := log.Entries();
      assert log.entries.Values <= old(log.entries.Values) + {e};
      ok := e.CheckCommitted((n - 1) / 3);
      EntryChanged(log, mid, num);
      PutTwice(before, num, before.At(num), e.Model());
    }

    /** Queues a committed entry for ordered delivery. */
    method Deliver(num: nat) returns (decided: Option<Decision>)
      requires Valid() && num in log.Entries() && log.Entries()[num].prePrepare.Some?
      modifies this`deliverCh
      ensures deliverCh == old(deliverCh) + [Delivery(log.Model().At(num).num, log.Model().At(num).ts)]
      ensures decided == Some(Decision(log.Model().At(num).prePrepare.value, log.Model().At(num).ts))
      ensures log.Entries() == old(log.Entries())
    {
      ghost var before := log.Entries();
      var e := log.entries[num];
      deliverCh := deliverCh + [Delivery(e.num, e.ts)];
      decided := Some(Decision(e.prePrepare.value, e.ts));
      EntriesAre(log, before);
    }

    method PrePrepare(m: Message, connected: bool) returns (sent: seq<Message>, decided: Option<Decision>)
      requires Valid() && m.PrePrepare?
      modifies this, log, log.entries.Values
      ensures Valid() && Outcome(Model(), sent, decided) == old(Model()).OnPrePrepare(m, connected)
    {
      sent, decided := [], None;
      if inViewChange {
        return;
      }
      var num := m.num;
      var primaryId := PrimaryOf(view, n);
      if m.from != primaryId {
        return;
      }
      var within := log.WithinWaterMarks(num);
      if !within {
        return;
      }
      var first := TryRecordPrePrepare(num, m.ts);
      if first {
        if !connected {
          return;
        }
        sent, decided := Echo(m);
      }
    }

    method Echo(m: Message) returns (sent: seq<Message>, decided: Option<Decision>)
      requires Valid() && m.PrePrepare?
      modifies this, log, log.entries.Values
      ensures Valid() && Outcome(Model(), sent, decided) == old(Model()).Echo(m)
    {
      var num := m.num;
      sent, decided := [Message.Prepare(id, m.view, num, m.digest)], None;
      ghost var s := Model();
      var ready := RecheckPrepared(num);
      assert Model() == s.WithEntry(num, s.log.At(num).CheckPrepared((n - 1) / 3).0);
      if ready {
        sent := sent + [Message.Commit(id, m.view, num, m.digest)];
        decided := Conclude(num);
      }
    }

    method Conclude(num: nat) returns (decided: Option<Decision>)
      requires Valid()
      modifies this, log, log.entries.Values
      ensures Valid() && Outcome(Model(), [], decided) == old(Model()).Conclude(num)
    {
      decided := None;
      var done := RecheckCommitted(num);
      if done {
        decided := Deliver(num);
      }
    }

    method Prepare(m: Message, connected: bool) returns (sent: seq<Message>)
      requires Valid() && m.Prepare?
      modifies this, log, log.entries.Values
      ensures Valid() && Outcome(Model(), sent, None) == old(Model()).OnPrepare(m, connected)
    {
      sent := [];
      if inViewChange {
        return;
      }
      var num := m.num;
      var within := log.WithinWaterMarks(num);
      if !within {
        return;
      }
      var ready := TryPrepare(num, m.from, Vote(m.view, num, m.digest));
      if ready {
        if !connected {
          return;
        }
        sent := [Message.Commit(id, m.view, num, m.digest)];
      }
    }

    method Commit(m: Message) returns (decided: Option<Decision>)
      requires Valid() && m.Commit?
      modifies this, log, log.entries.Values
      ensures Valid() && Outcome(Model(), [], decided) == old(Model()).OnCommit(m)
    {
      decided := None;
      if inViewChange {
        return;
      }
      var num := m.num;
      var within := log.WithinWaterMarks(num);
      if !within {
        return;
      }
      var done := TryCommit(num, m.from, Vote(m.view, num, m.digest));
      if done {
        decided := Deliver(num);
      }
    }

    method Checkpoint(m: Message)
      requires Valid() && m.Checkpoint?
      modifies log
      ensures Valid() && Outcome(Model(), [], None) == old(Model()).OnCheckpoint(m)
      ensures log.entries.Values <= old(log.entries.Values)
    {
      var stable, collected := log.RecordCheckpoint(m, (n - 1) / 3);
    }

    /** One turn of the primary loop. */
    method RunPrimary(ts: int) returns (sent: seq<Message>)
      requires Valid()
      modifies this`counter, log, log.entries.Values
      ensures Valid() && Model() == old(Model()).Propose(ts).state && sent == old(Model()).Propose(ts).sent
    {
      NextNumber();
      var first := TryRecordPrePrepare(counter, ts);
      var digest := OfRequest(ts);
      sent := [Message.PrePrepare(id, view, counter, ts, digest)];
    }

    method NextNumber()
      requires Valid()
      modifies this`counter
      ensures Valid() && Model() == old(Model()).(counter := old(counter) + 1)
    {
      ghost var before := log.Entries();
      counter := counter + 1;
      EntriesAre(log, before);
    }

    method StopOrdering()
      requires Valid()
      modifies this`inViewChange
      ensures Valid() && Model() == old(Model()).(inViewChange := true)
    {
      ghost var before := log.Entries();
      inViewChange := true;
      EntriesAre(log, before);
    }

    method SendViewChange() returns (sent: seq<Message>, certs: seq<Vote>)
      requires Valid()
      modifies this`inViewChange
      ensures Valid() && old(Model()).PreparedCertificates(certs)
      ensures Outcome(Model(), sent, None) == old(Model()).StartViewChange(certs)
    {
      StopOrdering();
      var stable := log.lastStable;
      var prepared := log.PreparedEntries(stable);
      certs := Certificates(prepared);
      sent := [Message.ViewChange(id, view + 1, stable, certs)];
      CertificatesAreExact(prepared, certs);
    }

    method Certificates(prepared: seq<LogEntry>) returns (certs: seq<Vote>)
      ensures forall v :: v in certs <==> exists k :: 0 <= k < |prepared| && prepared[k].prePrepare == Some(v)
    {
      certs := [];
      for i := 0 to |prepared|
        invariant forall v :: v in certs <==> exists k :: 0 <= k < i && prepared[k].prePrepare == Some(v)
      {
        var pp := prepared[i].prePrepare;
        if pp.None? {
          continue;
        }
        certs := certs + [pp.value];
      }
    }

    lemma CertificatesAreExact(prepared: seq<LogEntry>, certs: seq<Vote>)
      requires Valid()
      requires forall e :: e in prepared ==> e.num in log.entries && log.entries[e.num] == e
      requires forall s :: s in log.Model().PreparedEntries(log.lastStable) <==>
                 s in log.entries && log.entries[s] in prepared
      requires forall v :: v in certs <==> exists k :: 0 <= k < |prepared| && prepared[k].prePrepare == Some(v)
      ensures Model().PreparedCertificates(certs)
    {
      var l := log.Model();
      forall v
        ensures v in certs <==> exists s :: s in l.PreparedEntries(l.lastStable) && l.entries[s].prePrepare == Some(v)
      {
        if v in certs {
          var k :| 0 <= k < |prepared| && prepared[k].prePrepare == Some(v);
          assert prepared[k] in prepared;
          assert prepared[k].num in l.PreparedEntries(l.lastStable);
        }
        if s :| s in l.PreparedEntries(l.lastStable) && l.entries[s].prePrepare == Some(v) {
          var k :| 0 <= k < |prepared| && prepared[k] == log.entries[s];
          assert prepared[k].prePrepare == Some(v);
        }
      }
    }

    method ViewChange(m: Message) returns (sent: seq<Message>, ps: seq<Proposal>)
      requires Valid() && m.ViewChange? && ViewChanges(viewChangeMsgs.Values)
      modifies this, log, log.entries.Values
      ensures Valid() && Outcome(Model(), sent, None) == old(Model()).OnViewChange(m, ps)
      ensures old(Model()).CompletesViewChange(m) ==>
                IsNewViewSet(old(log.lastStable), old(Model()).CollectViewChange(m).Values, ps)
    {
      sent, ps := [], [];
      var newPrimary := PrimaryOf(m.newView, n);
      if newPrimary != id {
        return;
      }
      assert forall x :: x in viewChangeMsgs[m.from := m].Values ==> x == m || x in viewChangeMsgs.Values;
      viewChangeMsgs := viewChangeMsgs[m.from := m];
      assert Model() == old(Model()).(viewChangeMsgs := viewChangeMsgs);
      var count := |viewChangeMsgs|;
      if count == 2 * ((n - 1) / 3) {
        sent, ps := SendNewView(m.newView);
      }
    }

    method SendNewView(newView: nat) returns (sent: seq<Message>, ps: seq<Proposal>)
      requires Valid() && ViewChanges(viewChangeMsgs.Values)
      modifies this, log, log.entries.Values
      ensures Valid() && IsNewViewSet(old(log.lastStable), old(viewChangeMsgs).Values, ps)
      ensures Outcome(Model(), sent, None) == old(Model()).SendNewView(newView, ps)
    {
      var msgs := [];
      var rest := viewChangeMsgs.Keys;
      while rest != {}
        invariant rest <= viewChangeMsgs.Keys
        invariant forall x :: x in msgs <==> exists i :: i in viewChangeMsgs && i !in rest && viewChangeMsgs[i] == x
        decreases |rest|
      {
        var i :| i in rest;
        rest := rest - {i};
        msgs := msgs + [viewChangeMsgs[i]];
      }
      assert Elements(msgs) == viewChangeMsgs.Values;
      ps := BuildNewView(log.lastStable, msgs);
      var replayed := EnterNewView(newView, ps);
      sent := [Message.NewView(id, newView, ps)] + replayed;
    }

    method NewView(m: Message) returns (sent: seq<Message>)
      requires Valid() && m.NewView?
      modifies this, log, log.entries.Values
      ensures Valid() && Outcome(Model(), sent, None) == old(Model()).OnNewView(m)
    {
      sent := [];
      if m.from != PrimaryOf(m.newView, n) {
        return;
      }
      sent := EnterNewView(m.newView, m.proposals);
    }

    method EnterNewView(newView: nat, ps: seq<Proposal>) returns (sent: seq<Message>)
      requires Valid()
      modifies this, log, log.entries.Values
      ensures Valid() && Outcome(Model(), sent, None) == old(Model()).EnterNewView(newView, ps)
    {
      SwitchView(newView, ps);
      sent := Replay(ps);
    }

    method SwitchView(newView: nat, ps: seq<Proposal>)
      requires Valid()
      modifies this`view, this`primary, this`inViewChange, this`viewChangeMsgs, this`counter
      ensures Model() == old(Model()).InView(newView, MaxNum(ps))
    {
      ghost var before := log.Entries();
      view := newView;
      primary := id == PrimaryOf(newView, n);
      inViewChange := false;
      viewChangeMsgs := map[];
      var maxS := HighestNum(ps);
      if counter < maxS {
        counter := maxS;
      }
      EntriesAre(log, before);
    }

    method HighestNum(ps: seq<Proposal>) returns (maxS: nat)
      ensures maxS == MaxNum(ps)
    {
      maxS := 0;
      for i := 0 to |ps|
        invariant maxS == MaxNum(ps[..i])
      {
        assert ps[..i + 1][..i] == ps[..i];
        if ps[i].num > maxS {
          maxS := ps[i].num;
        }
      }
      assert ps[..|ps|] == ps;
    }

    method Replay(ps: seq<Proposal>) returns (sent: seq<Message>)
      requires Valid()
      modifies log, log.entries.Values
      ensures Valid() && Outcome(Model(), sent, None) == old(Model()).ReplayAll(ps)
    {
      sent := [];
      for i := 0 to |ps|
        invariant Valid() && Outcome(Model(), sent, None) == old(Model()).ReplayAll(ps[..i])
        invariant fresh(log.entries.Values - old(log.entries.Values))
      {
        assert ps[..i + 1][..i] == ps[..i];
        var more := ReplayOne(ps[i]);
        sent := sent + more;
      }
      assert ps[..|ps|] == ps;
    }

    method ReplayOne(p: Proposal) returns (sent: seq<Message>)
      requires Valid()
      modifies log, log.entries.Values
      ensures Valid() && Outcome(Model(), sent, None) == old(Model()).ReplayOne(p)
      ensures fresh(log.entries.Values - old(log.entries.Values))
    {
      sent := [];
      var within := log.WithinWaterMarks(p.num);
      if !within {
        return;
      }
      var first := TryRecordPrePrepare(p.num, 0);
      if primary {
        sent := [Message.PrePrepare(id, view, p.num, 0, p.digest)];
      } else if first {
        sent := [Message.Prepare(id, view, p.num, p.digest)];
      }
    }

    /** A joining replica replays the certificate it was served and adopts the view of its peer. */
    method SendStateTransfer(proof: seq<Message>, newView: nat)
      requires Valid() && CheckpointVotes(proof)
      modifies this`view, log
      ensures Valid() && Model()
          == old(Model()).(log := PbftLogProperties.Replay(old(Model()).log, proof, (n - 1) / 3), view := newView)
    {
      for i := 0 to |proof|
        invariant Valid() && log.Model() == PbftLogProperties.Replay(old(log.Model()), proof[..i], (n - 1) / 3)
        invariant log.entries.Values <= old(log.entries.Values)
      {
        assert proof[..i + 1][..i] == proof[..i];
        var stable, collected := log.RecordCheckpoint(proof[i], (n - 1) / 3);
      }
      assert proof[..|proof|] == proof;
      ghost var before := log.Entries();
      view := newView;
      EntriesAre(log, before);
    }

    method TakeDelivery()
      requires Valid() && deliverCh != []
      modifies this
      ensures Valid() && Outcome(Model(), [], None) == old(Model()).Take()
    {
      var e := deliverCh[0];
      deliverCh := deliverCh[1..];
      buffer := buffer.Add(e);
    }

    method DeliverNext() returns (sent: seq<Message>)
      requires Valid()
      modifies this`buffer, this`executed, log
      ensures Valid() && Outcome(Model(), sent, None) == old(Model()).DeliverNext()
    {
      sent := [];
      SkipExecuted();
      if buffer.next !in buffer.pending {
        return;
      }
      var e := Execute();
      if ShouldCheckpoint(e.num) {
        var vote := Message.Checkpoint(id, e.num, OfState(e.num));
        var stable, collected := log.RecordCheckpoint(vote, (n - 1) / 3);
        sent := [vote];
      }
    }

    /** Jumps over what a stable checkpoint made obsolete. */
    method SkipExecuted()
      requires Valid()
      modifies this`buffer
      ensures Valid() && Model() == old(Model()).(buffer := old(buffer).SkipTo(log.low))
    {
      ghost var before := log.Entries();
      if buffer.next <= log.low {
        var kept := Purge(buffer.pending, log.low);
        buffer := Buffer(log.low + 1, kept);
      }
      EntriesAre(log, before);
    }

    method Execute() returns (e: Delivery)
      requires Valid() && buffer.Ready()
      modifies this`buffer, this`executed
      ensures Valid() && e == old(buffer).pending[old(buffer).next]
      ensures Model() == old(Model()).(buffer := old(buffer).Pop(), executed := old(executed) + [e])
    {
      ghost var before := log.Entries();
      e := buffer.pending[buffer.next];
      buffer := Buffer(buffer.next + 1, buffer.pending - {buffer.next});
      executed := executed + [e];
      EntriesAre(log, before);
    }
  }
}
