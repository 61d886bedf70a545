/** BFT-SMaRt replica: the three phases of one consensus instance inside one regency. */
module BftSmartReplica {
  import opened Options
  import opened BftSmartEntry

  const WATER_MARK_WINDOW := 200000

  datatype Message =
    | Propose(from: nat, cid: nat, view: nat, batch: seq<int>, digest: Digest)
    | Write(from: nat, cid: nat, view: nat, digest: Digest)
    | Accept(from: nat, cid: nat, view: nat, digest: Digest)
  {
    function Vote(): Vote { BftSmartEntry.Vote(view, cid, digest) }
  }

  /** An instance handed over for execution: the reference its accepts were counted against, and the batch. */
  datatype Decision = Decision(accepted: Vote, batch: seq<int>)

  datatype Outcome = Outcome(state: ReplicaState, sent: seq<Message>, decided: Option<Decision>)

  datatype ReplicaState = ReplicaState(
    id: nat,
    n: nat,
    view: nat,
    inViewChange: bool,
    counter: nat,
    entries: map<nat, Entry>,
    low: nat,
    high: nat,
    lastStable: nat)
  {
    function F(): nat
      requires n > 0
    {
      (n - 1) / 3
    }

    function Leader(): nat
      requires n > 0
    {
      view % n + 1
    }

    predicate WithinWaterMarks(cid: nat) {
      low < cid <= high
    }

    function At(cid: nat): Entry {
      if cid in entries then entries[cid] else FreshEntry(cid)
    }

    function Put(cid: nat, e: Entry): ReplicaState {
      this.(entries := entries[cid := e])
    }

    /** Whether a message is handled at all. */
    predicate Admits(m: Message)
      requires n > 0
    {
      !inViewChange && (m.Propose? ==> m.from == Leader()) && WithinWaterMarks(m.cid)
    }

    /** Instance cid after its accepts were checked against reference `ref`. */
    function Conclude(cid: nat, e: Entry, done: bool, ref: nat): Option<Decision> {
      if done && ref in e.accepts then Some(Decision(e.accepts[ref], e.batch)) else None
    }

    /** After the first proposal of an instance: the write goes out, and both quorums may already be there. */
    function Recheck(m: Message, writeRef: nat, acceptRef: nat): Outcome
      requires n > 0
    {
      var (e, ready) := At(m.cid).CheckWritten(F(), writeRef);
      if !ready then Outcome(Put(m.cid, e), [], None)
      else
        var (e', done) := e.CheckAccepted(F(), acceptRef);
        Outcome(Put(m.cid, e'), [Accept(id, m.cid, m.view, m.digest)], Conclude(m.cid, e', done, acceptRef))
    }

    /** The references that the checks pick are parameters: any of the recorded votes. */
    function OnPropose(m: Message, connected: bool, writeRef: nat, acceptRef: nat): Outcome
      requires n > 0 && m.Propose?
    {
      if !Admits(m) then Outcome(this, [], None)
      else
        var (e, first) := At(m.cid).RecordPropose(id, view, m.batch, m.digest);
        if !first || !connected then Outcome(Put(m.cid, e), [], None)
        else
          var o := Put(m.cid, e).Recheck(m, writeRef, acceptRef);
          o.(sent := [Write(id, m.cid, m.view, m.digest)] + o.sent)
    }

    function OnWrite(m: Message, connected: bool, writeRef: nat): Outcome
      requires n > 0 && m.Write?
    {
      if !Admits(m) then Outcome(this, [], None)
      else
        var (e, ready) := At(m.cid).RecordWrite(F(), m.from, m.Vote(), writeRef);
        Outcome(Put(m.cid, e), if ready && connected then [Accept(id, m.cid, m.view, m.digest)] else [], None)
    }

    function OnAccept(m: Message, acceptRef: nat): Outcome
      requires n > 0 && m.Accept?
    {
      if !Admits(m) then Outcome(this, [], None)
      else
        var (e, done) := At(m.cid).RecordAccept(F(), m.from, m.Vote(), acceptRef);
        Outcome(Put(m.cid, e), [], Conclude(m.cid, e, done, acceptRef))
    }

    /** One turn of the leader loop: the next instance is proposed with the digest of its batch. */
    function ProposeBatch(batch: seq<int>): Outcome {
      Outcome(this.(counter := counter + 1), [Propose(id, counter + 1, view, batch, OfBatch(batch))], None)
    }

    /** Execution moves the counter past the executed instance, never back. */
    function Executed(cid: nat): ReplicaState {
      if counter >= cid then this else this.(counter := cid)
    }

    /** A checkpoint above the last stable one becomes stable: water marks move, executed entries are discarded. */
    function Stabilize(cid: nat): ReplicaState {
      if cid <= lastStable then this
      else this.(lastStable := cid, low := cid, high := cid + WATER_MARK_WINDOW, entries := entries - Collectable(cid))
    }

    function Collectable(cid: nat): set<nat> {
      set c | c in entries && c <= cid && entries[c].executed
    }
  }

  function NewReplica(id: nat, n: nat, view: nat): ReplicaState {
    ReplicaState(id, n, view, false, 0, map[], 0, WATER_MARK_WINDOW, 0)
  }

  class BFTSmartServer {
    const id: nat
    const n: nat
    var view: nat
    var inViewChange: bool
    var counter: nat
    var entries: map<nat, ConsensusEntry>
    var low: nat
    var high: nat
    var lastStable: nat

    ghost predicate Valid()
      reads this
    {
      n > 0 && forall c :: c in entries ==> entries[c].cid == c
    }

    function Entries(): map<nat, Entry>
      reads this`entries, entries.Values
    {
      map c | c in entries :: entries[c].Model()
    }

    function Model(): ReplicaState
      reads this, entries.Values
    {
      ReplicaState(id, n, view, inViewChange, counter, Entries(), low, high, lastStable)
    }

    constructor (id: nat, n: nat, view: nat)
      requires n > 0
      ensures Valid() && Model() == NewReplica(id, n, view)
    {
      this.id, this.n, this.view := id, n, view;
      inViewChange, counter, entries := false, 0, map[];
      low, high, lastStable := 0, WATER_MARK_WINDOW, 0;
    }

    method GetOrCreate(cid: nat) returns (e: ConsensusEntry)
      requires Valid()
      modifies this`entries
      ensures Valid() && cid in entries && entries[cid] == e
      ensures cid in old(entries) ==> entries == old(entries)
      ensures cid !in old(entries) ==> fresh(e) && entries == old(entries)[cid := e]
      ensures Model() == old(Model()).Put(cid, old(Model()).At(cid)) && e.Model() == old(Model()).At(cid)
    {
      if cid in entries {
        e := entries[cid];
        assert Model().entries == Model().entries[cid := Model().At(cid)];
        return;
      }
      e := new ConsensusEntry(cid);
      entries := entries[cid := e];
      assert e.Model() == FreshEntry(cid);
      assert Model().entries == old(Model()).entries[cid := FreshEntry(cid)];
    }

    method RecordPropose(m: Message) returns (first: bool)
      requires Valid() && m.Propose?
      modifies this`entries, entries.Values
      ensures Valid() && fresh(entries.Values - old(entries.Values))
      ensures
        var (e, ok) := old(Model().At(m.cid)).RecordPropose(id, view, m.batch, m.digest);
        Model() == old(Model()).Put(m.cid, e) && first == ok
    {
      ghost var before := Model();
      var e := GetOrCreate(m.cid);
      assert forall c :: c in entries && c != m.cid ==> entries[c] != e;
      ghost var mid := Model();
      assert entries.Values <= old(entries.Values) + {e};
      first := e.RecordPropose(id, view, m.batch, m.digest);
      EntryChanged(this, mid.entries, m.cid);
      PutTwice(before, m.cid, before.At(m.cid), e.Model());
    }

    method RecordWrite(m: Message) returns (ready: bool, ref: nat)
      requires Valid() && m.Write?
      modifies this`entries, entries.Values
      ensures Valid()
      ensures Model() == old(Model())
        .Put(m.cid, old(Model()).At(m.cid).RecordWrite((n - 1) / 3, m.from, m.Vote(), ref).0)
      ensures ready == old(Model()).At(m.cid).RecordWrite((n - 1) / 3, m.from, m.Vote(), ref).1
    {
      ghost var before := Model();
      var e := GetOrCreate(m.cid);
      assert forall c :: c in entries && c != m.cid ==> entries[c] != e;
      ghost var mid := Model();
      ready, ref := e.RecordWrite((n - 1) / 3, m.from, m.Vote());
      EntryChanged(this, mid.entries, m.cid);
      PutTwice(before, m.cid, before.At(m.cid), e.Model());
    }

    method RecordAccept(m: Message) returns (decided: Option<Decision>, ref: nat)
      requires Valid() && m.Accept?
      modifies this`entries, entries.Values
      ensures Valid()
      ensures Model() == old(Model())
        .Put(m.cid, old(Model()).At(m.cid).RecordAccept((n - 1) / 3, m.from, m.Vote(), ref).0)
      ensures var (e, ok) := old(Model()).At(m.cid).RecordAccept((n - 1) / 3, m.from, m.Vote(), ref);
              decided == old(Model()).Conclude(m.cid, e, ok, ref)
    {
      ghost var before := Model();
      var e := GetOrCreate(m.cid);
      assert forall c :: c in entries && c != m.cid ==> entries[c] != e;
      var done;
      ghost var mid := Model();
      done, ref := e.RecordAccept((n - 1) / 3, m.from, m.Vote());
      EntryChanged(this, mid.entries, m.cid);
      PutTwice(before, m.cid, before.At(m.cid), e.Model());
      decided := if done && ref in e.accepts then Some(Decision(e.accepts[ref], e.batch)) else None;
    }

    method RecheckWritten(cid: nat) returns (ready: bool, ref: nat)
      requires Valid()
      modifies this`entries, entries.Values
      ensures Valid() && fresh(entries.Values - old(entries.Values))
      ensures var (e, ok) := old(Model()).At(cid).CheckWritten((n - 1) / 3, ref);
              Model() == old(Model()).Put(cid, e) && ready == ok
    {
      ghost var before := Model();
      var e := GetOrCreate(cid);
      assert forall c :: c in entries && c != cid ==> entries[c] != e;
      ghost var mid := Model();
      assert entries.Values <= old(entries.Values) + {e};
      ready, ref := e.CheckWritten((n - 1) / 3);
      EntryChanged(this, mid.entries, cid);
      PutTwice(before, cid, before.At(cid), e.Model());
    }

    method RecheckAccepted(cid: nat) returns (decided: Option<Decision>, ref: nat)
      requires Valid()
      modifies this`entries, entries.Values
      ensures Valid()
      ensures var (e, ok) := old(Model()).At(cid).CheckAccepted((n - 1) / 3, ref);
              Model() == old(Model()).Put(cid, e) && decided == old(Model()).Conclude(cid, e, ok, ref)
    {
      ghost var before := Model();
      var e := GetOrCreate(cid);
      assert forall c :: c in entries && c != cid ==> entries[c] != e;
      var done;
      ghost var mid := Model();
      done, ref := e.CheckAccepted((n - 1) / 3);
      EntryChanged(this, mid.entries, cid);
      PutTwice(before, cid, before.At(cid), e.Model());
      decided := if done && ref in e.accepts then Some(Decision(e.accepts[ref], e.batch)) else None;
    }

    method Admit(m: Message) returns (ok: bool)
      requires Valid()
      ensures ok == Model().Admits(m)
    {
      if inViewChange {
        return false;
      }
      if m.Propose? && m.from != view % n + 1 {
        return false;
      }
      return m.cid > low && m.cid <= high;
    }

    method HandleWrite(m: Message, connected: bool) returns (sent: seq<Message>, ref: nat)
      requires Valid() && m.Write?
      modifies this`entries, entries.Values
      ensures Valid() && Outcome(Model(), sent, None) == old(Model()).OnWrite(m, connected, ref)
    {
      var ok := Admit(m);
      if !ok {
        return [], 0;
      }
      var ready;
      ready, ref := RecordWrite(m);
      sent := if ready && connected then [Message.Accept(id, m.cid, m.view, m.digest)] else [];
    }

    method HandleAccept(m: Message) returns (decided: Option<Decision>, ref: nat)
      requires Valid() && m.Accept?
      modifies this`entries, entries.Values
      ensures Valid() && Outcome(Model(), [], decided) == old(Model()).OnAccept(m, ref)
    {
      var ok := Admit(m);
      if !ok {
        return None, 0;
      }
      decided, ref := RecordAccept(m);
    }

    method Recheck(m: Message) returns (sent: seq<Message>, decided: Option<Decision>, writeRef: nat, acceptRef: nat)
      requires Valid()
      modifies this`entries, entries.Values
      ensures Valid() && Outcome(Model(), sent, decided) == old(Model()).Recheck(m, writeRef, acceptRef)
    {
      sent, decided, acceptRef := [], None, 0;
      ghost var before := Model();
      var ready;
      ready, writeRef := RecheckWritten(m.cid);
      if ready {
        ghost var e := before.At(m.cid).CheckWritten((n - 1) / 3, writeRef).0;
        assert Model() == before.Put(m.cid, e) && Model().At(m.cid) == e;
        sent := [Message.Accept(id, m.cid, m.view, m.digest)];
        decided, acceptRef := RecheckAccepted(m.cid);
        PutTwice(before, m.cid, e, e.CheckAccepted((n - 1) / 3, acceptRef).0);
      }
    }

    method HandlePropose(m: Message, connected: bool)
      returns (sent: seq<Message>, decided: Option<Decision>, writeRef: nat, acceptRef: nat)
      requires Valid() && m.Propose?
      modifies this`entries, entries.Values
      ensures Valid() && Outcome(Model(), sent, decided) == old(Model()).OnPropose(m, connected, writeRef, acceptRef)
    {
      var ok := Admit(m);
      if !ok {
        return [], None, 0, 0;
      }
      var first := RecordPropose(m);
      if !first || !connected {
        return [], None, 0, 0;
      }
      sent, decided, writeRef, acceptRef := Recheck(m);
      sent := [Message.Write(id, m.cid, m.view, m.digest)] + sent;
    }

    method ProposeBatch(batch: seq<int>) returns (sent: seq<Message>)
      requires Valid()
      modifies this`counter
      ensures Valid() && Outcome(Model(), sent, None) == old(Model()).ProposeBatch(batch)
    {
      counter := counter + 1;
      assert Entries() == old(Entries());
      sent := [Message.Propose(id, counter, view, batch, OfBatch(batch))];
    }

    /** What execution does to the counter. */
    method AdvanceCounter(cid: nat)
      requires Valid()
      modifies this`counter
      ensures Valid() && Model() == old(Model()).Executed(cid)
    {
      if counter < cid {
        counter := cid;
      }
      assert Entries() == old(Entries());
    }

    /** Discards the executed entries at or below a number. */
    method Collect(cid: nat)
      requires Valid()
      modifies this`entries
      ensures Valid() && entries == old(entries) - old(Model()).Collectable(cid)
    {
      var rest := entries.Keys;
      ghost var gone: set<nat> := {};
      while rest != {}
        invariant rest <= old(entries).Keys && entries == old(entries) - gone
        invariant forall c :: c in gone <==> c in old(entries) && c !in rest && c <= cid && old(entries)[c].executed
        decreases |rest|
      {
        var c :| c in rest;
        rest := rest - {c};
        if c <= cid && entries[c].executed {
          entries := entries - {c};
          gone := gone + {c};
        }
      }
      assert gone == old(Model()).Collectable(cid);
    }

    /** Moves the water marks to a new stable checkpoint. */
    method Stabilize(cid: nat)
      requires Valid()
      modifies this`entries, this`lastStable, this`low, this`high
      ensures Valid() && Model() == old(Model()).Stabilize(cid)
    {
      ghost var before := Model();
      if cid <= lastStable {
        return;
      }
      SetWaterMarks(cid);
      Collect(cid);
      EntriesAre(this, before.entries - before.Collectable(cid));
    }

    method SetWaterMarks(cid: nat)
      requires Valid()
      modifies this`lastStable, this`low, this`high
      ensures Valid() && Model() == old(Model()).(lastStable := cid, low := cid, high := cid + WATER_MARK_WINDOW)
    {
      lastStable, low, high := cid, cid, cid + WATER_MARK_WINDOW;
      assert Entries() == old(Entries());
    }
  }

  lemma PutTwice(r: ReplicaState, cid: nat, e: Entry, e': Entry)
    ensures r.Put(cid, e).Put(cid, e') == r.Put(cid, e')
  {
    assert r.entries[cid := e][cid := e'] == r.entries[cid := e'];
  }

  /** Only the entry of one instance changed. */
  lemma EntryChanged(s: BFTSmartServer, m: map<nat, Entry>, cid: nat)
    requires cid in s.entries && m.Keys == s.entries.Keys
    requires forall c :: c in s.entries && c != cid ==> s.entries[c].Model() == m[c]
    ensures s.Entries() == m[cid := s.entries[cid].Model()]
  {
  }

  /** Recognises the entries of a server from their values one by one. */
  lemma EntriesAre(s: BFTSmartServer, m: map<nat, Entry>)
    requires m.Keys == s.entries.Keys
    requires forall c :: c in m ==> m[c] == s.entries[c].Model()
    ensures s.Entries() == m
  {
  }
}
