/** Votes of one BFT-SMaRt consensus instance, counted against a reference vote that may be any recorded one. */
module BftSmartEntry {
  import opened Options

  /** Digests are injective hashes of a batch, or any other byte string. A request is its timestamp. */
  datatype Digest = OfBatch(batch: seq<int>) | Opaque(tag: nat)

  datatype Vote = Vote(view: nat, cid: nat, digest: Digest)

  /** Replicas whose recorded vote is `v`. */
  function Matching(votes: map<nat, Vote>, v: Vote): set<nat> {
    set i | i in votes && votes[i] == v
  }

  /** The reference is whichever entry a map iteration yields first: any key at all. */
  predicate Picks(votes: map<nat, Vote>, ref: nat) {
    votes != map[] ==> ref in votes
  }

  datatype Entry = Entry(
    cid: nat,
    view: nat,
    propose: Option<Vote>,
    batch: seq<int>,
    writes: map<nat, Vote>,
    accepts: map<nat, Vote>,
    sentWrite: bool,
    sentAccept: bool,
    written: bool,
    accepted: bool,
    executed: bool)
  {
    /** First proposal: record it with the replica's own write. */
    function RecordPropose(id: nat, atView: nat, newBatch: seq<int>, digest: Digest): (Entry, bool) {
      if sentWrite then (this, false)
      else
        var vote := Vote(atView, cid, digest);
        (this.(view := atView, batch := newBatch, sentWrite := true, propose := Some(vote),
            writes := writes[id := vote]),
         true)
    }

    /** True once, when 2f+1 writes equal the reference and the replica has sent its own. No reference, no result. */
    function CheckWritten(f: nat, ref: nat): (Entry, bool) {
      if written || ref !in writes then (this, false)
      else if sentWrite && |Matching(writes, writes[ref])| >= 2 * f + 1 then
        (this.(written := true, sentAccept := true), true)
      else (this, false)
    }

    /** True once, when 2f+1 accepts equal the reference. */
    function CheckAccepted(f: nat, ref: nat): (Entry, bool) {
      if accepted || ref !in accepts then (this, false)
      else if |Matching(accepts, accepts[ref])| >= 2 * f + 1 then (this.(accepted := true, executed := true), true)
      else (this, false)
    }

    function RecordWrite(f: nat, from: nat, vote: Vote, ref: nat): (Entry, bool) {
      if from in writes then (this, false) else this.(writes := writes[from := vote]).CheckWritten(f, ref)
    }

    function RecordAccept(f: nat, from: nat, vote: Vote, ref: nat): (Entry, bool) {
      if from in accepts then (this, false) else this.(accepts := accepts[from := vote]).CheckAccepted(f, ref)
    }
  }

  function FreshEntry(cid: nat): Entry {
    Entry(cid, 0, None, [], map[], map[], false, false, false, false, false)
  }

  /** Both checks: take some vote as the reference and count the votes that equal it. */
  method CountAgainstAny(votes: map<nat, Vote>) returns (ref: nat, matching: nat)
    requires votes != map[]
    ensures ref in votes && matching == |Matching(votes, votes[ref])|
  {
    var rest := votes.Keys;
    assert exists i :: i in votes;
    ref :| ref in votes;
    matching := 0;
    ghost var counted: set<nat> := {};
    while rest != {}
      invariant rest <= votes.Keys
      invariant forall i :: i in counted <==> i in votes && i !in rest && votes[i] == votes[ref]
      invariant matching == |counted|
      decreases |rest|
    {
      var i :| i in rest;
      rest := rest - {i};
      if votes[i].view == votes[ref].view && votes[i].cid == votes[ref].cid && votes[i].digest == votes[ref].digest {
        matching := matching + 1;
        counted := counted + {i};
      }
    }
    assert counted == Matching(votes, votes[ref]);
  }

  /** The mutable record of a consensus instance. The methods also report which vote served as the reference. */
  class ConsensusEntry {
    const cid: nat
    var view: nat
    var propose: Option<Vote>
    var batch: seq<int>
    var writes: map<nat, Vote>
    var accepts: map<nat, Vote>
    var sentWrite: bool
    var sentAccept: bool
    var written: bool
    var accepted: bool
    var executed: bool

    function Model(): Entry
      reads this
    {
      Entry(cid, view, propose, batch, writes, accepts, sentWrite, sentAccept, written, accepted, executed)
    }

    constructor (cid: nat)
      ensures Model() == FreshEntry(cid)
    {
      this.cid := cid;
      view, propose, batch := 0, None, [];
      writes, accepts := map[], map[];
      sentWrite, sentAccept, written, accepted, executed := false, false, false, false, false;
    }

    method RecordPropose(id: nat, atView: nat, newBatch: seq<int>, digest: Digest) returns (first: bool)
      modifies this
      ensures (Model(), first) == old(Model()).RecordPropose(id, atView, newBatch, digest)
    {
      if sentWrite {
        return false;
      }
      view := atView;
      batch := newBatch;
      sentWrite := true;
      propose := Some(Vote(atView, cid, digest));
      writes := writes[id := Vote(atView, cid, digest)];
      return true;
    }

    method CheckWritten(f: nat) returns (ok: bool, ref: nat)
      modifies this
      ensures Picks(old(writes), ref) && (Model(), ok) == old(Model()).CheckWritten(f, ref)
    {
      if writes == map[] {
        return false, 0;
      }
      var matching;
      ref, matching := CountAgainstAny(writes);
      if written {
        return false, ref;
      }
      if sentWrite && matching >= 2 * f + 1 {
        written := true;
        sentAccept := true;
        return true, ref;
      }
      return false, ref;
    }

    method CheckAccepted(f: nat) returns (ok: bool, ref: nat)
      modifies this
      ensures Picks(old(accepts), ref) && (Model(), ok) == old(Model()).CheckAccepted(f, ref)
    {
      if accepts == map[] {
        return false, 0;
      }
      var matching;
      ref, matching := CountAgainstAny(accepts);
      if accepted {
        return false, ref;
      }
      if matching >= 2 * f + 1 {
        accepted := true;
        executed := true;
        return true, ref;
      }
      return false, ref;
    }

    method RecordWrite(f: nat, from: nat, vote: Vote) returns (ok: bool, ref: nat)
      modifies this
      ensures from !in old(writes) ==> ref in writes
      ensures (Model(), ok) == old(Model()).RecordWrite(f, from, vote, ref)
    {
      if from in writes {
        return false, from;
      }
      writes := writes[from := vote];
      assert from in writes;
      ok, ref := CheckWritten(f);
    }

    method RecordAccept(f: nat, from: nat, vote: Vote) returns (ok: bool, ref: nat)
      modifies this
      ensures from !in old(accepts) ==> ref in accepts
      ensures (Model(), ok) == old(Model()).RecordAccept(f, from, vote, ref)
    {
      if from in accepts {
        return false, from;
      }
      accepts := accepts[from := vote];
      assert from in accepts;
      ok, ref := CheckAccepted(f);
    }
  }
}
