/** Votes collected for one sequence number, as values and as the mutable record the replica keeps. */
module PbftEntry {
  import opened Options
  import opened PbftMessages

  /** Replicas in `votes` whose recorded vote is `v`. */
  function Matching(votes: map<nat, Vote>, v: Vote): set<nat> {
    set i | i in votes && votes[i] == v
  }

  /** The counting loop of both checks: compare view, number and digest of every recorded vote. */
  method CountMatching(votes: map<nat, Vote>, v: Vote) returns (matching: nat)
    ensures matching == |Matching(votes, v)|
  {
    matching := 0;
    var rest := votes.Keys;
    ghost var counted: set<nat> := {};
    while rest != {}
      invariant rest <= votes.Keys
      invariant forall i :: i in counted <==> i in votes && i !in rest && votes[i] == v
      invariant matching == |counted|
      decreases |rest|
    {
      var i :| i in rest;
      rest := rest - {i};
      if votes[i].view == v.view && votes[i].num == v.num && votes[i].digest == v.digest {
        matching := matching + 1;
        counted := counted + {i};
      }
    }
    assert counted == Matching(votes, v);
  }

  datatype Entry = Entry(
    num: nat,
    ts: int,
    prePrepare: Option<Vote>,
    prepares: map<nat, Vote>,
    commits: map<nat, Vote>,
    sentPrepare: bool,
    sentCommit: bool,
    prepared: bool,
    committed: bool,
    executed: bool)
  {
    /** First pre-prepare for the number: record it and count the replica's own prepare. */
    function RecordPrePrepare(id: nat, view: nat, newTs: int): (Entry, bool) {
      if sentPrepare then (this, false)
      else
        var vote := Vote(view, num, OfRequest(newTs));
        (this.(ts := newTs, sentPrepare := true, prePrepare := Some(vote), prepares := prepares[id := vote]), true)
    }

    /** The entry becomes prepared once 2f recorded prepares match its pre-prepare. */
    function CheckPrepared(f: nat): (Entry, bool) {
      if prePrepare.None? || prepared then (this, false)
      else if sentPrepare && |Matching(prepares, prePrepare.value)| >= 2 * f
      then (this.(prepared := true, sentCommit := true), true)
      else (this, false)
    }

    /** A prepared entry commits once 2f+1 recorded commits match its pre-prepare. */
    function CheckCommitted(f: nat): (Entry, bool) {
      if prePrepare.None? || !prepared || committed then (this, false)
      else if |Matching(commits, prePrepare.value)| >= 2 * f + 1
      then (this.(committed := true, executed := true), true)
      else (this, false)
    }

    /** First prepare of a sender counts, later ones are dropped. */
    function TryPrepare(f: nat, from: nat, vote: Vote): (Entry, bool) {
      if from in prepares then (this, false)
      else this.(prepares := prepares[from := vote]).CheckPrepared(f)
    }

    function TryCommit(f: nat, from: nat, vote: Vote): (Entry, bool) {
      if from in commits then (this, false)
      else this.(commits := commits[from := vote]).CheckCommitted(f)
    }
  }

  function FreshEntry(num: nat): Entry {
    Entry(num, 0, None, map[], map[], false, false, false, false, false)
  }

  /** The replica's mutable record. The sequence number never changes, so distinct numbers mean distinct objects. */
  class LogEntry {
    const num: nat
    var ts: int
    var prePrepare: Option<Vote>
    var prepares: map<nat, Vote>
    var commits: map<nat, Vote>
    var sentPrepare: bool
    var sentCommit: bool
    var prepared: bool
    var committed: bool
    var executed: bool

    function Model(): Entry
      reads this
    {
      Entry(num, ts, prePrepare, prepares, commits, sentPrepare, sentCommit, prepared, committed, executed)
    }

    constructor (num: nat)
      ensures Model() == FreshEntry(num)
    {
      this.num := num;
      ts := 0;
      prePrepare := None;
      prepares, commits := map[], map[];
      sentPrepare, sentCommit, prepared, committed, executed := false, false, false, false, false;
    }

    method RecordPrePrepare(id: nat, view: nat, newTs: int) returns (first: bool)
      modifies this
      ensures (Model(), first) == old(Model()).RecordPrePrepare(id, view, newTs)
    {
      if sentPrepare {
        return false;
      }
      ts := newTs;
      sentPrepare := true;
      var digest := OfRequest(newTs);
      prePrepare := Some(Vote(view, num, digest));
      prepares := prepares[id := Vote(view, num, digest)];
      return true;
    }

    method CheckPrepared(f: nat) returns (ok: bool)
      modifies this
      ensures (Model(), ok) == old(Model()).CheckPrepared(f)
    {
      if prePrepare.None? {
        return false;
      }
      if prepared {
        return false;
      }
      var matching := CountMatching(prepares, prePrepare.value);
      if sentPrepare && matching >= 2 * f {
        prepared := true;
        sentCommit := true;
        return true;
      }
      return false;
    }

    method CheckCommitted(f: nat) returns (ok: bool)
      modifies this
      ensures (Model(), ok) == old(Model()).CheckCommitted(f)
    {
      if prePrepare.None? {
        return false;
      }
      if !prepared || committed {
        return false;
      }
      var matching := CountMatching(commits, prePrepare.value);
      if matching >= 2 * f + 1 {
        committed := true;
        executed := true;
        return true;
      }
      return false;
    }

    method TryPrepare(f: nat, from: nat, vote: Vote) returns (ok: bool)
      modifies this
      ensures (Model(), ok) == old(Model()).TryPrepare(f, from, vote)
    {
      if from in prepares {
        return false;
      }
      prepares := prepares[from := vote];
      ok := CheckPrepared(f);
    }

    method TryCommit(f: nat, from: nat, vote: Vote) returns (ok: bool)
      modifies this
      ensures (Model(), ok) == old(Model()).TryCommit(f, from, vote)
    {
      if from in commits {
        return false;
      }
      commits := commits[from := vote];
      ok := CheckCommitted(f);
    }
  }
}
