/** What a replica makes of the messages for one instance, whatever their order and the reference votes it picks. */
module BftSmartArrivals {
  import opened Options
  import opened BftSmartEntry
  import opened BftSmartReplica
  import opened Quorum

  // ---- Votes, counted from the list of arrivals ------------------------------------------------

  /** The votes that serve as references where an arrival makes the replica check the writes and the accepts. */
  datatype Refs = Refs(write: nat, accept: nat)

  /** The same sender speaks about the same instance in the same kind of message. */
  predicate SameVoice(m: Message, m': Message) {
    m.from == m'.from && m.cid == m'.cid && (m.Propose? <==> m'.Propose?) && (m.Write? <==> m'.Write?)
  }

  /** Only the first message of a voice counts. */
  ghost predicate First(ms: seq<Message>, k: nat) {
    k < |ms| && forall i :: 0 <= i < k ==> !SameVoice(ms[i], ms[k])
  }

  /** An accept for the instance, or a write. */
  predicate Speaks(m: Message, accept: bool, cid: nat) {
    m.cid == cid && if accept then m.Accept? else m.Write?
  }

  ghost predicate SaidAt(ms: seq<Message>, k: nat, accept: bool, cid: nat, j: nat, v: Vote) {
    First(ms, k) && Speaks(ms[k], accept, cid) && ms[k].from == j && ms[k].Vote() == v
  }

  /** The first accept, or write, of replica j for the instance is `v`. */
  ghost predicate Said(ms: seq<Message>, accept: bool, cid: nat, j: nat, v: Vote) {
    exists k: nat :: SaidAt(ms, k, accept, cid, j, v)
  }

  ghost function Senders(ms: seq<Message>): set<nat> {
    set k | 0 <= k < |ms| :: ms[k].from
  }

  /** One instance at one replica that works in its view. */
  datatype Seat = Seat(id: nat, n: nat, view: nat, cid: nat)
  {
    ghost function F(): nat { if n == 0 then 0 else (n - 1) / 3 }

    /** The leader's first proposal for the instance. */
    ghost predicate Opens(ms: seq<Message>, k: nat) {
      n > 0 && First(ms, k) && ms[k].Propose? && ms[k].cid == cid && ms[k].from == view % n + 1
    }

    ghost predicate Opened(ms: seq<Message>) {
      exists k: nat :: Opens(ms, k)
    }

    ghost predicate Proposes(ms: seq<Message>, v: Vote) {
      exists k: nat :: Opens(ms, k) && v == Vote(view, cid, ms[k].digest)
    }

    /** The replica itself writes what was proposed, under its own view; the others what they said first. */
    ghost predicate Wrote(ms: seq<Message>, j: nat, v: Vote) {
      if j == id && Opened(ms) then Proposes(ms, v) else Said(ms, false, cid, j, v)
    }

    ghost predicate Accepts(ms: seq<Message>, j: nat, v: Vote) {
      Said(ms, true, cid, j, v)
    }

    ghost function Writers(ms: seq<Message>, v: Vote): set<nat> {
      set j | j in Senders(ms) + {id} && Wrote(ms, j, v)
    }

    ghost function Accepters(ms: seq<Message>, v: Vote): set<nat> {
      set j | j in Senders(ms) && Accepts(ms, j, v)
    }

    /** Arrival k makes the replica check the writes: it is the proposal, or a write that is kept. */
    ghost predicate LooksAtWrites(ms: seq<Message>, k: nat) {
      || Opens(ms, k)
      || (First(ms, k) && Speaks(ms[k], false, cid) && !(ms[k].from == id && Opened(ms[..k])))
    }

    ghost predicate WritesAgree(ms: seq<Message>, ref: nat) {
      Opened(ms) && exists v :: Wrote(ms, ref, v) && |Writers(ms, v)| >= 2 * F() + 1
    }

    ghost predicate WritesComplete(ms: seq<Message>, refs: seq<Refs>, k: nat) {
      k < |ms| == |refs| && LooksAtWrites(ms, k) && WritesAgree(ms[..k + 1], refs[k].write)
    }

    ghost predicate Written(ms: seq<Message>, refs: seq<Refs>) {
      exists k: nat :: WritesComplete(ms, refs, k)
    }

    /** Arrival k makes the replica check the accepts: it is one, or the proposal that completes the writes. */
    ghost predicate LooksAtAccepts(ms: seq<Message>, refs: seq<Refs>, k: nat) {
      (First(ms, k) && Speaks(ms[k], true, cid)) || (Opens(ms, k) && WritesComplete(ms, refs, k))
    }

    ghost predicate AcceptsAgree(ms: seq<Message>, ref: nat) {
      exists v :: Accepts(ms, ref, v) && |Accepters(ms, v)| >= 2 * F() + 1
    }

    ghost predicate AcceptsComplete(ms: seq<Message>, refs: seq<Refs>, k: nat) {
      k < |ms| == |refs| && LooksAtAccepts(ms, refs, k) && AcceptsAgree(ms[..k + 1], refs[k].accept)
    }

    ghost predicate Accepted(ms: seq<Message>, refs: seq<Refs>) {
      exists k: nat :: AcceptsComplete(ms, refs, k)
    }
  }

  // ---- One more arrival ------------------------------------------------------------------------

  ghost predicate IsNew(ms: seq<Message>, m: Message) {
    forall i :: 0 <= i < |ms| ==> !SameVoice(ms[i], m)
  }

  lemma FirstGrows(ms: seq<Message>, m: Message, k: nat)
    requires k < |ms|
    ensures First(ms + [m], k) <==> First(ms, k)
    ensures (ms + [m])[k] == ms[k]
  {
    var all := ms + [m];
    assert forall i :: 0 <= i <= k ==> all[i] == ms[i];
  }

  lemma NewIsFirst(ms: seq<Message>, m: Message)
    ensures First(ms + [m], |ms|) <==> IsNew(ms, m)
  {
    var all := ms + [m];
    assert forall i :: 0 <= i < |ms| ==> all[i] == ms[i];
  }

  /** Where a voice is heard again there was a first time. */
  lemma {:induction false} FirstTime(ms: seq<Message>, m: Message, i: nat) returns (k: nat)
    requires i < |ms| && SameVoice(ms[i], m)
    ensures First(ms, k) && SameVoice(ms[k], m)
    decreases i
  {
    if j :| 0 <= j < i && SameVoice(ms[j], m) {
      k := FirstTime(ms, m, j);
    } else {
      k := i;
    }
  }

  /** The new arrival is kept as the accept, or write, of j. */
  ghost predicate SaysNow(ms: seq<Message>, m: Message, accept: bool, cid: nat, j: nat, v: Vote) {
    IsNew(ms, m) && Speaks(m, accept, cid) && m.from == j && m.Vote() == v
  }

  lemma SaidGrows(ms: seq<Message>, m: Message, accept: bool, cid: nat, j: nat, v: Vote)
    ensures Said(ms + [m], accept, cid, j, v) <==>
              Said(ms, accept, cid, j, v) || SaysNow(ms, m, accept, cid, j, v)
  {
    var all := ms + [m];
    NewIsFirst(ms, m);
    assert SaidAt(all, |ms|, accept, cid, j, v) <==> SaysNow(ms, m, accept, cid, j, v);
    forall k: nat | k < |ms|
      ensures SaidAt(all, k, accept, cid, j, v) <==> SaidAt(ms, k, accept, cid, j, v)
    {
      FirstGrows(ms, m, k);
    }
    if Said(ms, accept, cid, j, v) {
      var k: nat :| SaidAt(ms, k, accept, cid, j, v);
      assert SaidAt(all, k, accept, cid, j, v);
    }
    if Said(all, accept, cid, j, v) {
      var k: nat :| SaidAt(all, k, accept, cid, j, v);
      assert k < |ms| ==> SaidAt(ms, k, accept, cid, j, v);
    }
  }

  ghost predicate OpensNow(seat: Seat, ms: seq<Message>, m: Message) {
    seat.n > 0 && IsNew(ms, m) && m.Propose? && m.cid == seat.cid && m.from == seat.view % seat.n + 1
  }

  lemma OpensGrows(seat: Seat, ms: seq<Message>, m: Message, k: nat)
    requires k <= |ms|
    ensures seat.Opens(ms + [m], k) <==> if k < |ms| then seat.Opens(ms, k) else OpensNow(seat, ms, m)
  {
    NewIsFirst(ms, m);
    if k < |ms| {
      FirstGrows(ms, m, k);
    }
  }

  lemma OpenedGrows(seat: Seat, ms: seq<Message>, m: Message)
    ensures seat.Opened(ms + [m]) <==> seat.Opened(ms) || OpensNow(seat, ms, m)
  {
    var all := ms + [m];
    OpensGrows(seat, ms, m, |ms|);
    forall k: nat | k < |ms|
      ensures seat.Opens(all, k) <==> seat.Opens(ms, k)
    {
      OpensGrows(seat, ms, m, k);
    }
    if seat.Opened(ms) {
      var k: nat :| seat.Opens(ms, k);
      assert seat.Opens(all, k);
    }
  }

  lemma ProposesGrows(seat: Seat, ms: seq<Message>, m: Message, v: Vote)
    ensures seat.Proposes(ms + [m], v) <==>
              seat.Proposes(ms, v) || (OpensNow(seat, ms, m) && v == Vote(seat.view, seat.cid, m.digest))
  {
    var all := ms + [m];
    OpensGrows(seat, ms, m, |ms|);
    forall k: nat | k < |ms|
      ensures seat.Opens(all, k) <==> seat.Opens(ms, k)
      ensures all[k] == ms[k]
    {
      OpensGrows(seat, ms, m, k);
    }
    if seat.Proposes(ms, v) {
      var k: nat :| seat.Opens(ms, k) && v == Vote(seat.view, seat.cid, ms[k].digest);
      assert seat.Opens(all, k) && all[k] == ms[k];
    }
    if seat.Proposes(all, v) {
      var k: nat :| seat.Opens(all, k) && v == Vote(seat.view, seat.cid, all[k].digest);
      assert k < |ms| ==> seat.Opens(ms, k) && all[k] == ms[k];
    }
  }

  /** There is at most one opening. */
  lemma OpensOnce(seat: Seat, ms: seq<Message>, m: Message)
    requires OpensNow(seat, ms, m)
    ensures !seat.Opened(ms)
  {
    assert forall k: nat :: k < |ms| && ms[k].Propose? && ms[k].cid == seat.cid ==> ms[k].from != m.from;
  }

  /** A write that is kept: the first of its sender, unless the replica has written itself. */
  ghost predicate KeepsWrite(seat: Seat, ms: seq<Message>, m: Message) {
    IsNew(ms, m) && Speaks(m, false, seat.cid) && !(m.from == seat.id && seat.Opened(ms))
  }

  ghost predicate KeepsAccept(seat: Seat, ms: seq<Message>, m: Message) {
    IsNew(ms, m) && Speaks(m, true, seat.cid)
  }

  ghost predicate WritesCompleteNow(seat: Seat, ms: seq<Message>, m: Message, r: Refs) {
    (OpensNow(seat, ms, m) || KeepsWrite(seat, ms, m)) && seat.WritesAgree(ms + [m], r.write)
  }

  ghost predicate AcceptsCompleteNow(seat: Seat, ms: seq<Message>, m: Message, r: Refs) {
    && (KeepsAccept(seat, ms, m) || (OpensNow(seat, ms, m) && WritesCompleteNow(seat, ms, m, r)))
    && seat.AcceptsAgree(ms + [m], r.accept)
  }

  lemma WritesCompleteGrows(seat: Seat, ms: seq<Message>, refs: seq<Refs>, m: Message, r: Refs, k: nat)
    requires |ms| == |refs| && k <= |ms|
    ensures seat.WritesComplete(ms + [m], refs + [r], k) <==>
              if k < |ms| then seat.WritesComplete(ms, refs, k) else WritesCompleteNow(seat, ms, m, r)
  {
    var all := ms + [m];
    OpensGrows(seat, ms, m, k);
    if k < |ms| {
      FirstGrows(ms, m, k);
      assert all[..k] == ms[..k] && all[..k + 1] == ms[..k + 1];
    } else {
      NewIsFirst(ms, m);
      assert all[..k] == ms && all[..k + 1] == all;
    }
  }

  lemma WrittenGrows(seat: Seat, ms: seq<Message>, refs: seq<Refs>, m: Message, r: Refs)
    requires |ms| == |refs|
    ensures seat.Written(ms + [m], refs + [r]) <==> seat.Written(ms, refs) || WritesCompleteNow(seat, ms, m, r)
  {
    var all, allRefs := ms + [m], refs + [r];
    WritesCompleteGrows(seat, ms, refs, m, r, |ms|);
    forall k: nat | k < |ms|
      ensures seat.WritesComplete(all, allRefs, k) <==> seat.WritesComplete(ms, refs, k)
    {
      WritesCompleteGrows(seat, ms, refs, m, r, k);
    }
    if seat.Written(ms, refs) {
      var k: nat :| seat.WritesComplete(ms, refs, k);
      assert seat.WritesComplete(all, allRefs, k);
    }
    if seat.Written(all, allRefs) {
      var k: nat :| seat.WritesComplete(all, allRefs, k);
      assert k < |ms| ==> seat.WritesComplete(ms, refs, k);
    }
  }

  lemma AcceptsCompleteGrows(seat: Seat, ms: seq<Message>, refs: seq<Refs>, m: Message, r: Refs, k: nat)
    requires |ms| == |refs| && k <= |ms|
    ensures seat.AcceptsComplete(ms + [m], refs + [r], k) <==>
              if k < |ms| then seat.AcceptsComplete(ms, refs, k) else AcceptsCompleteNow(seat, ms, m, r)
  {
    var all := ms + [m];
    OpensGrows(seat, ms, m, k);
    WritesCompleteGrows(seat, ms, refs, m, r, k);
    if k < |ms| {
      FirstGrows(ms, m, k);
      assert all[..k + 1] == ms[..k + 1];
    } else {
      NewIsFirst(ms, m);
      assert all[..k + 1] == all;
    }
  }

  lemma AcceptedGrows(seat: Seat, ms: seq<Message>, refs: seq<Refs>, m: Message, r: Refs)
    requires |ms| == |refs|
    ensures seat.Accepted(ms + [m], refs + [r]) <==> seat.Accepted(ms, refs) || AcceptsCompleteNow(seat, ms, m, r)
  {
    var all, allRefs := ms + [m], refs + [r];
    AcceptsCompleteGrows(seat, ms, refs, m, r, |ms|);
    forall k: nat | k < |ms|
      ensures seat.AcceptsComplete(all, allRefs, k) <==> seat.AcceptsComplete(ms, refs, k)
    {
      AcceptsCompleteGrows(seat, ms, refs, m, r, k);
    }
    if seat.Accepted(ms, refs) {
      var k: nat :| seat.AcceptsComplete(ms, refs, k);
      assert seat.AcceptsComplete(all, allRefs, k);
    }
    if seat.Accepted(all, allRefs) {
      var k: nat :| seat.AcceptsComplete(all, allRefs, k);
      assert k < |ms| ==> seat.AcceptsComplete(ms, refs, k);
    }
  }

  // ---- The entry says what arrived -------------------------------------------------------------

  predicate Has(votes: map<nat, Vote>, j: nat, v: Vote) {
    j in votes && votes[j] == v
  }

  ghost predicate HoldsProposal(e: Entry, ms: seq<Message>, seat: Seat) {
    && e.cid == seat.cid && (e.sentWrite <==> seat.Opened(ms))
    && (forall v :: e.propose == Some(v) <==> seat.Proposes(ms, v))
    && (forall k: nat :: seat.Opens(ms, k) ==> e.batch == ms[k].batch)
    && (!seat.Opened(ms) ==> e.batch == [])
  }

  ghost predicate HoldsWrites(writes: map<nat, Vote>, ms: seq<Message>, seat: Seat) {
    forall j, v :: Has(writes, j, v) <==> seat.Wrote(ms, j, v)
  }

  ghost predicate HoldsAccepts(accepts: map<nat, Vote>, ms: seq<Message>, seat: Seat) {
    forall j, v :: Has(accepts, j, v) <==> seat.Accepts(ms, j, v)
  }

  ghost predicate Holds(e: Entry, ms: seq<Message>, refs: seq<Refs>, seat: Seat) {
    && HoldsProposal(e, ms, seat) && HoldsWrites(e.writes, ms, seat) && HoldsAccepts(e.accepts, ms, seat)
    && (e.written <==> seat.Written(ms, refs)) && (e.accepted <==> seat.Accepted(ms, refs))
    && e.sentAccept == e.written && e.executed == e.accepted
  }

  lemma SaidIsSent(ms: seq<Message>, accept: bool, cid: nat, j: nat, v: Vote)
    requires Said(ms, accept, cid, j, v)
    ensures j in Senders(ms)
  {
    var k: nat :| SaidAt(ms, k, accept, cid, j, v);
  }

  lemma MatchingIsWriters(writes: map<nat, Vote>, ms: seq<Message>, seat: Seat, v: Vote)
    requires HoldsWrites(writes, ms, seat)
    ensures Matching(writes, v) == seat.Writers(ms, v)
  {
    forall j
      ensures j in Matching(writes, v) <==> j in seat.Writers(ms, v)
    {
      assert Has(writes, j, v) <==> seat.Wrote(ms, j, v);
      if seat.Wrote(ms, j, v) && j != seat.id {
        SaidIsSent(ms, false, seat.cid, j, v);
      }
    }
  }

  lemma MatchingIsAccepters(accepts: map<nat, Vote>, ms: seq<Message>, seat: Seat, v: Vote)
    requires HoldsAccepts(accepts, ms, seat)
    ensures Matching(accepts, v) == seat.Accepters(ms, v)
  {
    forall j
      ensures j in Matching(accepts, v) <==> j in seat.Accepters(ms, v)
    {
      assert Has(accepts, j, v) <==> seat.Accepts(ms, j, v);
      if seat.Accepts(ms, j, v) {
        SaidIsSent(ms, true, seat.cid, j, v);
      }
    }
  }

  /** The write check, against the list. */
  lemma ChecksWrites(e: Entry, ms: seq<Message>, seat: Seat, ref: nat)
    requires HoldsWrites(e.writes, ms, seat) && (e.sentWrite <==> seat.Opened(ms))
    ensures
      e.CheckWritten(seat.F(), ref) ==
        if !e.written && seat.WritesAgree(ms, ref) then (e.(written := true, sentAccept := true), true) else (e, false)
  {
    if ref in e.writes {
      var v := e.writes[ref];
      MatchingIsWriters(e.writes, ms, seat, v);
      assert Has(e.writes, ref, v) && seat.Wrote(ms, ref, v);
      assert forall w :: seat.Wrote(ms, ref, w) ==> Has(e.writes, ref, w);
    } else {
      assert forall w :: seat.Wrote(ms, ref, w) ==> Has(e.writes, ref, w);
    }
  }

  /** The accept check, against the list. */
  lemma ChecksAccepts(e: Entry, ms: seq<Message>, seat: Seat, ref: nat)
    requires HoldsAccepts(e.accepts, ms, seat)
    ensures
      e.CheckAccepted(seat.F(), ref) ==
        if !e.accepted && seat.AcceptsAgree(ms, ref) then (e.(accepted := true, executed := true), true) else (e, false)
  {
    if ref in e.accepts {
      var v := e.accepts[ref];
      MatchingIsAccepters(e.accepts, ms, seat, v);
      assert Has(e.accepts, ref, v) && seat.Accepts(ms, ref, v);
      assert forall w :: seat.Accepts(ms, ref, w) ==> Has(e.accepts, ref, w);
    } else {
      assert forall w :: seat.Accepts(ms, ref, w) ==> Has(e.accepts, ref, w);
    }
  }

  // ---- Each kind of arrival keeps that ---------------------------------------------------------

  /** Neither the proposal nor a write that is kept. */
  lemma WritesStay(writes: map<nat, Vote>, ms: seq<Message>, m: Message, seat: Seat)
    requires HoldsWrites(writes, ms, seat) && !OpensNow(seat, ms, m) && !KeepsWrite(seat, ms, m)
    ensures HoldsWrites(writes, ms + [m], seat)
  {
    OpenedGrows(seat, ms, m);
    forall j, v
      ensures Has(writes, j, v) <==> seat.Wrote(ms + [m], j, v)
    {
      ProposesGrows(seat, ms, m, v);
      SaidGrows(ms, m, false, seat.cid, j, v);
      assert Has(writes, j, v) <==> seat.Wrote(ms, j, v);
    }
  }

  lemma AcceptsStay(accepts: map<nat, Vote>, ms: seq<Message>, m: Message, seat: Seat)
    requires HoldsAccepts(accepts, ms, seat) && !KeepsAccept(seat, ms, m)
    ensures HoldsAccepts(accepts, ms + [m], seat)
  {
    forall j, v
      ensures Has(accepts, j, v) <==> seat.Accepts(ms + [m], j, v)
    {
      SaidGrows(ms, m, true, seat.cid, j, v);
      assert Has(accepts, j, v) <==> seat.Accepts(ms, j, v);
    }
  }

  lemma ProposalStays(e: Entry, e': Entry, ms: seq<Message>, m: Message, seat: Seat)
    requires HoldsProposal(e, ms, seat) && !OpensNow(seat, ms, m)
    requires e'.cid == e.cid && e'.sentWrite == e.sentWrite && e'.propose == e.propose && e'.batch == e.batch
    ensures HoldsProposal(e', ms + [m], seat)
  {
    var all := ms + [m];
    OpenedGrows(seat, ms, m);
    forall v
      ensures e'.propose == Some(v) <==> seat.Proposes(all, v)
    {
      ProposesGrows(seat, ms, m, v);
    }
    forall k: nat | seat.Opens(all, k)
      ensures e'.batch == all[k].batch
    {
      OpensGrows(seat, ms, m, k);
    }
  }

  /** Nothing that can count for the instance. */
  ghost predicate Idle(seat: Seat, ms: seq<Message>, m: Message) {
    !OpensNow(seat, ms, m) && !KeepsWrite(seat, ms, m) && !KeepsAccept(seat, ms, m)
  }

  lemma IdleKeeps(e: Entry, ms: seq<Message>, refs: seq<Refs>, m: Message, r: Refs, seat: Seat)
    requires |ms| == |refs| && Holds(e, ms, refs, seat) && Idle(seat, ms, m)
    ensures Holds(e, ms + [m], refs + [r], seat)
    ensures seat.Written(ms + [m], refs + [r]) <==> seat.Written(ms, refs)
    ensures seat.Accepted(ms + [m], refs + [r]) <==> seat.Accepted(ms, refs)
  {
    ProposalStays(e, e, ms, m, seat);
    WritesStay(e.writes, ms, m, seat);
    AcceptsStay(e.accepts, ms, m, seat);
    WrittenGrows(seat, ms, refs, m, r);
    AcceptedGrows(seat, ms, refs, m, r);
  }

  /** A voice heard before said something. */
  lemma SaidBefore(ms: seq<Message>, m: Message, accept: bool, cid: nat) returns (v: Vote)
    requires !IsNew(ms, m) && Speaks(m, accept, cid)
    ensures Said(ms, accept, cid, m.from, v)
  {
    var i: nat :| i < |ms| && SameVoice(ms[i], m);
    var k := FirstTime(ms, m, i);
    v := ms[k].Vote();
    assert SaidAt(ms, k, accept, cid, m.from, v);
  }

  /** A new voice said nothing yet. */
  lemma SilentBefore(ms: seq<Message>, m: Message, accept: bool, cid: nat, v: Vote)
    requires IsNew(ms, m) && Speaks(m, accept, cid)
    ensures !Said(ms, accept, cid, m.from, v)
  {
    assert forall k: nat :: k < |ms| && Speaks(ms[k], accept, cid) ==> ms[k].from != m.from;
  }

  /** The sender of a write is in the entry exactly if the write is not kept. */
  lemma WriterKnown(e: Entry, ms: seq<Message>, m: Message, seat: Seat)
    requires HoldsWrites(e.writes, ms, seat) && HoldsProposal(e, ms, seat) && Speaks(m, false, seat.cid)
    ensures m.from !in e.writes <==> KeepsWrite(seat, ms, m)
  {
    if m.from == seat.id && seat.Opened(ms) {
      var k: nat :| seat.Opens(ms, k);
      assert seat.Wrote(ms, m.from, Vote(seat.view, seat.cid, ms[k].digest));
      assert Has(e.writes, m.from, Vote(seat.view, seat.cid, ms[k].digest));
    } else if IsNew(ms, m) {
      if m.from in e.writes {
        assert Has(e.writes, m.from, e.writes[m.from]);
        SilentBefore(ms, m, false, seat.cid, e.writes[m.from]);
      }
    } else {
      var v := SaidBefore(ms, m, false, seat.cid);
      assert seat.Wrote(ms, m.from, v) && Has(e.writes, m.from, v);
    }
  }

  lemma AccepterKnown(accepts: map<nat, Vote>, ms: seq<Message>, m: Message, seat: Seat)
    requires HoldsAccepts(accepts, ms, seat) && Speaks(m, true, seat.cid)
    ensures m.from !in accepts <==> KeepsAccept(seat, ms, m)
  {
    if IsNew(ms, m) {
      if m.from in accepts {
        assert Has(accepts, m.from, accepts[m.from]);
        SilentBefore(ms, m, true, seat.cid, accepts[m.from]);
      }
    } else {
      var v := SaidBefore(ms, m, true, seat.cid);
      assert seat.Accepts(ms, m.from, v) && Has(accepts, m.from, v);
    }
  }

  lemma WriteAdded(writes: map<nat, Vote>, ms: seq<Message>, m: Message, seat: Seat)
    requires HoldsWrites(writes, ms, seat) && KeepsWrite(seat, ms, m)
    ensures HoldsWrites(writes[m.from := m.Vote()], ms + [m], seat)
  {
    OpenedGrows(seat, ms, m);
    forall j, v
      ensures Has(writes[m.from := m.Vote()], j, v) <==> seat.Wrote(ms + [m], j, v)
    {
      ProposesGrows(seat, ms, m, v);
      SaidGrows(ms, m, false, seat.cid, j, v);
      SilentBefore(ms, m, false, seat.cid, v);
      assert Has(writes, j, v) <==> seat.Wrote(ms, j, v);
    }
  }

  lemma AcceptAdded(accepts: map<nat, Vote>, ms: seq<Message>, m: Message, seat: Seat)
    requires HoldsAccepts(accepts, ms, seat) && KeepsAccept(seat, ms, m)
    ensures HoldsAccepts(accepts[m.from := m.Vote()], ms + [m], seat)
  {
    forall j, v
      ensures Has(accepts[m.from := m.Vote()], j, v) <==> seat.Accepts(ms + [m], j, v)
    {
      SaidGrows(ms, m, true, seat.cid, j, v);
      SilentBefore(ms, m, true, seat.cid, v);
      assert Has(accepts, j, v) <==> seat.Accepts(ms, j, v);
    }
  }

  lemma WriteKeeps(e: Entry, ms: seq<Message>, refs: seq<Refs>, m: Message, r: Refs, seat: Seat)
    requires |ms| == |refs| && Holds(e, ms, refs, seat) && Speaks(m, false, seat.cid)
    ensures
      var (e', ready) := e.RecordWrite(seat.F(), m.from, m.Vote(), r.write);
      && Holds(e', ms + [m], refs + [r], seat) && (seat.Accepted(ms + [m], refs + [r]) <==> seat.Accepted(ms, refs))
      && (ready <==> seat.Written(ms + [m], refs + [r]) && !seat.Written(ms, refs))
  {
    WriterKnown(e, ms, m, seat);
    if KeepsWrite(seat, ms, m) {
      var e1 := e.(writes := e.writes[m.from := m.Vote()]);
      WriteAdded(e.writes, ms, m, seat);
      ProposalStays(e, e1, ms, m, seat);
      AcceptsStay(e.accepts, ms, m, seat);
      WrittenGrows(seat, ms, refs, m, r);
      AcceptedGrows(seat, ms, refs, m, r);
      ChecksWrites(e1, ms + [m], seat, r.write);
    } else {
      IdleKeeps(e, ms, refs, m, r, seat);
    }
  }

  lemma AcceptKeeps(e: Entry, ms: seq<Message>, refs: seq<Refs>, m: Message, r: Refs, seat: Seat)
    requires |ms| == |refs| && Holds(e, ms, refs, seat) && Speaks(m, true, seat.cid)
    ensures
      var (e', done) := e.RecordAccept(seat.F(), m.from, m.Vote(), r.accept);
      && Holds(e', ms + [m], refs + [r], seat) && (seat.Written(ms + [m], refs + [r]) <==> seat.Written(ms, refs))
      && (done <==> seat.Accepted(ms + [m], refs + [r]) && !seat.Accepted(ms, refs))
  {
    AccepterKnown(e.accepts, ms, m, seat);
    if KeepsAccept(seat, ms, m) {
      var e1 := e.(accepts := e.accepts[m.from := m.Vote()]);
      AcceptAdded(e.accepts, ms, m, seat);
      ProposalStays(e, e1, ms, m, seat);
      WritesStay(e.writes, ms, m, seat);
      WrittenGrows(seat, ms, refs, m, r);
      AcceptedGrows(seat, ms, refs, m, r);
      ChecksAccepts(e1, ms + [m], seat, r.accept);
    } else {
      IdleKeeps(e, ms, refs, m, r, seat);
    }
  }

  // ---- The proposal ----------------------------------------------------------------------------

  lemma OpenedLater(seat: Seat, ms: seq<Message>, k: nat)
    requires k <= |ms| && seat.Opened(ms[..k])
    ensures seat.Opened(ms)
  {
    var i: nat :| seat.Opens(ms[..k], i);
    assert forall j :: 0 <= j <= i ==> ms[..k][j] == ms[j];
    assert seat.Opens(ms, i);
  }

  /** Nothing is written before the proposal. */
  lemma NothingWritten(seat: Seat, ms: seq<Message>, refs: seq<Refs>)
    requires !seat.Opened(ms)
    ensures !seat.Written(ms, refs)
  {
    if k: nat :| seat.WritesComplete(ms, refs, k) {
      OpenedLater(seat, ms, k + 1);
    }
  }

  lemma NothingProposed(seat: Seat, ms: seq<Message>, v: Vote)
    requires !seat.Opened(ms)
    ensures !seat.Proposes(ms, v)
  {
    assert forall k: nat :: !seat.Opens(ms, k);
  }

  lemma OwnWriteAdded(writes: map<nat, Vote>, ms: seq<Message>, m: Message, seat: Seat)
    requires HoldsWrites(writes, ms, seat) && OpensNow(seat, ms, m)
    ensures HoldsWrites(writes[seat.id := Vote(seat.view, seat.cid, m.digest)], ms + [m], seat)
  {
    OpensOnce(seat, ms, m);
    OpenedGrows(seat, ms, m);
    forall j, v
      ensures Has(writes[seat.id := Vote(seat.view, seat.cid, m.digest)], j, v) <==> seat.Wrote(ms + [m], j, v)
    {
      ProposesGrows(seat, ms, m, v);
      SaidGrows(ms, m, false, seat.cid, j, v);
      assert Has(writes, j, v) <==> seat.Wrote(ms, j, v);
      NothingProposed(seat, ms, v);
    }
  }

  lemma ProposalAdded(e: Entry, ms: seq<Message>, m: Message, seat: Seat)
    requires HoldsProposal(e, ms, seat) && OpensNow(seat, ms, m)
    ensures
      var (e1, first) := e.RecordPropose(seat.id, seat.view, m.batch, m.digest);
      first && HoldsProposal(e1, ms + [m], seat)
  {
    var e1 := e.RecordPropose(seat.id, seat.view, m.batch, m.digest).0;
    var all := ms + [m];
    OpensOnce(seat, ms, m);
    OpenedGrows(seat, ms, m);
    forall v
      ensures e1.propose == Some(v) <==> seat.Proposes(all, v)
    {
      ProposesGrows(seat, ms, m, v);
      NothingProposed(seat, ms, v);
    }
    forall k: nat | seat.Opens(all, k)
      ensures e1.batch == all[k].batch
    {
      OpensGrows(seat, ms, m, k);
      assert k < |ms| ==> seat.Opened(ms);
    }
  }

  /** The entry right after the proposal was recorded, before anything is checked. */
  ghost predicate JustOpened(e: Entry, ms: seq<Message>, refs: seq<Refs>, m: Message, seat: Seat) {
    && HoldsProposal(e, ms + [m], seat) && HoldsWrites(e.writes, ms + [m], seat)
    && HoldsAccepts(e.accepts, ms + [m], seat)
    && !e.written && !e.sentAccept && e.sentWrite
    && (e.accepted <==> seat.Accepted(ms, refs)) && e.executed == e.accepted
  }

  lemma OpeningIsRecorded(e: Entry, ms: seq<Message>, refs: seq<Refs>, m: Message, seat: Seat)
    requires |ms| == |refs| && Holds(e, ms, refs, seat) && OpensNow(seat, ms, m)
    ensures e.RecordPropose(seat.id, seat.view, m.batch, m.digest).1
    ensures JustOpened(e.RecordPropose(seat.id, seat.view, m.batch, m.digest).0, ms, refs, m, seat)
  {
    OpensOnce(seat, ms, m);
    NothingWritten(seat, ms, refs);
    ProposalAdded(e, ms, m, seat);
    OwnWriteAdded(e.writes, ms, m, seat);
    AcceptsStay(e.accepts, ms, m, seat);
  }

  lemma OpeningKeeps(e1: Entry, ms: seq<Message>, refs: seq<Refs>, m: Message, r: Refs, seat: Seat)
    requires |ms| == |refs| && OpensNow(seat, ms, m) && JustOpened(e1, ms, refs, m, seat)
    ensures
      var (e2, ready) := e1.CheckWritten(seat.F(), r.write);
      var (e3, done) := e2.CheckAccepted(seat.F(), r.accept);
      && Holds(if ready then e3 else e2, ms + [m], refs + [r], seat)
      && !seat.Written(ms, refs) && (ready <==> seat.Written(ms + [m], refs + [r]))
      && (ready && done <==> seat.Accepted(ms + [m], refs + [r]) && !seat.Accepted(ms, refs))
  {
    OpensOnce(seat, ms, m);
    NothingWritten(seat, ms, refs);
    WrittenGrows(seat, ms, refs, m, r);
    AcceptedGrows(seat, ms, refs, m, r);
    ChecksWrites(e1, ms + [m], seat, r.write);
    ChecksAccepts(e1.CheckWritten(seat.F(), r.write).0, ms + [m], seat, r.accept);
  }

  // ---- The replica -----------------------------------------------------------------------------

  function Arrive(rep: ReplicaState, m: Message, r: Refs): Outcome
    requires rep.n > 0
  {
    match m
    case Propose(_, _, _, _, _) => rep.OnPropose(m, true, r.write, r.accept)
    case Write(_, _, _, _) => rep.OnWrite(m, true, r.write)
    case Accept(_, _, _, _) => rep.OnAccept(m, r.accept)
  }

  ghost predicate Sits(rep: ReplicaState, seat: Seat) {
    && rep.id == seat.id && rep.n == seat.n > 0 && rep.view == seat.view
    && !rep.inViewChange && rep.low < seat.cid <= rep.high
  }

  /** A proposal is answered by a write, and the arrival that completes the writes by an accept, in its own words. */
  ghost predicate SpeaksExactly(sent: seq<Message>, ms: seq<Message>, refs: seq<Refs>, m: Message, r: Refs, seat: Seat)
  {
    && (forall x :: x in sent && x.Write? && x.cid == seat.cid
          <==> OpensNow(seat, ms, m) && x == Write(seat.id, seat.cid, m.view, m.digest))
    && (forall x :: x in sent && x.Accept? && x.cid == seat.cid
          <==> seat.Written(ms + [m], refs + [r]) && !seat.Written(ms, refs)
               && x == Accept(seat.id, seat.cid, m.view, m.digest))
  }

  /** The instance is handed over once, with the reference vote and with whatever batch was proposed by then. */
  ghost predicate DecidesExactly(o: Outcome, ms: seq<Message>, refs: seq<Refs>, m: Message, r: Refs, seat: Seat) {
    var all := ms + [m];
    && (o.decided.Some? && m.cid == seat.cid <==> seat.Accepted(all, refs + [r]) && !seat.Accepted(ms, refs))
    && (o.decided.Some? && m.cid == seat.cid ==> HandsOver(o.decided.value, all, r.accept, seat))
  }

  ghost predicate HandsOver(d: Decision, ms: seq<Message>, ref: nat, seat: Seat) {
    && seat.Accepts(ms, ref, d.accepted) && |seat.Accepters(ms, d.accepted)| >= 2 * seat.F() + 1
    && (forall k: nat :: seat.Opens(ms, k) ==> d.batch == ms[k].batch) && (!seat.Opened(ms) ==> d.batch == [])
  }

  ghost predicate ArrivesExactly(rep: ReplicaState, ms: seq<Message>, refs: seq<Refs>, m: Message, r: Refs, seat: Seat)
    requires rep.n > 0
  {
    var o := Arrive(rep, m, r);
    && Sits(o.state, seat) && Holds(o.state.At(seat.cid), ms + [m], refs + [r], seat)
    && SpeaksExactly(o.sent, ms, refs, m, r, seat) && DecidesExactly(o, ms, refs, m, r, seat)
  }

  /** Whatever a replica hands over on a check of the accepts agrees with the list. */
  lemma ConcludesExactly(rep: ReplicaState, e: Entry, ms: seq<Message>, seat: Seat, ref: nat)
    requires HoldsProposal(e, ms, seat) && HoldsAccepts(e.accepts, ms, seat) && !e.accepted
    ensures
      var (e', done) := e.CheckAccepted(seat.F(), ref);
      done ==> rep.Conclude(seat.cid, e', done, ref).Some?
               && HandsOver(rep.Conclude(seat.cid, e', done, ref).value, ms, ref, seat)
  {
    ChecksAccepts(e, ms, seat, ref);
    if e.CheckAccepted(seat.F(), ref).1 {
      assert Has(e.accepts, ref, e.accepts[ref]);
      MatchingIsAccepters(e.accepts, ms, seat, e.accepts[ref]);
    }
  }

  lemma IdleArrives(rep: ReplicaState, ms: seq<Message>, refs: seq<Refs>, m: Message, r: Refs, seat: Seat)
    requires |ms| == |refs| && Sits(rep, seat) && Holds(rep.At(seat.cid), ms, refs, seat) && Idle(seat, ms, m)
    requires
      var o := Arrive(rep, m, r);
      && Sits(o.state, seat) && o.state.At(seat.cid) == rep.At(seat.cid)
      && (m.cid == seat.cid ==> o.decided.None?) && forall x :: x in o.sent ==> x.cid != seat.cid
    ensures ArrivesExactly(rep, ms, refs, m, r, seat)
  {
    IdleKeeps(rep.At(seat.cid), ms, refs, m, r, seat);
  }

  lemma OtherInstance(rep: ReplicaState, m: Message, r: Refs, seat: Seat)
    requires Sits(rep, seat) && m.cid != seat.cid
    ensures
      var o := Arrive(rep, m, r);
      Sits(o.state, seat) && o.state.At(seat.cid) == rep.At(seat.cid) && forall x :: x in o.sent ==> x.cid == m.cid
  {
  }

  lemma WriteArrives(rep: ReplicaState, ms: seq<Message>, refs: seq<Refs>, m: Message, r: Refs, seat: Seat)
    requires |ms| == |refs| && Sits(rep, seat) && Holds(rep.At(seat.cid), ms, refs, seat)
    requires Speaks(m, false, seat.cid)
    ensures ArrivesExactly(rep, ms, refs, m, r, seat)
  {
    var (e', ready) := rep.At(seat.cid).RecordWrite(seat.F(), m.from, m.Vote(), r.write);
    WriteKeeps(rep.At(seat.cid), ms, refs, m, r, seat);
    var sent := if ready then [Accept(seat.id, seat.cid, m.view, m.digest)] else [];
    assert Arrive(rep, m, r) == Outcome(rep.Put(seat.cid, e'), sent, None);
    assert ready ==> sent[0] == Accept(seat.id, seat.cid, m.view, m.digest);
  }

  lemma AcceptArrives(rep: ReplicaState, ms: seq<Message>, refs: seq<Refs>, m: Message, r: Refs, seat: Seat)
    requires |ms| == |refs| && Sits(rep, seat) && Holds(rep.At(seat.cid), ms, refs, seat)
    requires Speaks(m, true, seat.cid)
    ensures ArrivesExactly(rep, ms, refs, m, r, seat)
  {
    var e := rep.At(seat.cid);
    var (e', done) := e.RecordAccept(seat.F(), m.from, m.Vote(), r.accept);
    AcceptKeeps(e, ms, refs, m, r, seat);
    assert Arrive(rep, m, r) == Outcome(rep.Put(seat.cid, e'), [], rep.Conclude(seat.cid, e', done, r.accept));
    if done {
      var e1 := e.(accepts := e.accepts[m.from := m.Vote()]);
      AccepterKnown(e.accepts, ms, m, seat);
      AcceptAdded(e.accepts, ms, m, seat);
      ProposalStays(e, e1, ms, m, seat);
      ConcludesExactly(rep, e1, ms + [m], seat, r.accept);
    }
  }

  lemma OpeningArrives(rep: ReplicaState, ms: seq<Message>, refs: seq<Refs>, m: Message, r: Refs, seat: Seat)
    requires |ms| == |refs| && Sits(rep, seat) && Holds(rep.At(seat.cid), ms, refs, seat) && OpensNow(seat, ms, m)
    ensures ArrivesExactly(rep, ms, refs, m, r, seat)
  {
    var e := rep.At(seat.cid);
    var e1 := e.RecordPropose(seat.id, seat.view, m.batch, m.digest).0;
    OpeningIsRecorded(e, ms, refs, m, seat);
    OpeningKeeps(e1, ms, refs, m, r, seat);
    var (e2, ready) := e1.CheckWritten(seat.F(), r.write);
    var (e3, done) := e2.CheckAccepted(seat.F(), r.accept);
    OpeningOutcome(rep, m, r, seat, e1);
    var write, accept := Write(seat.id, seat.cid, m.view, m.digest), Accept(seat.id, seat.cid, m.view, m.digest);
    OpeningSpeaks(if ready then [write, accept] else [write], ms, refs, m, r, seat, ready);
    if ready && done {
      ConcludesExactly(rep, e2, ms + [m], seat, r.accept);
    }
  }

  lemma OpeningOutcome(rep: ReplicaState, m: Message, r: Refs, seat: Seat, e1: Entry)
    requires Sits(rep, seat) && m.Propose? && m.cid == seat.cid && m.from == seat.view % seat.n + 1
    requires rep.At(seat.cid).RecordPropose(seat.id, seat.view, m.batch, m.digest) == (e1, true)
    ensures
      var (e2, ready) := e1.CheckWritten(seat.F(), r.write);
      var (e3, done) := e2.CheckAccepted(seat.F(), r.accept);
      var write, accept := Write(seat.id, seat.cid, m.view, m.digest), Accept(seat.id, seat.cid, m.view, m.digest);
      var o := Arrive(rep, m, r);
      && o.state.At(seat.cid) == (if ready then e3 else e2) && Sits(o.state, seat)
      && o.sent == (if ready then [write, accept] else [write])
      && o.decided == if ready then rep.Conclude(seat.cid, e3, done, r.accept) else None
  {
    var recorded := rep.Put(seat.cid, e1);
    assert rep.Admits(m) && recorded.At(seat.cid) == e1 && recorded.F() == seat.F();
    assert Arrive(rep, m, r).state == recorded.Recheck(m, r.write, r.accept).state;
  }

  lemma OpeningSpeaks(sent: seq<Message>, ms: seq<Message>, refs: seq<Refs>, m: Message, r: Refs, seat: Seat,
      ready: bool)
    requires OpensNow(seat, ms, m) && !seat.Written(ms, refs)
    requires ready <==> seat.Written(ms + [m], refs + [r])
    requires
      var write, accept := Write(seat.id, seat.cid, m.view, m.digest), Accept(seat.id, seat.cid, m.view, m.digest);
      sent == if ready then [write, accept] else [write]
    ensures SpeaksExactly(sent, ms, refs, m, r, seat)
  {
    assert sent[0] == Write(seat.id, seat.cid, m.view, m.digest);
    assert ready ==> sent[1] == Accept(seat.id, seat.cid, m.view, m.digest);
  }

  /** A proposal from another sender than the leader, or after the first. */
  lemma IgnoredProposal(rep: ReplicaState, ms: seq<Message>, refs: seq<Refs>, m: Message, r: Refs, seat: Seat)
    requires |ms| == |refs| && Sits(rep, seat) && Holds(rep.At(seat.cid), ms, refs, seat)
    requires m.Propose? && m.cid == seat.cid && !OpensNow(seat, ms, m)
    ensures ArrivesExactly(rep, ms, refs, m, r, seat)
  {
    if m.from == seat.view % seat.n + 1 {
      var i: nat :| i < |ms| && SameVoice(ms[i], m);
      var k := FirstTime(ms, m, i);
      assert seat.Opens(ms, k);
    }
    IdleArrives(rep, ms, refs, m, r, seat);
  }

  /** Every arrival, of whatever kind, instance and sender. */
  lemma EveryArrival(rep: ReplicaState, ms: seq<Message>, refs: seq<Refs>, m: Message, r: Refs, seat: Seat)
    requires |ms| == |refs| && Sits(rep, seat) && Holds(rep.At(seat.cid), ms, refs, seat)
    ensures ArrivesExactly(rep, ms, refs, m, r, seat)
  {
    if m.cid != seat.cid {
      OtherInstance(rep, m, r, seat);
      IdleArrives(rep, ms, refs, m, r, seat);
    } else if m.Write? {
      WriteArrives(rep, ms, refs, m, r, seat);
    } else if m.Accept? {
      AcceptArrives(rep, ms, refs, m, r, seat);
    } else if OpensNow(seat, ms, m) {
      OpeningArrives(rep, ms, refs, m, r, seat);
    } else {
      IgnoredProposal(rep, ms, refs, m, r, seat);
    }
  }

  // ---- Any list of arrivals --------------------------------------------------------------------

  /** What a replica handed over, with the instance. */
  datatype Handed = Handed(cid: nat, decision: Decision)

  datatype Summary = Summary(state: ReplicaState, sent: set<Message>, handed: set<Handed>)

  ghost function Elements<T>(xs: seq<T>): set<T> {
    set x | x in xs
  }

  ghost function HandedBy(o: Outcome, cid: nat): set<Handed> {
    if o.decided.Some? then {Handed(cid, o.decided.value)} else {}
  }

  ghost function ArriveAll(rep: ReplicaState, ms: seq<Message>, refs: seq<Refs>): Summary
    requires |ms| == |refs| && rep.n > 0
    decreases |ms|
  {
    if ms == [] then Summary(rep, {}, {})
    else
      var o := Arrive(rep, ms[0], refs[0]);
      ArriveKeepsSize(rep, ms[0], refs[0]);
      var rest := ArriveAll(o.state, ms[1..], refs[1..]);
      Summary(rest.state, Elements(o.sent) + rest.sent, HandedBy(o, ms[0].cid) + rest.handed)
  }

  lemma ArriveKeepsSize(rep: ReplicaState, m: Message, r: Refs)
    requires rep.n > 0
    ensures Arrive(rep, m, r).state.n == rep.n
  {
  }

  ghost predicate SaysAccept(sent: set<Message>, cid: nat) {
    exists x :: x in sent && x.Accept? && x.cid == cid
  }

  ghost predicate HandsOverSome(handed: set<Handed>, cid: nat) {
    exists d :: d in handed && d.cid == cid
  }

  /** A decision is backed by a quorum, and its batch is the proposed one or, before any proposal, none. */
  ghost predicate Backed(d: Decision, ms: seq<Message>, seat: Seat) {
    && |seat.Accepters(ms, d.accepted)| >= 2 * seat.F() + 1
    && (d.batch == [] || exists k: nat :: seat.Opens(ms, k) && d.batch == ms[k].batch)
  }

  ghost predicate SummaryExactly(s: Summary, ms: seq<Message>, refs: seq<Refs>, all: seq<Message>, allRefs: seq<Refs>,
      seat: Seat)
  {
    && (SaysAccept(s.sent, seat.cid) <==> seat.Written(all, allRefs) && !seat.Written(ms, refs))
    && (HandsOverSome(s.handed, seat.cid) <==> seat.Accepted(all, allRefs) && !seat.Accepted(ms, refs))
    && (forall d :: d in s.handed && d.cid == seat.cid ==> Backed(d.decision, all, seat))
  }

  lemma HandsOverIsBacked(d: Decision, ms: seq<Message>, ref: nat, seat: Seat)
    requires HandsOver(d, ms, ref, seat)
    ensures Backed(d, ms, seat)
  {
    if seat.Opened(ms) {
      var k: nat :| seat.Opens(ms, k);
      assert d.batch == ms[k].batch;
    }
  }

  /** What was there stays there. */
  lemma StaysTrue(seat: Seat, ms: seq<Message>, refs: seq<Refs>, m: Message, r: Refs)
    requires |ms| == |refs|
    ensures seat.Written(ms, refs) ==> seat.Written(ms + [m], refs + [r])
    ensures seat.Accepted(ms, refs) ==> seat.Accepted(ms + [m], refs + [r])
    ensures forall d :: Backed(d, ms, seat) ==> Backed(d, ms + [m], seat)
  {
    WrittenGrows(seat, ms, refs, m, r);
    AcceptedGrows(seat, ms, refs, m, r);
    forall d | Backed(d, ms, seat)
      ensures Backed(d, ms + [m], seat)
    {
      StaysBacked(d, seat, ms, m);
    }
  }

  lemma StaysBacked(d: Decision, seat: Seat, ms: seq<Message>, m: Message)
    requires Backed(d, ms, seat)
    ensures Backed(d, ms + [m], seat)
  {
    var all := ms + [m];
    forall j | j in seat.Accepters(ms, d.accepted)
      ensures j in seat.Accepters(all, d.accepted)
    {
      SaidGrows(ms, m, true, seat.cid, j, d.accepted);
      SaidIsSent(all, true, seat.cid, j, d.accepted);
    }
    SubsetSize(seat.Accepters(ms, d.accepted), seat.Accepters(all, d.accepted));
    if d.batch != [] {
      var k: nat :| seat.Opens(ms, k) && d.batch == ms[k].batch;
      OpensGrows(seat, ms, m, k);
      assert seat.Opens(all, k) && all[k] == ms[k];
    }
  }

  lemma {:induction false} AllStaysTrue(seat: Seat, ms: seq<Message>, refs: seq<Refs>, more: seq<Message>,
      moreRefs: seq<Refs>)
    requires |ms| == |refs| && |more| == |moreRefs|
    ensures seat.Written(ms, refs) ==> seat.Written(ms + more, refs + moreRefs)
    ensures seat.Accepted(ms, refs) ==> seat.Accepted(ms + more, refs + moreRefs)
    ensures forall d :: Backed(d, ms, seat) ==> Backed(d, ms + more, seat)
    decreases |more|
  {
    if more == [] {
      assert ms + more == ms && refs + moreRefs == refs;
    } else {
      assert (ms + [more[0]]) + more[1..] == ms + more;
      assert (refs + [moreRefs[0]]) + moreRefs[1..] == refs + moreRefs;
      StaysTrue(seat, ms, refs, more[0], moreRefs[0]);
      AllStaysTrue(seat, ms + [more[0]], refs + [moreRefs[0]], more[1..], moreRefs[1..]);
    }
  }

  lemma SentJoins(sent: seq<Message>, rest: set<Message>, cid: nat)
    ensures SaysAccept(Elements(sent) + rest, cid) <==>
              SaysAccept(rest, cid) || exists x :: x in sent && x.Accept? && x.cid == cid
  {
    if x :| x in sent && x.Accept? && x.cid == cid {
      assert x in Elements(sent) + rest;
    }
    if SaysAccept(rest, cid) {
      var x :| x in rest && x.Accept? && x.cid == cid;
      assert x in Elements(sent) + rest;
    }
  }

  lemma HandedJoins(o: Outcome, m: Message, rest: set<Handed>, cid: nat)
    ensures HandsOverSome(HandedBy(o, m.cid) + rest, cid) <==>
              HandsOverSome(rest, cid) || (o.decided.Some? && m.cid == cid)
  {
    if o.decided.Some? && m.cid == cid {
      assert Handed(m.cid, o.decided.value) in HandedBy(o, m.cid) + rest;
    }
    if HandsOverSome(rest, cid) {
      var d :| d in rest && d.cid == cid;
      assert d in HandedBy(o, m.cid) + rest;
    }
  }

  /** One arrival and then the others. */
  lemma SummariesJoin(o: Outcome, rest: Summary, ms: seq<Message>, refs: seq<Refs>, m: Message, r: Refs,
      all: seq<Message>, allRefs: seq<Refs>, seat: Seat)
    requires |ms| == |refs|
    requires SpeaksExactly(o.sent, ms, refs, m, r, seat) && DecidesExactly(o, ms, refs, m, r, seat)
    requires SummaryExactly(rest, ms + [m], refs + [r], all, allRefs, seat)
    requires seat.Written(ms + [m], refs + [r]) ==> seat.Written(all, allRefs)
    requires seat.Accepted(ms + [m], refs + [r]) ==> seat.Accepted(all, allRefs)
    requires forall d :: Backed(d, ms + [m], seat) ==> Backed(d, all, seat)
    ensures
      var joined := Summary(rest.state, Elements(o.sent) + rest.sent, HandedBy(o, m.cid) + rest.handed);
      SummaryExactly(joined, ms, refs, all, allRefs, seat)
  {
    StaysTrue(seat, ms, refs, m, r);
    SentJoins(o.sent, rest.sent, seat.cid);
    AcceptIsSaid(o, ms, refs, m, r, seat);
    HandedJoins(o, m, rest.handed, seat.cid);
    if o.decided.Some? && m.cid == seat.cid {
      HandsOverIsBacked(o.decided.value, ms + [m], r.accept, seat);
    }
  }

  lemma AcceptIsSaid(o: Outcome, ms: seq<Message>, refs: seq<Refs>, m: Message, r: Refs, seat: Seat)
    requires SpeaksExactly(o.sent, ms, refs, m, r, seat)
    ensures (exists x :: x in o.sent && x.Accept? && x.cid == seat.cid) <==>
              seat.Written(ms + [m], refs + [r]) && !seat.Written(ms, refs)
  {
    if seat.Written(ms + [m], refs + [r]) && !seat.Written(ms, refs) {
      var x := Accept(seat.id, seat.cid, m.view, m.digest);
      assert x in o.sent && x.Accept? && x.cid == seat.cid;
    }
  }

  lemma {:induction false} MoreArrivals(rep: ReplicaState, ms: seq<Message>, refs: seq<Refs>, more: seq<Message>,
      moreRefs: seq<Refs>, seat: Seat)
    requires |ms| == |refs| && |more| == |moreRefs| && Sits(rep, seat) && Holds(rep.At(seat.cid), ms, refs, seat)
    ensures
      var s := ArriveAll(rep, more, moreRefs);
      && Sits(s.state, seat) && Holds(s.state.At(seat.cid), ms + more, refs + moreRefs, seat)
      && SummaryExactly(s, ms, refs, ms + more, refs + moreRefs, seat)
    decreases |more|
  {
    if more == [] {
      assert ms + more == ms && refs + moreRefs == refs;
    } else {
      var m, r := more[0], moreRefs[0];
      EveryArrival(rep, ms, refs, m, r, seat);
      assert (ms + [m]) + more[1..] == ms + more && (refs + [r]) + moreRefs[1..] == refs + moreRefs;
      var o := Arrive(rep, m, r);
      MoreArrivals(o.state, ms + [m], refs + [r], more[1..], moreRefs[1..], seat);
      AllStaysTrue(seat, ms + [m], refs + [r], more[1..], moreRefs[1..]);
      SummariesJoin(o, ArriveAll(o.state, more[1..], moreRefs[1..]), ms, refs, m, r, ms + more, refs + moreRefs, seat);
    }
  }

  lemma NothingHeld(seat: Seat)
    ensures Holds(FreshEntry(seat.cid), [], [], seat)
  {
    assert !seat.Opened([]) && !seat.Written([], []) && !seat.Accepted([], []);
    forall v
      ensures !seat.Proposes([], v)
    {
      NothingProposed(seat, [], v);
    }
  }

  /**
   * Any list of messages, of any senders, for any instances, in any order and with any reference votes, at a replica
   * outside a leader change: an untouched instance is afterwards written, and an accept has gone out for it, if and
   * only if at some kept write, or at the proposal, it was proposed and 2f+1 writes agreed with the reference; it is
   * accepted and handed over if and only if at some kept accept, or at a proposal that completes the writes, 2f+1
   * accepts agreed with theirs. What is handed over has a quorum behind it and carries the proposed batch or none.
   */
  lemma ArrivalsAreExact(rep: ReplicaState, ms: seq<Message>, refs: seq<Refs>, seat: Seat)
    requires |ms| == |refs| && Sits(rep, seat) && seat.cid !in rep.entries
    ensures
      var s := ArriveAll(rep, ms, refs);
      var e := s.state.At(seat.cid);
      && (forall v :: e.propose == Some(v) <==> seat.Proposes(ms, v))
      && (e.written <==> seat.Written(ms, refs)) && (SaysAccept(s.sent, seat.cid) <==> seat.Written(ms, refs))
      && (e.accepted <==> seat.Accepted(ms, refs)) && e.executed == e.accepted
      && (HandsOverSome(s.handed, seat.cid) <==> seat.Accepted(ms, refs))
      && (forall d :: d in s.handed && d.cid == seat.cid ==> Backed(d.decision, ms, seat))
  {
    NothingHeld(seat);
    assert [] + ms == ms && [] + refs == refs;
    MoreArrivals(rep, [], [], ms, refs, seat);
    assert !seat.Written([], []) && !seat.Accepted([], []);
  }
}
