/** The replica's message log: entries, checkpoint tallies, water marks and garbage collection. */
module PbftLog {
  import opened PbftMessages
  import opened PbftEntry

  const CHECKPOINT_INTERVAL := 10000
  const WATER_MARK_WINDOW := 12000

  /** Votes collected for the checkpoint at one sequence number. */
  datatype Tally = Tally(
    num: nat,
    digests: map<Digest, nat>,
    voters: set<nat>,
    proof: seq<Message>,
    stable: bool)
  {
    function Count(d: Digest): nat {
      if d in digests then digests[d] else 0
    }

    /** One vote per replica, none once stable; true when some digest has 2f+1 votes. */
    function RecordVote(m: Message, f: nat): (Tally, bool)
      requires m.Checkpoint?
    {
      if stable || m.from in voters then (this, false)
      else
        var count := Count(m.digest) + 1;
        (this.(voters := voters + {m.from}, proof := proof + [m], digests := digests[m.digest := count]),
         count >= 2 * f + 1)
    }

    /** RecordVote as the log uses it: a tally that reaches its quorum is stable. */
    function Voted(m: Message, f: nat): Tally
      requires m.Checkpoint?
    {
      var (t, reached) := RecordVote(m, f);
      if reached then t.(stable := true) else t
    }
  }

  function FreshTally(num: nat): Tally {
    Tally(num, map[], {}, [], false)
  }

  datatype Log = Log(
    entries: map<nat, Entry>,
    low: nat,
    high: nat,
    checkpoints: map<nat, Tally>,
    lastStable: nat)
  {
    /** The entry a lookup yields, created empty when missing. */
    function At(num: nat): Entry {
      if num in entries then entries[num] else FreshEntry(num)
    }

    function Put(num: nat, e: Entry): Log {
      this.(entries := entries[num := e])
    }

    function TallyAt(num: nat): Tally {
      if num in checkpoints then checkpoints[num] else FreshTally(num)
    }

    predicate WithinWaterMarks(num: nat) {
      low < num <= high
    }

    function Collectable(stableNum: nat): set<nat> {
      set s | s in entries && s <= stableNum && entries[s].executed
    }

    function GarbageCollect(stableNum: nat): Log {
      this.(entries := entries - Collectable(stableNum),
            checkpoints := map s | s in checkpoints && s >= stableNum :: checkpoints[s])
    }

    /** Log with both water marks moved to a new stable checkpoint, and how many entries were discarded. */
    function AdvanceTo(num: nat): (Log, nat) {
      (this.(low := num, high := num + WATER_MARK_WINDOW, lastStable := num).GarbageCollect(num), |Collectable(num)|)
    }

    /** Log after the vote, whether it made its checkpoint stable, and how many entries were discarded. */
    function RecordCheckpoint(m: Message, f: nat): (Log, bool, nat)
      requires m.Checkpoint?
    {
      var (t, reached) := TallyAt(m.num).RecordVote(m, f);
      if !reached then (this.(checkpoints := checkpoints[m.num := t]), false, 0)
      else
        var voted := this.(checkpoints := checkpoints[m.num := t.(stable := true)]);
        if m.num <= lastStable then (voted, true, 0)
        else
          var (advanced, collected) := voted.AdvanceTo(m.num);
          (advanced, true, collected)
    }

    /** The certificate served to a joining replica. */
    function StableProof(): (nat, seq<Message>) {
      if lastStable !in checkpoints || !checkpoints[lastStable].stable then (0, [])
      else (checkpoints[lastStable].num, checkpoints[lastStable].proof)
    }

    /** Numbers above `above` whose entry has prepared. */
    function PreparedEntries(above: nat): set<nat> {
      set s | s in entries && s > above && entries[s].prepared
    }
  }

  function EmptyLog(): Log {
    Log(map[], 0, WATER_MARK_WINDOW, map[], 0)
  }

  predicate ShouldCheckpoint(num: nat) {
    num > 0 && num % CHECKPOINT_INTERVAL == 0
  }

  // ---- The mutable log -------------------------------------------------------------------------

  /**
   * Entries are shared objects, as in the replica: a lookup hands out the entry itself. Tallies are only
   * ever touched under the log's own lock, so the dictionary holds them as values.
   */
  class MessageLog {
    var entries: map<nat, LogEntry>
    var low: nat
    var high: nat
    var checkpoints: map<nat, Tally>
    var lastStable: nat

    ghost predicate Valid()
      reads this
    {
      forall s :: s in entries ==> entries[s].num == s
    }

    function Entries(): map<nat, Entry>
      reads this`entries, entries.Values
    {
      map s | s in entries :: entries[s].Model()
    }

    function Model(): Log
      reads this, entries.Values
    {
      Log(Entries(), low, high, checkpoints, lastStable)
    }

    constructor ()
      ensures Valid() && Model() == EmptyLog()
      ensures entries == map[]
    {
      entries, checkpoints := map[], map[];
      low, high, lastStable := 0, WATER_MARK_WINDOW, 0;
    }

    method GetOrCreate(num: nat) returns (e: LogEntry)
      requires Valid()
      modifies this`entries
      ensures Valid() && num in entries && entries[num] == e
      ensures num in old(entries) ==> entries == old(entries)
      ensures num !in old(entries) ==> fresh(e) && entries == old(entries)[num := e]
      ensures Model() == old(Model()).Put(num, old(Model()).At(num))
      ensures e.Model() == old(Model()).At(num)
    {
      ghost var before := Entries();
      if num in entries {
        e := entries[num];
      } else {
        e := new LogEntry(num);
        entries := entries[num := e];
      }
      EntriesAre(this, before[num := e.Model()]);
    }

    method WithinWaterMarks(num: nat) returns (ok: bool)
      ensures ok == Model().WithinWaterMarks(num)
    {
      return num > low && num <= high;
    }

    method RecordCheckpoint(m: Message, f: nat) returns (stable: bool, collected: nat)
      requires Valid() && m.Checkpoint?
      modifies this
      ensures Valid() && (Model(), stable, collected) == old(Model()).RecordCheckpoint(m, f)
      ensures forall s :: s in entries ==> s in old(entries) && entries[s] == old(entries)[s]
    {
      ghost var before := Entries();
      if m.num !in checkpoints {
        checkpoints := checkpoints[m.num := FreshTally(m.num)];
      }
      var (cp, reached) := checkpoints[m.num].RecordVote(m, f);
      checkpoints := checkpoints[m.num := cp];
      assert checkpoints == old(checkpoints)[m.num := cp];
      EntriesAre(this, before);
      if !reached {
        return false, 0;
      }
      checkpoints := checkpoints[m.num := cp.(stable := true)];
      assert checkpoints == old(checkpoints)[m.num := cp.(stable := true)];
      EntriesAre(this, before);
      if m.num <= lastStable {
        return true, 0;
      }
      collected := AdvanceTo(m.num);
      stable := true;
    }

    /** Moves both water marks to a new stable checkpoint and discards what it makes obsolete. */
    method AdvanceTo(num: nat) returns (collected: nat)
      requires Valid()
      modifies this
      ensures Valid()
      ensures (Model(), collected) == old(Model()).AdvanceTo(num)
      ensures forall s :: s in entries ==> s in old(entries) && entries[s] == old(entries)[s]
    {
      ghost var before := Entries();
      lastStable := num;
      low := num;
      high := num + WATER_MARK_WINDOW;
      EntriesAre(this, before);
      collected := GarbageCollect(num);
    }

    method CollectEntries(stableNum: nat) returns (collected: nat)
      requires Valid()
      modifies this`entries
      ensures Valid() && entries == old(entries) - old(Model()).Collectable(stableNum)
      ensures collected == |old(Model()).Collectable(stableNum)|
    {
      collected := 0;
      var rest := entries.Keys;
      ghost var gone: set<nat> := {};
      while rest != {}
        invariant rest <= old(entries).Keys
        invariant entries == old(entries) - gone
        invariant forall s :: s in gone <==>
                    s in old(entries) && s !in rest && s <= stableNum && old(entries)[s].executed
        invariant collected == |gone|
        decreases |rest|
      {
        var s :| s in rest;
        rest := rest - {s};
        if s <= stableNum && entries[s].executed {
          entries := entries - {s};
          collected := collected + 1;
          gone := gone + {s};
        }
      }
      assert gone == old(Model()).Collectable(stableNum);
    }

    method CollectCheckpoints(stableNum: nat)
      requires Valid()
      modifies this`checkpoints
      ensures Valid()
      ensures checkpoints == map s | s in old(checkpoints) && s >= stableNum :: old(checkpoints)[s]
    {
      var rest := checkpoints.Keys;
      while rest != {}
        invariant rest <= checkpoints.Keys <= old(checkpoints).Keys
        invariant forall s :: s in checkpoints ==> checkpoints[s] == old(checkpoints)[s]
        invariant forall s :: s in old(checkpoints) ==> (s in checkpoints <==> s >= stableNum || s in rest)
        decreases |rest|
      {
        var s :| s in rest;
        rest := rest - {s};
        if s < stableNum {
          checkpoints := checkpoints - {s};
        }
      }
    }

    /** Discards executed entries at or below the stable number and the tallies of earlier checkpoints. */
    method GarbageCollect(stableNum: nat) returns (collected: nat)
      requires Valid()
      modifies this`entries, this`checkpoints
      ensures Valid() && Model() == old(Model()).GarbageCollect(stableNum)
      ensures collected == |old(Model()).Collectable(stableNum)|
      ensures forall s :: s in entries ==> s in old(entries) && entries[s] == old(entries)[s]
    {
      collected := CollectEntries(stableNum);
      CollectCheckpoints(stableNum);
      assert Entries() == old(Entries()) - old(Model()).Collectable(stableNum);
    }

    method StableCheckpointProof() returns (num: nat, proof: seq<Message>)
      requires Valid()
      ensures (num, proof) == Model().StableProof()
    {
      if lastStable !in checkpoints || !checkpoints[lastStable].stable {
        return 0, [];
      }
      var cp := checkpoints[lastStable];
      return cp.num, cp.proof;
    }

    /** The prepared certificates of a VIEW-CHANGE: one pre-prepare per prepared entry, in any order. */
    method PreparedEntries(above: nat) returns (result: seq<LogEntry>)
      requires Valid()
      ensures forall e :: e in result ==> e.num in entries && entries[e.num] == e
      ensures forall s :: s in Model().PreparedEntries(above) <==> s in entries && entries[s] in result
      ensures forall i, j :: 0 <= i < j < |result| ==> result[i] != result[j]
    {
      result := [];
      var rest := entries.Keys;
      while rest != {}
        invariant rest <= entries.Keys
        invariant forall e :: e in result ==> e.num in entries && e.num !in rest && entries[e.num] == e
        invariant forall s :: s in entries && s !in rest ==>
                    (entries[s] in result <==> s > above && entries[s].prepared)
        invariant forall i, j :: 0 <= i < j < |result| ==> result[i] != result[j]
        decreases |rest|
      {
        var s :| s in rest;
        rest := rest - {s};
        if s > above && entries[s].prepared {
          result := result + [entries[s]];
        }
      }
    }
  }

  /** Recognises the entries of a log from their values one by one. */
  lemma EntriesAre(ml: MessageLog, m: map<nat, Entry>)
    requires m.Keys == ml.entries.Keys
    requires forall s :: s in m ==> m[s] == ml.entries[s].Model()
    ensures ml.Entries() == m
  {
  }

  /** Recognises the entries of a log after one of them changed. */
  lemma EntryChanged(ml: MessageLog, before: map<nat, Entry>, num: nat)
    requires num in ml.entries && before.Keys == ml.entries.Keys
    requires forall s :: s in ml.entries && s != num ==> ml.entries[s].Model() == before[s]
    ensures ml.Entries() == before[num := ml.entries[num].Model()]
  {
  }

  lemma PutTwice(l: Log, num: nat, e: Entry, e': Entry)
    ensures l.Put(num, e).Put(num, e') == l.Put(num, e')
    ensures l.Put(num, e).At(num) == e
  {
    assert l.entries[num := e][num := e'] == l.entries[num := e'];
  }
}
