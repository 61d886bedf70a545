/** Reconfiguration transactions: the text form of a member list, its parser and its printer. */
module SimplexReconfigTx {

  datatype Parsed =
    | NotReconfig
    | EmptyList
    | InvalidId(text: string)
    | ZeroId
    | NoMembers
    | Members(ids: seq<nat>)

  datatype Built = Refused | Built(tx: string)

  const PREFIX := "reconfig:members="
  const MAX_ID: nat := 0xFFFF_FFFF

  // ---- Text ------------------------------------------------------------------------------------

  /** Unicode white space. */
  predicate IsSpace(c: char) {
    || '\t' <= c <= '\r' || c == ' ' || c == '\U{85}' || c == '\U{A0}' || c == '\U{1680}'
    || '\U{2000}' <= c <= '\U{200A}' || c == '\U{2028}' || c == '\U{2029}' || c == '\U{202F}'
    || c == '\U{205F}' || c == '\U{3000}'
  }

  function TrimLeft(s: string): string {
    if s != "" && IsSpace(s[0]) then TrimLeft(s[1..]) else s
  }

  function TrimRight(s: string): string {
    if s != "" && IsSpace(s[|s| - 1]) then TrimRight(s[..|s| - 1]) else s
  }

  function TrimSpace(s: string): string {
    TrimRight(TrimLeft(s))
  }

  /** The pieces between commas; one piece when there is no comma. */
  function Split(s: string): (parts: seq<string>)
    ensures |parts| >= 1
  {
    if s == "" then [""]
    else
      var rest := Split(s[1..]);
      if s[0] == ',' then [""] + rest else [[s[0]] + rest[0]] + rest[1..]
  }

  function Join(parts: seq<string>): string {
    if parts == [] then ""
    else if |parts| == 1 then parts[0]
    else parts[0] + "," + Join(parts[1..])
  }

  predicate IsDigit(c: char) {
    '0' <= c <= '9'
  }

  predicate AllDigits(s: string) {
    forall i :: 0 <= i < |s| ==> IsDigit(s[i])
  }

  function Value(s: string): nat
    requires AllDigits(s)
  {
    if s == "" then 0 else Value(s[..|s| - 1]) * 10 + (s[|s| - 1] as int - '0' as int)
  }

  function Format(n: nat): (s: string)
    ensures s != "" && AllDigits(s)
  {
    var digit := [('0' as int + n % 10) as char];
    if n < 10 then digit else Format(n / 10) + digit
  }

  /** A 32-bit decimal number: digits only, leading zeros allowed. */
  predicate IsId(s: string) {
    s != "" && AllDigits(s) && Value(s) <= MAX_ID
  }

  // ---- Sorted lists ----------------------------------------------------------------------------

  ghost predicate StrictlyIncreasing(xs: seq<nat>) {
    forall i, j :: 0 <= i < j < |xs| ==> xs[i] < xs[j]
  }

  ghost predicate SameElements(xs: seq<nat>, ys: seq<nat>) {
    forall x :: x in xs <==> x in ys
  }

  ghost predicate Distinct(xs: seq<nat>) {
    forall i, j :: 0 <= i < j < |xs| ==> xs[i] != xs[j]
  }

  function Insert(x: nat, xs: seq<nat>): seq<nat> {
    if xs == [] then [x]
    else if x <= xs[0] then [x] + xs
    else [xs[0]] + Insert(x, xs[1..])
  }

  /** Ascending order. */
  function Sort(xs: seq<nat>): seq<nat> {
    if xs == [] then [] else Insert(xs[0], Sort(xs[1..]))
  }

  lemma {:induction false} InsertElements(x: nat, xs: seq<nat>)
    ensures forall y :: y in Insert(x, xs) <==> y == x || y in xs
  {
    if xs != [] && x > xs[0] {
      InsertElements(x, xs[1..]);
      assert xs == [xs[0]] + xs[1..];
    }
  }

  lemma {:induction false} InsertStrict(x: nat, xs: seq<nat>)
    requires StrictlyIncreasing(xs) && x !in xs
    ensures StrictlyIncreasing(Insert(x, xs))
  {
    if xs != [] && x > xs[0] {
      var rest := Insert(x, xs[1..]);
      InsertStrict(x, xs[1..]);
      InsertElements(x, xs[1..]);
      forall j | 0 <= j < |rest|
        ensures xs[0] < rest[j]
      {
        assert rest[j] in rest;
        assert rest[j] == x || rest[j] in xs[1..];
      }
      assert Insert(x, xs) == [xs[0]] + rest;
    }
  }

  lemma {:induction false} SortStrict(xs: seq<nat>)
    requires Distinct(xs)
    ensures StrictlyIncreasing(Sort(xs)) && SameElements(xs, Sort(xs))
  {
    if xs != [] {
      SortStrict(xs[1..]);
      assert xs == [xs[0]] + xs[1..];
      assert xs[0] !in xs[1..];
      InsertStrict(xs[0], Sort(xs[1..]));
      InsertElements(xs[0], Sort(xs[1..]));
    }
  }

  /** A strictly increasing list is determined by its elements. */
  lemma {:induction false} IncreasingIsUnique(xs: seq<nat>, ys: seq<nat>)
    requires StrictlyIncreasing(xs) && StrictlyIncreasing(ys) && SameElements(xs, ys)
    ensures xs == ys
  {
    assert ys != [] ==> ys[0] in ys;
    if xs != [] {
      assert xs[0] in ys && ys[0] in xs;
      assert xs[0] == ys[0];
      forall x: nat
        ensures x in xs[1..] <==> x in ys[1..]
      {
        TailElements(xs, x);
        TailElements(ys, x);
      }
      IncreasingIsUnique(xs[1..], ys[1..]);
      assert xs == [xs[0]] + xs[1..] && ys == [ys[0]] + ys[1..];
    }
  }

  lemma TailElements(xs: seq<nat>, x: nat)
    requires StrictlyIncreasing(xs) && xs != []
    ensures x in xs[1..] <==> x in xs && x != xs[0]
  {
    assert xs == [xs[0]] + xs[1..];
  }

  /** First occurrences only. */
  function Dedup(xs: seq<nat>): seq<nat> {
    if xs == [] then []
    else
      var before := Dedup(xs[..|xs| - 1]);
      if xs[|xs| - 1] in before then before else before + [xs[|xs| - 1]]
  }

  lemma DedupOneMore(xs: seq<nat>, x: nat)
    ensures Dedup(xs + [x]) == if x in Dedup(xs) then Dedup(xs) else Dedup(xs) + [x]
  {
    assert (xs + [x])[..|xs|] == xs;
  }

  lemma {:induction false} DedupDistinct(xs: seq<nat>)
    ensures Distinct(Dedup(xs)) && SameElements(xs, Dedup(xs))
  {
    if xs != [] {
      DedupDistinct(xs[..|xs| - 1]);
      assert xs == xs[..|xs| - 1] + [xs[|xs| - 1]];
    }
  }

  /** The member list a transaction stands for: sorted, without duplicates. */
  function Canonical(ids: seq<nat>): seq<nat> {
    Sort(Dedup(ids))
  }

  lemma CanonicalIsTheSortedSet(ids: seq<nat>)
    ensures StrictlyIncreasing(Canonical(ids)) && SameElements(ids, Canonical(ids))
    ensures forall ys :: StrictlyIncreasing(ys) && SameElements(ids, ys) ==> ys == Canonical(ids)
  {
    DedupDistinct(ids);
    SortStrict(Dedup(ids));
    forall ys | StrictlyIncreasing(ys) && SameElements(ids, ys)
      ensures ys == Canonical(ids)
    {
      IncreasingIsUnique(ys, Canonical(ids));
    }
  }

  // ---- Parser ----------------------------------------------------------------------------------

  /** Identifiers of the pieces before the first bad one; blank pieces are skipped. */
  function Ids(parts: seq<string>): Parsed {
    if parts == [] then Members([])
    else
      var before := Ids(parts[..|parts| - 1]);
      var text := TrimSpace(parts[|parts| - 1]);
      if !before.Members? || text == "" then before
      else if !IsId(text) then InvalidId(text)
      else if Value(text) == 0 then ZeroId
      else Members(before.ids + [Value(text)])
  }

  function Parse(tx: string): Parsed {
    if !(PREFIX <= tx) then NotReconfig
    else
      var list := TrimSpace(tx[|PREFIX|..]);
      if list == "" then EmptyList
      else
        var ids := Ids(Split(list));
        if !ids.Members? then ids
        else if ids.ids == [] then NoMembers
        else Members(Canonical(ids.ids))
  }

  lemma {:induction false} FirstErrorStays(parts: seq<string>, i: nat)
    requires i <= |parts| && !Ids(parts[..i]).Members?
    ensures Ids(parts) == Ids(parts[..i])
    decreases |parts| - i
  {
    if i < |parts| {
      assert parts[..i + 1][..i] == parts[..i];
      FirstErrorStays(parts, i + 1);
    } else {
      assert parts[..i] == parts;
    }
  }

  method ParseReconfigTx(tx: string) returns (r: Parsed)
    ensures r == Parse(tx)
  {
    if !(PREFIX <= tx) {
      return NotReconfig;
    }
    var list := TrimSpace(tx[|PREFIX|..]);
    if list == "" {
      return EmptyList;
    }
    var parts := Split(list);
    var seen: set<nat> := {};
    var members: seq<nat> := [];
    ghost var ids: seq<nat> := [];
    for i := 0 to |parts|
      invariant Ids(parts[..i]) == Members(ids)
      invariant members == Dedup(ids) && (forall x :: x in seen <==> x in members)
    {
      assert parts[..i + 1][..i] == parts[..i];
      var trimmed := TrimSpace(parts[i]);
      if trimmed == "" {
        continue;
      }
      if !IsId(trimmed) {
        FirstErrorStays(parts, i + 1);
        return InvalidId(trimmed);
      }
      var id := Value(trimmed);
      if id == 0 {
        FirstErrorStays(parts, i + 1);
        return ZeroId;
      }
      DedupOneMore(ids, id);
      ids := ids + [id];
      if id in seen {
        continue;
      }
      seen := seen + {id};
      members := members + [id];
    }
    assert parts[..|parts|] == parts;
    DedupDistinct(ids);
    assert ids != [] ==> ids[0] in ids;
    if |members| == 0 {
      return NoMembers;
    }
    return Members(Sort(members));
  }

  // ---- Printer ---------------------------------------------------------------------------------

  function FormatAll(ids: seq<nat>): (parts: seq<string>)
    ensures |parts| == |ids|
    ensures forall i :: 0 <= i < |ids| ==> parts[i] == Format(ids[i])
  {
    seq(|ids|, i requires 0 <= i < |ids| => Format(ids[i]))
  }

  function Build(ids: seq<nat>): Built {
    if ids == [] || 0 in ids then Refused
    else Built(PREFIX + Join(FormatAll(Canonical(ids))))
  }

  method BuildReconfigTx(memberIDs: seq<nat>) returns (r: Built)
    ensures r == Build(memberIDs)
  {
    if |memberIDs| == 0 {
      return Refused;
    }
    var seen: set<nat> := {};
    var ids: seq<nat> := [];
    for i := 0 to |memberIDs|
      invariant ids == Dedup(memberIDs[..i]) && (forall x :: x in seen <==> x in ids)
      invariant 0 !in memberIDs[..i]
    {
      assert memberIDs[..i + 1][..i] == memberIDs[..i];
      if memberIDs[i] == 0 {
        return Refused;
      }
      if memberIDs[i] in seen {
        continue;
      }
      seen := seen + {memberIDs[i]};
      ids := ids + [memberIDs[i]];
    }
    assert memberIDs[..|memberIDs|] == memberIDs;
    DedupDistinct(memberIDs);
    assert memberIDs[0] in ids;
    ids := Sort(ids);
    assert ids == Canonical(memberIDs);
    var parts: seq<string> := [];
    for i := 0 to |ids|
      invariant parts == FormatAll(ids)[..i]
    {
      parts := parts + [Format(ids[i])];
    }
    assert parts == FormatAll(ids);
    assert 0 !in memberIDs;
    return Built(PREFIX + Join(parts));
  }

  // ---- Round trips -----------------------------------------------------------------------------

  lemma {:induction false} ValueOfFormat(n: nat)
    ensures Value(Format(n)) == n
  {
    var s := Format(n);
    var digit := ('0' as int + n % 10) as char;
    if n >= 10 {
      ValueOfFormat(n / 10);
      assert s[..|s| - 1] == Format(n / 10);
    } else {
      assert s[..|s| - 1] == "";
    }
    assert s[|s| - 1] == digit;
  }

  /** A text that starts and ends with something else than white space is not trimmed. */
  lemma TrimKeeps(s: string)
    requires s != "" && !IsSpace(s[0]) && !IsSpace(s[|s| - 1])
    ensures TrimSpace(s) == s
  {
  }

  lemma TrimKeepsNumber(n: nat)
    ensures TrimSpace(Format(n)) == Format(n)
  {
    TrimKeeps(Format(n));
  }

  lemma {:induction false} SplitWhole(s: string)
    requires ',' !in s
    ensures Split(s) == [s]
  {
    if s != "" {
      SplitWhole(s[1..]);
      assert [s[0]] + s[1..] == s;
    }
  }

  lemma {:induction false} SplitAtComma(s: string, t: string)
    requires ',' !in s
    ensures Split(s + "," + t) == [s] + Split(t)
  {
    var u := s + "," + t;
    if s == "" {
      assert u[1..] == t;
    } else {
      SplitAtComma(s[1..], t);
      assert u[1..] == s[1..] + "," + t;
      assert [s[0]] + s[1..] == s;
      assert Split(u[1..])[1..] == Split(t);
    }
  }

  /** Splitting undoes joining when no piece holds a comma. */
  lemma {:induction false} SplitOfJoin(parts: seq<string>)
    requires parts != [] && forall i :: 0 <= i < |parts| ==> ',' !in parts[i]
    ensures Split(Join(parts)) == parts
  {
    if |parts| == 1 {
      SplitWhole(parts[0]);
    } else {
      SplitOfJoin(parts[1..]);
      SplitAtComma(parts[0], Join(parts[1..]));
      assert parts == [parts[0]] + parts[1..];
    }
  }

  lemma {:induction false} JoinEnds(parts: seq<string>)
    requires parts != [] && forall i :: 0 <= i < |parts| ==> parts[i] != "" && AllDigits(parts[i])
    ensures var s := Join(parts); s != "" && IsDigit(s[0]) && IsDigit(s[|s| - 1])
  {
    if |parts| > 1 {
      JoinEnds(parts[1..]);
    }
  }

  lemma {:induction false} IdsOfFormat(ids: seq<nat>)
    requires forall i :: 0 <= i < |ids| ==> 0 < ids[i] <= MAX_ID
    ensures Ids(FormatAll(ids)) == Members(ids)
  {
    if ids != [] {
      var last := |ids| - 1;
      IdsOfFormat(ids[..last]);
      assert FormatAll(ids)[..last] == FormatAll(ids[..last]);
      TrimKeepsNumber(ids[last]);
      ValueOfFormat(ids[last]);
      assert ids[..last] + [ids[last]] == ids;
    }
  }

  lemma ParseOfPrinted(ids: seq<nat>)
    requires ids != [] && forall i :: 0 <= i < |ids| ==> 0 < ids[i] <= MAX_ID
    ensures Parse(PREFIX + Join(FormatAll(ids))) == Members(Canonical(ids))
  {
    var parts := FormatAll(ids);
    var tx := PREFIX + Join(parts);
    assert tx[|PREFIX|..] == Join(parts);
    JoinEnds(parts);
    TrimKeeps(Join(parts));
    SplitOfJoin(parts);
    IdsOfFormat(ids);
  }

  lemma CanonicalOfCanonical(ids: seq<nat>)
    ensures Canonical(Canonical(ids)) == Canonical(ids)
  {
    CanonicalIsTheSortedSet(ids);
    CanonicalIsTheSortedSet(Canonical(ids));
  }

  /** Printing a member list and parsing the text gives the sorted list without duplicates. */
  lemma ParseOfBuild(ids: seq<nat>)
    requires ids != [] && forall i :: 0 <= i < |ids| ==> 0 < ids[i] <= MAX_ID
    ensures Build(ids).Built? && Parse(Build(ids).tx) == Members(Canonical(ids))
  {
    CanonicalIsTheSortedSet(ids);
    CanonicalOfCanonical(ids);
    var c := Canonical(ids);
    assert ids[0] in c;
    assert forall i :: 0 <= i < |c| ==> c[i] in ids;
    ParseOfPrinted(c);
  }

  lemma {:induction false} IdsInRange(parts: seq<string>)
    requires Ids(parts).Members?
    ensures forall x :: x in Ids(parts).ids ==> 0 < x <= MAX_ID
  {
    if parts != [] {
      IdsInRange(parts[..|parts| - 1]);
    }
  }

  /** Any accepted text, however written, and its printed form mean the same member list. */
  lemma ParseBuildParse(tx: string)
    requires Parse(tx).Members?
    ensures Build(Parse(tx).ids).Built? && Parse(Build(Parse(tx).ids).tx) == Parse(tx)
  {
    var ids := Ids(Split(TrimSpace(tx[|PREFIX|..]))).ids;
    IdsInRange(Split(TrimSpace(tx[|PREFIX|..])));
    CanonicalIsTheSortedSet(ids);
    CanonicalOfCanonical(ids);
    var c := Canonical(ids);
    assert ids[0] in c;
    assert forall i :: 0 <= i < |c| ==> c[i] in ids;
    ParseOfBuild(c);
  }
}
