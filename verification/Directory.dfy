/** Directory blocks: variable-length records that tile a block, and insertion by splitting a record
    (src/metadata/ondisk_format.cpp, src/metadata/new_object_plan.cpp). */
module Directory {
  import opened Bytes

  const HEADER: nat := 8
  const MAX_NAME: nat := 255
  const REGULAR: byte := 1
  const DIRECTORY: byte := 2

  type Name = seq<byte>

  /** `IsValidName`: not empty, not "." or "..", no slash and no NUL. */
  predicate ValidName(name: Name) {
    1 <= |name| <= MAX_NAME && name != [46] && name != [46, 46] && forall i :: 0 <= i < |name| ==> name[i] != 47 && name[i] != 0
  }

  /** The names of the source's name rules, one by one. */
  predicate NameAllowed(name: Name) {
    && name != [] && |name| < 256 && name != ['.' as int] && name != ['.' as int, '.' as int]
    && '/' as int !in name && 0 !in name
  }

  lemma ValidNameIs(name: Name)
    ensures ValidName(name) <==> NameAllowed(name)
  {}

  /** A record; inode 0 marks a free one. */
  datatype Entry = Entry(inode: u32, kind: byte, name: Name, length: nat)

  /** `MinimumDirectoryRecordLength`. */
  function MinLength(nameLength: nat): (r: nat)
    ensures r % 4 == 0 && HEADER + nameLength <= r < HEADER + nameLength + 4
  {
    (HEADER + nameLength + 3) / 4 * 4
  }

  predicate ValidEntry(e: Entry) {
    && HEADER <= e.length <= BLOCK_SIZE && e.length % 4 == 0
    && if e.inode == 0 then e.name == [] && e.kind == 0
       else (e.kind == REGULAR || e.kind == DIRECTORY) && ValidName(e.name) && MinLength(|e.name|) <= e.length
  }

  // ---- Records ----

  /** Header, name, and zeros up to the record length. */
  function EntryBytes(e: Entry): (r: seq<byte>)
    requires ValidEntry(e)
    ensures |r| == e.length
  {
    LeBytes(e.inode, 4) + LeBytes(e.length, 2) + [|e.name|, e.kind] + e.name + Zeros(e.length - HEADER - |e.name|)
  }

  /** `DecodeDirectoryEntry` at the start of `s`. */
  function DecodeEntry(s: seq<byte>): (r: Option<Entry>)
    ensures r.Some? ==> ValidEntry(r.value) && r.value.length <= |s|
  {
    Widths();
    if |s| < HEADER then None
    else
      var inode: u32 := LeNat(s[..4]);
      var length := LeNat(s[4..6]);
      var nameLength := s[6];
      var kind := s[7];
      if length < HEADER || length > |s| || length > BLOCK_SIZE || length % 4 != 0 || nameLength > length - HEADER then None
      else if inode == 0 then
        if nameLength != 0 || kind != 0 || !AllZero(s[HEADER..length]) then None else Some(Entry(0, 0, [], length))
      else
        var name := s[HEADER..HEADER + nameLength];
        if (kind != REGULAR && kind != DIRECTORY) || !ValidName(name) || !AllZero(s[HEADER + nameLength..length]) then None
        else Some(Entry(inode, kind, name, length))
  }

  lemma EntryRoundTrip(e: Entry, rest: seq<byte>)
    requires ValidEntry(e)
    ensures DecodeEntry(EntryBytes(e) + rest) == Some(e)
  {
    hide LeBytes, LeNat, ValidName;
    Widths();
    var s := EntryBytes(e) + rest;
    LeNatOfBytes(e.inode, 4);
    LeNatOfBytes(e.length, 2);
    assert s[..4] == LeBytes(e.inode, 4) && s[4..6] == LeBytes(e.length, 2);
    assert s[6] == |e.name| && s[7] == e.kind;
    assert s[HEADER..HEADER + |e.name|] == e.name;
    assert s[HEADER + |e.name|..e.length] == Zeros(e.length - HEADER - |e.name|);
  }

  lemma EntryCanonical(s: seq<byte>)
    requires DecodeEntry(s).Some?
    ensures s[..DecodeEntry(s).value.length] == EntryBytes(DecodeEntry(s).value)
  {
    hide LeBytes, LeNat, ValidName;
    var e := DecodeEntry(s).value;
    LeBytesOfNat(s[..4]);
    LeBytesOfNat(s[4..6]);
    assert s[HEADER + |e.name|..e.length] == Zeros(e.length - HEADER - |e.name|);
    assert s[..e.length] == s[..4] + s[4..6] + [s[6], s[7]] + s[HEADER..HEADER + |e.name|] + s[HEADER + |e.name|..e.length];
  }

  // ---- Blocks ----

  /** The records that tile `s`, or None if it does not parse. */
  function Parse(s: seq<byte>): (r: Option<seq<Entry>>)
    ensures r.Some? ==> AllValid(r.value)
    decreases |s|
  {
    if s == [] then Some([])
    else
      match DecodeEntry(s)
      case None => None
      case Some(e) =>
        match Parse(s[e.length..])
        case None => None
        case Some(rest) => Some([e] + rest)
  }

  predicate AllValid(es: seq<Entry>) {
    forall i :: 0 <= i < |es| ==> ValidEntry(es[i])
  }

  function TotalLength(es: seq<Entry>): nat {
    if es == [] then 0 else es[0].length + TotalLength(es[1..])
  }

  function Tiles(es: seq<Entry>): (r: seq<byte>)
    requires AllValid(es)
    ensures |r| == TotalLength(es)
  {
    if es == [] then [] else EntryBytes(es[0]) + Tiles(es[1..])
  }

  lemma {:induction false} ParseRoundTrip(es: seq<Entry>)
    requires AllValid(es)
    ensures Parse(Tiles(es)) == Some(es)
  {
    hide EntryBytes, DecodeEntry, ValidEntry;
    if es != [] {
      EntryRoundTrip(es[0], Tiles(es[1..]));
      ParseRoundTrip(es[1..]);
      EntryIsNotEmpty(es[0]);
      assert Tiles(es)[es[0].length..] == Tiles(es[1..]);
      assert es == [es[0]] + es[1..];
    }
  }

  lemma EntryIsNotEmpty(e: Entry)
    requires ValidEntry(e)
    ensures e.length >= HEADER
  {}

  /** A block that parses is exactly its records: there is one encoding of each list of records. */
  lemma {:induction false} ParseCanonical(s: seq<byte>)
    requires Parse(s).Some?
    ensures Tiles(Parse(s).value) == s
    decreases |s|
  {
    hide EntryBytes, DecodeEntry, ValidEntry;
    if s != [] {
      var e := DecodeEntry(s).value;
      EntryIsNotEmpty(e);
      EntryCanonical(s);
      ParseCanonical(s[e.length..]);
      var es := Parse(s).value;
      assert es[0] == e && es[1..] == Parse(s[e.length..]).value;
      assert s == s[..e.length] + s[e.length..];
    }
  }

  lemma {:induction false} TilesAppend(a: seq<Entry>, b: seq<Entry>)
    requires AllValid(a) && AllValid(b)
    ensures AllValid(a + b) && Tiles(a + b) == Tiles(a) + Tiles(b)
  {
    hide EntryBytes, ValidEntry;
    if a == [] {
      assert a + b == b;
    } else {
      TilesAppend(a[1..], b);
      assert (a + b)[0] == a[0] && (a + b)[1..] == a[1..] + b;
      assert EntryBytes(a[0]) + (Tiles(a[1..]) + Tiles(b)) == (EntryBytes(a[0]) + Tiles(a[1..])) + Tiles(b);
    }
  }

  /** The records in use. */
  function Active(es: seq<Entry>): seq<Entry> {
    if es == [] then [] else (if es[0].inode != 0 then [es[0]] else []) + Active(es[1..])
  }

  lemma ActiveNone()
    ensures Active([]) == []
  {}

  lemma ActiveFirst(x: Entry, rest: seq<Entry>)
    ensures Active([x] + rest) == (if x.inode != 0 then [x] else []) + Active(rest)
  {
    assert ([x] + rest)[1..] == rest;
  }

  lemma {:induction false} ActiveAppend(a: seq<Entry>, b: seq<Entry>)
    ensures Active(a + b) == Active(a) + Active(b)
  {
    hide Active;
    ActiveNone();
    if a == [] {
      assert a + b == b;
    } else {
      ActiveAppend(a[1..], b);
      var rest := a[1..] + b;
      assert a + b == [a[0]] + rest;
      ActiveFirst(a[0], rest);
      ActiveFirst(a[0], a[1..]);
      assert a == [a[0]] + a[1..];
    }
  }

  // ---- Insertion ----

  /** The space a record can give to a new one; the subtraction cannot underflow. */
  function Room(e: Entry): (r: nat)
    requires ValidEntry(e)
    ensures r <= e.length
  {
    if e.inode == 0 then e.length else e.length - MinLength(|e.name|)
  }

  /** What a record can give: all of it if it is free, otherwise whatever leaves it a valid record. */
  lemma RoomIsWhatIsLeft(e: Entry, n: nat)
    requires ValidEntry(e) && 0 < n < e.length && n % 4 == 0
    ensures n <= Room(e) <==> e.inode == 0 || ValidEntry(e.(length := e.length - n))
  {
    hide ValidName;
    ValidNameIs(e.name);
  }

  /** A free record is taken over whole; an active one keeps its minimum and gives the rest. */
  function SplitEntry(e: Entry, added: Entry): (r: seq<Entry>)
    requires ValidEntry(e) && ValidEntry(added) && added.inode != 0 && Room(e) >= MinLength(|added.name|)
    ensures AllValid(r) && TotalLength(r) == e.length
    ensures Active(r) == (if e.inode == 0 then [] else [e.(length := MinLength(|e.name|))]) + [added.(length := Room(e))]
  {
    var taken := added.(length := Room(e));
    assert [taken][1..] == [];
    assert TotalLength([taken]) == taken.length && Active([taken]) == [taken];
    if e.inode == 0 then [taken]
    else
      var kept := e.(length := MinLength(|e.name|));
      assert [kept, taken][1..] == [taken];
      [kept, taken]
  }

  /** The first record with enough room. */
  function FirstFit(es: seq<Entry>, need: nat): (r: Option<nat>)
    requires AllValid(es)
    ensures r == None <==> forall i :: 0 <= i < |es| ==> Room(es[i]) < need
    ensures r.Some? ==>
      r.value < |es| && Room(es[r.value]) >= need && forall i :: 0 <= i < r.value ==> Room(es[i]) < need
  {
    if es == [] then None
    else if Room(es[0]) >= need then Some(0)
    else
      match FirstFit(es[1..], need)
      case None => None
      case Some(k) => Some(k + 1)
  }

  function Inserted(es: seq<Entry>, k: nat, added: Entry): (r: seq<Entry>)
    requires AllValid(es) && k < |es| && ValidEntry(added) && added.inode != 0 && Room(es[k]) >= MinLength(|added.name|)
    ensures AllValid(r)
  {
    es[..k] + SplitEntry(es[k], added) + es[k + 1..]
  }

  /** What a directory lists: names, types and inodes, without record lengths. */
  function Listed(es: seq<Entry>): (r: seq<Entry>)
    ensures |r| == |es|
    ensures forall i :: 0 <= i < |r| ==> r[i] == es[i].(length := 0)
  {
    seq(|es|, i requires 0 <= i < |es| => es[i].(length := 0))
  }

  /** Insertion adds one listed entry and keeps the others in order. */
  lemma InsertedLists(es: seq<Entry>, k: nat, added: Entry)
    requires AllValid(es) && k < |es| && ValidEntry(added) && added.inode != 0 && Room(es[k]) >= MinLength(|added.name|)
    ensures var at := |Active(es[..k + 1])|;
      && at <= |Active(es)|
      && Listed(Active(Inserted(es, k, added)))
         == Listed(Active(es))[..at] + [added.(length := 0)] + Listed(Active(es))[at..]
  {
    hide ValidEntry, MinLength, Active, Listed, SplitEntry;
    var head, mid, tail := es[..k], es[k], es[k + 1..];
    var split := SplitEntry(mid, added);
    assert es[..k + 1] == head + [mid];
    assert es == es[..k + 1] + tail;
    ActiveAppend(head, [mid]);
    ActiveAppend(es[..k + 1], tail);
    ActiveAppend(head, split);
    ActiveAppend(head + split, tail);
    var kept := if mid.inode == 0 then [] else [mid.(length := MinLength(|mid.name|))];
    OneActive(mid, kept, MinLength(|mid.name|));
    ListedAppend(Active(head), Active([mid]));
    ListedAppend(Active(es[..k + 1]), Active(tail));
    ListedAppend(kept, [added.(length := Room(mid))]);
    ListedAppend(Active(head), Active(split));
    ListedAppend(Active(head + split), Active(tail));
    ListedOne(added, Room(mid));
    Regroup(Listed(Active(head)), Listed(Active([mid])), [added.(length := 0)], Listed(Active(tail)));
  }

  lemma Regroup(a: seq<Entry>, m: seq<Entry>, x: seq<Entry>, t: seq<Entry>)
    ensures a + (m + x) + t == (a + m + t)[..|a + m|] + x + (a + m + t)[|a + m|..]
  {
    assert (a + m + t)[..|a + m|] == a + m && (a + m + t)[|a + m|..] == t;
  }

  lemma OneActive(e: Entry, kept: seq<Entry>, length: nat)
    requires kept == if e.inode == 0 then [] else [e.(length := length)]
    ensures Listed(kept) == Listed(Active([e]))
  {
    assert [e][1..] == [];
  }

  lemma ListedOne(e: Entry, length: nat)
    ensures Listed([e.(length := length)]) == [e.(length := 0)]
  {}

  lemma ListedAppend(a: seq<Entry>, b: seq<Entry>)
    ensures Listed(a + b) == Listed(a) + Listed(b)
  {}

  /** The block after insertion still tiles its full length and parses to the inserted records. */
  lemma InsertedTiles(s: seq<byte>, es: seq<Entry>, k: nat, added: Entry)
    requires Parse(s) == Some(es) && k < |es| && ValidEntry(added) && added.inode != 0
    requires Room(es[k]) >= MinLength(|added.name|)
    ensures var at := TotalLength(es[..k]);
      && at + es[k].length <= |s|
      && Tiles(Inserted(es, k, added)) == s[..at] + Tiles(SplitEntry(es[k], added)) + s[at + es[k].length..]
      && |Tiles(Inserted(es, k, added))| == |s|
      && Parse(Tiles(Inserted(es, k, added))) == Some(Inserted(es, k, added))
  {
    hide ValidEntry, EntryBytes, Parse, MinLength, SplitEntry, Tiles, TotalLength, AllValid, Room;
    var head, mid, tail := es[..k], es[k], es[k + 1..];
    ValidParts(es, k);
    var split := SplitEntry(mid, added);
    ParseCanonical(s);
    assert es == head + [mid] + tail;
    TilesOfThree(head, [mid], tail);
    TilesOfThree(head, split, tail);
    TilesOne(mid);
    ParseRoundTrip(Inserted(es, k, added));
    Replaced(s, Tiles(head), EntryBytes(mid), Tiles(tail), Tiles(split));
  }

  lemma ValidParts(es: seq<Entry>, k: nat)
    requires AllValid(es) && k < |es|
    ensures AllValid(es[..k]) && AllValid([es[k]]) && AllValid(es[k + 1..]) && ValidEntry(es[k])
  {
    hide ValidEntry;
  }

  lemma TilesOfThree(a: seq<Entry>, b: seq<Entry>, c: seq<Entry>)
    requires AllValid(a) && AllValid(b) && AllValid(c)
    ensures AllValid(a + b + c) && Tiles(a + b + c) == Tiles(a) + Tiles(b) + Tiles(c)
  {
    hide Tiles, AllValid;
    TilesAppend(a, b);
    TilesAppend(a + b, c);
  }

  lemma Replaced(s: seq<byte>, a: seq<byte>, m: seq<byte>, t: seq<byte>, x: seq<byte>)
    requires s == a + m + t && |x| == |m|
    ensures a + x + t == s[..|a|] + x + s[|a| + |m|..] && |a + x + t| == |s|
  {
    assert s[..|a|] == a && s[|a| + |m|..] == t;
  }

  lemma TilesOne(e: Entry)
    requires ValidEntry(e)
    ensures Tiles([e]) == EntryBytes(e)
  {
    assert [e][1..] == [];
    assert EntryBytes(e) + [] == EntryBytes(e);
  }

  datatype Insertion = Done(block: Block) | NoRoom | Malformed

  /** `TryInsertDirectoryEntry`: walks the records and splits the first one with room. For every block
      that parses it succeeds exactly when some record has room. */
  method TryInsert(block: Block, added: Entry) returns (r: Insertion)
    requires ValidEntry(added) && added.inode != 0
    ensures Parse(block).Some? ==>
      var es := Parse(block).value;
      match FirstFit(es, MinLength(|added.name|))
      case None => r == NoRoom
      case Some(k) => r.Done? && Parse(r.block) == Some(Inserted(es, k, added))
  {
    hide ValidEntry, EntryBytes, DecodeEntry, MinLength, Room, SplitEntry, FirstFit, Inserted, Tiles, Parse, TotalLength;
    var need := MinLength(|added.name|);
    var offset := 0;
    ghost var es := if Parse(block).Some? then Parse(block).value else [];
    ghost var k := 0;
    if Parse(block).Some? {
      AtStart(block);
    }
    while offset < |block|
      invariant offset <= |block|
      invariant Parse(block).Some? ==> AtRecord(block, es, k, offset) && forall j :: 0 <= j < k ==> Room(es[j]) < need
      decreases |block| - offset
    {
      var current := DecodeEntry(block[offset..]);
      if Parse(block).Some? {
        AtNextRecord(block, es, k, offset);
      }
      if current == None {
        return Malformed;
      }
      var e := current.value;
      EntryIsNotEmpty(e);
      if Room(e) >= need {
        SplitFits(e, added);
        var after := Splice(block, offset, Tiles(SplitEntry(e, added)));
        if Parse(block).Some? {
          FitIs(es, need, k);
          InsertedTiles(block, es, k, added);
          assert after == Tiles(Inserted(es, k, added));
        }
        return Done(after);
      }
      offset := offset + e.length;
      k := k + 1;
    }
    if Parse(block).Some? {
      AllRead(block, es, k, offset);
    }
    r := NoRoom;
  }

  /** `offset` is where record `k` starts. */
  ghost predicate AtRecord(s: seq<byte>, es: seq<Entry>, k: nat, offset: nat) {
    k <= |es| && offset <= |s| && AllValid(es) && offset == TotalLength(es[..k]) && Parse(s[offset..]) == Some(es[k..])
  }

  lemma AtStart(s: seq<byte>)
    requires Parse(s).Some?
    ensures AtRecord(s, Parse(s).value, 0, 0)
  {
    hide Parse;
    assert s[0..] == s && Parse(s).value[0..] == Parse(s).value;
  }

  lemma AtNextRecord(s: seq<byte>, es: seq<Entry>, k: nat, offset: nat)
    requires AtRecord(s, es, k, offset) && offset < |s|
    ensures k < |es| && DecodeEntry(s[offset..]) == Some(es[k]) && offset + es[k].length <= |s|
    ensures AtRecord(s, es, k + 1, offset + es[k].length)
  {
    hide ValidEntry, DecodeEntry;
    var e := es[k];
    assert s[offset..][e.length..] == s[offset + e.length..];
    assert es[k..][1..] == es[k + 1..];
    assert es[..k + 1] == es[..k] + [e];
    TotalLengthAppend(es[..k], [e]);
    assert [e][1..] == [];
  }

  lemma {:induction false} TotalLengthAppend(a: seq<Entry>, b: seq<Entry>)
    ensures TotalLength(a + b) == TotalLength(a) + TotalLength(b)
  {
    if a == [] {
      assert a + b == b;
    } else {
      TotalLengthAppend(a[1..], b);
      assert (a + b)[0] == a[0] && (a + b)[1..] == a[1..] + b;
    }
  }

  lemma SplitFits(e: Entry, added: Entry)
    requires ValidEntry(e) && ValidEntry(added) && added.inode != 0 && Room(e) >= MinLength(|added.name|)
    ensures |Tiles(SplitEntry(e, added))| == e.length
  {
    hide ValidEntry, SplitEntry, Room, MinLength;
  }

  lemma FitIs(es: seq<Entry>, need: nat, k: nat)
    requires AllValid(es) && k < |es| && Room(es[k]) >= need && forall j :: 0 <= j < k ==> Room(es[j]) < need
    ensures FirstFit(es, need) == Some(k)
  {
    hide FirstFit;
  }

  lemma AllRead(s: seq<byte>, es: seq<Entry>, k: nat, offset: nat)
    requires AtRecord(s, es, k, offset) && offset == |s|
    ensures k == |es|
  {
    assert s[offset..] == [];
  }
}
