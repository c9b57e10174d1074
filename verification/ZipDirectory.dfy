/**
 Walking the central directory of a ZIP file (sections 4.3.12 and 4.3.16 of the PKWARE APPNOTE): what a writer
 writes, the walker visits, and it accepts exactly the directories that keep the rules.
 */
module ZipDirectory {
  import opened Wrappers

  type Bytes = seq<Byte>

  const MAX_ENTRIES := 1000
  const MAX_UNCOMPRESSED := 20 * 1024 * 1024
  const MAX_RATIO := 100
  const NO_SIZE := 0xFFFF_FFFF
  const END_SIGNATURE: Bytes := [0x50, 0x4B, 0x05, 0x06]
  const ENTRY_SIGNATURE: Bytes := [0x50, 0x4B, 0x01, 0x02]
  const END_SIZE := 22
  const HEADER_SIZE := 46
  const MAX_COMMENT := 65535

  // ---------- Numbers in bytes ----------

  function Read16(b: Bytes, i: nat): (n: nat)
    requires i + 2 <= |b|
    ensures n < 0x1_0000
  {
    var low: int, high: int := b[i], b[i + 1];
    low + high * 0x100
  }

  function Read32(b: Bytes, i: nat): (n: nat)
    requires i + 4 <= |b|
    ensures n < 0x1_0000_0000
  {
    Read16(b, i) + Read16(b, i + 2) * 0x1_0000
  }

  function Write16(n: nat): (b: Bytes)
    requires n < 0x1_0000
    ensures |b| == 2 && Read16(b, 0) == n
  {
    [n % 0x100, n / 0x100]
  }

  function Write32(n: nat): (b: Bytes)
    requires n < 0x1_0000_0000
    ensures |b| == 4 && Read32(b, 0) == n
  {
    Write16(n % 0x1_0000) + Write16(n / 0x1_0000)
  }

  // ---------- The walker ----------

  /** The fields of a directory entry that the walker looks at. */
  datatype Header = Header(
    flags: nat, compression: nat, compressed: nat, uncompressed: nat, name: Bytes, size: nat)

  /** The rules for one entry; `nameAllowed` is the rule for names. */
  predicate Allowed(h: Header, nameAllowed: Bytes -> bool)
  {
    && h.flags % 2 == 0 && h.compressed != NO_SIZE && h.uncompressed != NO_SIZE && nameAllowed(h.name)
    && !(h.compressed > 0 && h.uncompressed > MAX_RATIO * h.compressed)
    && (h.compression == 0 || h.compression == 8)
  }

  predicate SignatureAt(b: Bytes, i: nat)
  {
    i + 4 <= |b| && b[i..i + 4] == END_SIGNATURE
  }

  /** Where the walker takes the end record to be: at the last signature that leaves room for one. */
  ghost predicate EndAt(b: Bytes, i: nat)
  {
    && i + END_SIZE <= |b| <= i + END_SIZE + MAX_COMMENT && SignatureAt(b, i)
    && forall j | i < j <= |b| - END_SIZE :: !SignatureAt(b, j)
  }

  predicate EntryAt(b: Bytes, cursor: nat)
  {
    cursor + HEADER_SIZE <= |b| && b[cursor] == 0x50 && b[cursor + 1] == 0x4B
  }

  /** The name is cut off where the file ends. */
  function HeaderAt(b: Bytes, cursor: nat): Header
    requires EntryAt(b, cursor)
  {
    var nameLength := Read16(b, cursor + 28);
    var start := cursor + HEADER_SIZE;
    Header(Read16(b, cursor + 8), Read16(b, cursor + 10), Read32(b, cursor + 20), Read32(b, cursor + 24),
           b[start..if start + nameLength <= |b| then start + nameLength else |b|],
           HEADER_SIZE + nameLength + Read16(b, cursor + 30) + Read16(b, cursor + 32))
  }

  /** The entries visited from a cursor, or nothing when one of them is not there. */
  function Visited(b: Bytes, cursor: nat, count: nat): Option<seq<Header>>
    decreases count
  {
    if count == 0 then Some([])
    else if !EntryAt(b, cursor) then None
    else
      var h := HeaderAt(b, cursor);
      var rest := Visited(b, cursor + h.size, count - 1);
      if rest.None? then None else Some([h] + rest.value)
  }

  function Total(hs: seq<Header>): nat { if hs == [] then 0 else hs[0].uncompressed + Total(hs[1..]) }

  predicate AllAllowed(hs: seq<Header>, nameAllowed: Bytes -> bool)
  {
    forall i | 0 <= i < |hs| :: Allowed(hs[i], nameAllowed)
  }

  /** What the walker decides once it has found an end record. */
  predicate Passes(b: Bytes, end: nat, nameAllowed: Bytes -> bool)
    requires end + END_SIZE <= |b|
  {
    var count, size, start := Read16(b, end + 10), Read32(b, end + 12), Read32(b, end + 16);
    count <= MAX_ENTRIES && start + size <= |b| && Keeps(Visited(b, start, count), nameAllowed)
  }

  /** All entries are there, each keeps the rules, and their sizes sum to no more than the limit. */
  predicate Keeps(visited: Option<seq<Header>>, nameAllowed: Bytes -> bool)
  {
    visited.Some? && AllAllowed(visited.value, nameAllowed) && Total(visited.value) <= MAX_UNCOMPRESSED
  }

  lemma SignatureIs(b: Bytes, i: nat)
    requires i + 4 <= |b|
    ensures SignatureAt(b, i) <==> b[i] == 0x50 && b[i + 1] == 0x4B && b[i + 2] == 0x05 && b[i + 3] == 0x06
  {
    var s := b[i..i + 4];
    assert s[0] == b[i] && s[1] == b[i + 1] && s[2] == b[i + 2] && s[3] == b[i + 3];
    assert s == [s[0], s[1], s[2], s[3]];
  }

  /** The search for the end record, from the back. */
  method FindEnd(b: Bytes) returns (end: int)
    ensures end >= 0 ==> EndAt(b, end)
    ensures end < 0 ==> end == -1 && forall i: nat :: !EndAt(b, i)
  {
    end := -1;
    var min := if |b| - END_SIZE - MAX_COMMENT > 0 then |b| - END_SIZE - MAX_COMMENT else 0;
    var index := |b| - END_SIZE;
    while index >= min
      invariant min - 1 <= index || index == |b| - END_SIZE
      invariant index <= |b| - END_SIZE
      invariant forall j: nat | index < j <= |b| - END_SIZE :: !SignatureAt(b, j)
      decreases index
    {
      SignatureIs(b, index);
      if b[index] == 0x50 && b[index + 1] == 0x4B && b[index + 2] == 0x05 && b[index + 3] == 0x06 { return index; }
      index := index - 1;
    }
  }

  /**
   `inspectZip`, for any bytes at all: every read is in bounds, and the verdict is that of the rules on the entries
   that the last end record leads to.
   */
  method InspectZip(b: Bytes, nameAllowed: Bytes -> bool) returns (accepted: bool)
    ensures forall end: nat | EndAt(b, end) :: accepted <==> Passes(b, end, nameAllowed)
    ensures accepted ==> exists end: nat :: EndAt(b, end)
  {
    hide Keeps, Visited, Read16, Read32;
    var end := FindEnd(b);
    if end < 0 { return false; }
    OneEnd(b, end);
    hide EndAt;
    var entryCount := Read16(b, end + 10);
    var cdSize := Read32(b, end + 12);
    var cdOffset := Read32(b, end + 16);
    if entryCount > MAX_ENTRIES || cdOffset + cdSize > |b| { return false; }
    accepted := WalkDirectory(b, cdOffset, entryCount, nameAllowed);
  }

  method WalkDirectory(b: Bytes, cdOffset: nat, entryCount: nat, nameAllowed: Bytes -> bool) returns (accepted: bool)
    ensures accepted <==> Keeps(Visited(b, cdOffset, entryCount), nameAllowed)
  {
    hide Allowed, HeaderAt, Visited, EntryAt, Keeps;
    var cursor: nat := cdOffset;
    var uncompressedTotal := 0;
    ghost var seen: seq<Header> := [];
    ghost var visited := Visited(b, cdOffset, entryCount);
    var index := 0;
    NoneSeen(visited, nameAllowed);
    while index < entryCount
      invariant 0 <= index <= entryCount
      invariant AllAllowed(seen, nameAllowed) && uncompressedTotal == Total(seen) <= MAX_UNCOMPRESSED
      invariant visited == Prepend(seen, Visited(b, cursor, entryCount - index))
    {
      VisitedGoesOn(b, cursor, entryCount - index, seen, nameAllowed);
      if !EntryAt(b, cursor) { return false; }
      var h := HeaderAt(b, cursor);
      TotalNext(seen, h);
      if !Allowed(h, nameAllowed) || uncompressedTotal + h.uncompressed > MAX_UNCOMPRESSED {
        RefusedStays(visited, seen + [h], nameAllowed);
        return false;
      }
      uncompressedTotal := uncompressedTotal + h.uncompressed;
      seen := seen + [h];
      cursor := cursor + h.size;
      index := index + 1;
    }
    AllSeen(b, cursor, seen, nameAllowed);
    return true;
  }

  function Prepend(seen: seq<Header>, rest: Option<seq<Header>>): Option<seq<Header>>
  {
    if rest.None? then None else Some(seen + rest.value)
  }

  lemma NoneSeen(visited: Option<seq<Header>>, nameAllowed: Bytes -> bool)
    ensures visited == Prepend([], visited) && AllAllowed([], nameAllowed)
  {
    if visited.Some? { assert [] + visited.value == visited.value; }
  }

  lemma AllSeen(b: Bytes, cursor: nat, seen: seq<Header>, nameAllowed: Bytes -> bool)
    requires AllAllowed(seen, nameAllowed) && Total(seen) <= MAX_UNCOMPRESSED
    ensures Keeps(Prepend(seen, Visited(b, cursor, 0)), nameAllowed)
  {
    assert seen + [] == seen;
  }

  lemma OneEnd(b: Bytes, end: nat)
    requires EndAt(b, end)
    ensures forall i: nat | EndAt(b, i) :: i == end
  {
  }

  lemma {:induction false} TotalNext(hs: seq<Header>, h: Header)
    ensures Total(hs + [h]) == Total(hs) + h.uncompressed
  {
    if hs != [] {
      TotalNext(hs[1..], h);
      assert (hs + [h])[1..] == hs[1..] + [h];
    } else {
      assert [h][1..] == [];
    }
  }

  lemma {:induction false} TotalPrefix(hs: seq<Header>, n: nat)
    requires n <= |hs|
    ensures Total(hs[..n]) <= Total(hs)
  {
    if n > 0 {
      TotalPrefix(hs[1..], n - 1);
      assert hs[..n][1..] == hs[1..][..n - 1];
    }
  }

  lemma VisitedGoesOn(b: Bytes, cursor: nat, count: nat, seen: seq<Header>, nameAllowed: Bytes -> bool)
    requires count > 0
    ensures !EntryAt(b, cursor) ==> !Keeps(Prepend(seen, Visited(b, cursor, count)), nameAllowed)
    ensures EntryAt(b, cursor) ==>
      var h := HeaderAt(b, cursor);
      var rest, next := Visited(b, cursor, count), Visited(b, cursor + h.size, count - 1);
      && Prepend(seen, rest) == Prepend(seen + [h], next)
      && (Prepend(seen, rest).Some? ==> seen + [h] <= Prepend(seen, rest).value)
      && (AllAllowed(seen, nameAllowed) && Allowed(h, nameAllowed) ==> AllAllowed(seen + [h], nameAllowed))
  {
    hide HeaderAt, Allowed;
    if EntryAt(b, cursor) {
      var h := HeaderAt(b, cursor);
      var next := Visited(b, cursor + h.size, count - 1);
      if next.Some? { assert seen + ([h] + next.value) == (seen + [h]) + next.value; }
    }
  }

  /** An entry that breaks a rule spoils every list it begins. */
  lemma RefusedStays(visited: Option<seq<Header>>, seen: seq<Header>, nameAllowed: Bytes -> bool)
    requires seen != [] && (visited.Some? ==> seen <= visited.value)
    requires !Allowed(seen[|seen| - 1], nameAllowed) || Total(seen) > MAX_UNCOMPRESSED
    ensures !Keeps(visited, nameAllowed)
  {
    hide Allowed;
    if visited.Some? {
      TotalPrefix(visited.value, |seen|);
      assert visited.value[..|seen|] == seen;
      assert visited.value[|seen| - 1] == seen[|seen| - 1];
    }
  }

  // ---------- The writer ----------

  /** A directory entry to write; the last three parts are fields the walker does not look at. */
  datatype Entry = Entry(
    flags: nat, compression: nat, compressed: nat, uncompressed: nat, name: Bytes, extra: Bytes, comment: Bytes,
    versions: Bytes, stamps: Bytes, placement: Bytes)
  {
    predicate Writable()
    {
      && flags < 0x1_0000 && compression < 0x1_0000 && compressed < 0x1_0000_0000 && uncompressed < 0x1_0000_0000
      && |name| < 0x1_0000 && |extra| < 0x1_0000 && |comment| < 0x1_0000
      && |versions| == 4 && |stamps| == 8 && |placement| == 12
    }

    function Seen(): Header
    {
      Header(flags, compression, compressed, uncompressed, name, HEADER_SIZE + |name| + |extra| + |comment|)
    }
  }

  function FixedBytes(e: Entry): (b: Bytes)
    requires e.Writable()
    ensures |b| == HEADER_SIZE
  {
    ENTRY_SIGNATURE + e.versions + Write16(e.flags) + Write16(e.compression) + e.stamps
    + Write32(e.compressed) + Write32(e.uncompressed)
    + Write16(|e.name|) + Write16(|e.extra|) + Write16(|e.comment|) + e.placement
  }

  function EntryBytes(e: Entry): (b: Bytes)
    requires e.Writable()
    ensures |b| == e.Seen().size
  {
    FixedBytes(e) + e.name + e.extra + e.comment
  }

  predicate AllWritable(es: seq<Entry>) { forall i | 0 <= i < |es| :: es[i].Writable() }

  function Directory(es: seq<Entry>): Bytes
    requires AllWritable(es)
  {
    if es == [] then [] else EntryBytes(es[0]) + Directory(es[1..])
  }

  /** An end record without a comment. */
  function EndBytes(disks: Bytes, count: nat, size: nat, offset: nat): (b: Bytes)
    requires |disks| == 6 && count < 0x1_0000 && size < 0x1_0000_0000 && offset < 0x1_0000_0000
    ensures |b| == END_SIZE
  {
    END_SIGNATURE + disks + Write16(count) + Write32(size) + Write32(offset) + Write16(0)
  }

  predicate Fits(content: Bytes, es: seq<Entry>, disks: Bytes)
  {
    && AllWritable(es) && |disks| == 6 && |es| < 0x1_0000
    && |content| < 0x1_0000_0000 && |Directory(es)| < 0x1_0000_0000
  }

  /** Whatever precedes the directory, the directory, and the end record. */
  function Archive(content: Bytes, es: seq<Entry>, disks: Bytes): Bytes
    requires Fits(content, es, disks)
  {
    content + Directory(es) + EndBytes(disks, |es|, |Directory(es)|, |content|)
  }

  function Headers(es: seq<Entry>): (hs: seq<Header>)
    ensures |hs| == |es|
  {
    seq(|es|, i requires 0 <= i < |es| => es[i].Seen())
  }

  // ---------- Reading what was written ----------

  lemma Read16At(b: Bytes, i: nat, n: nat)
    requires n < 0x1_0000 && i + 2 <= |b| && b[i..i + 2] == Write16(n)
    ensures Read16(b, i) == n
  {
    assert b[i] == b[i..i + 2][0] && b[i + 1] == b[i..i + 2][1];
  }

  lemma Read32At(b: Bytes, i: nat, n: nat)
    requires n < 0x1_0000_0000 && i + 4 <= |b| && b[i..i + 4] == Write32(n)
    ensures Read32(b, i) == n
  {
    assert b[i..i + 2] == Write32(n)[..2] == Write16(n % 0x1_0000);
    assert b[i + 2..i + 4] == Write32(n)[2..] == Write16(n / 0x1_0000);
    Read16At(b, i, n % 0x1_0000);
    Read16At(b, i + 2, n / 0x1_0000);
  }

  /** Reading at an offset of a slice is reading the slice. */
  lemma Shift16(b: Bytes, at: nat, part: Bytes, i: nat)
    requires at + |part| <= |b| && b[at..at + |part|] == part && i + 2 <= |part|
    ensures Read16(b, at + i) == Read16(part, i)
  {
    assert part[i] == b[at + i] && part[i + 1] == b[at + i + 1];
  }

  lemma Shift32(b: Bytes, at: nat, part: Bytes, i: nat)
    requires at + |part| <= |b| && b[at..at + |part|] == part && i + 4 <= |part|
    ensures Read32(b, at + i) == Read32(part, i)
  {
    Shift16(b, at, part, i);
    Shift16(b, at, part, i + 2);
  }

  lemma FixedFields(e: Entry)
    requires e.Writable()
    ensures var b := FixedBytes(e);
            && b[0] == 0x50 && b[1] == 0x4B && Read16(b, 8) == e.flags && Read16(b, 10) == e.compression
            && Read32(b, 20) == e.compressed && Read32(b, 24) == e.uncompressed
            && Read16(b, 28) == |e.name| && Read16(b, 30) == |e.extra| && Read16(b, 32) == |e.comment|
  {
    hide Write16, Write32, Read16, Read32;
    var b := FixedBytes(e);
    assert b[8..10] == Write16(e.flags);
    assert b[10..12] == Write16(e.compression);
    assert b[20..24] == Write32(e.compressed);
    assert b[24..28] == Write32(e.uncompressed);
    assert b[28..30] == Write16(|e.name|);
    assert b[30..32] == Write16(|e.extra|);
    assert b[32..34] == Write16(|e.comment|);
    Read16At(b, 8, e.flags);
    Read16At(b, 10, e.compression);
    Read32At(b, 20, e.compressed);
    Read32At(b, 24, e.uncompressed);
    Read16At(b, 28, |e.name|);
    Read16At(b, 30, |e.extra|);
    Read16At(b, 32, |e.comment|);
  }

  /** The walker reads an entry as it was written. */
  lemma EntryRead(b: Bytes, cursor: nat, e: Entry)
    requires e.Writable() && cursor + e.Seen().size <= |b|
    requires b[cursor..cursor + e.Seen().size] == EntryBytes(e)
    ensures EntryAt(b, cursor) && HeaderAt(b, cursor) == e.Seen()
  {
    FixedFields(e);
    hide Read16, Read32;
    var f := FixedBytes(e);
    EntryParts(b, cursor, e);
    Shift16(b, cursor, f, 8);
    Shift16(b, cursor, f, 10);
    Shift32(b, cursor, f, 20);
    Shift32(b, cursor, f, 24);
    Shift16(b, cursor, f, 28);
    Shift16(b, cursor, f, 30);
    Shift16(b, cursor, f, 32);
  }

  lemma Slice(b: Bytes, at: nat, part: Bytes, i: nat, j: nat)
    requires at + |part| <= |b| && b[at..at + |part|] == part && i <= j <= |part|
    ensures b[at + i..at + j] == part[i..j]
  {
    forall k | 0 <= k < j - i ensures b[at + i..at + j][k] == part[i..j][k] {
      assert b[at..at + |part|][i + k] == b[at + i + k];
    }
  }

  lemma EntryParts(b: Bytes, cursor: nat, e: Entry)
    requires e.Writable() && cursor + e.Seen().size <= |b|
    requires b[cursor..cursor + e.Seen().size] == EntryBytes(e)
    ensures b[cursor..cursor + HEADER_SIZE] == FixedBytes(e)
    ensures b[cursor] == FixedBytes(e)[0] && b[cursor + 1] == FixedBytes(e)[1]
    ensures b[cursor + HEADER_SIZE..cursor + HEADER_SIZE + |e.name|] == e.name
  {
    var all := EntryBytes(e);
    assert all[..HEADER_SIZE] == FixedBytes(e) && all[HEADER_SIZE..HEADER_SIZE + |e.name|] == e.name;
    hide FixedBytes, EntryBytes;
    Slice(b, cursor, all, 0, HEADER_SIZE);
    Slice(b, cursor, all, HEADER_SIZE, HEADER_SIZE + |e.name|);
    assert all[0] == all[..HEADER_SIZE][0] && all[1] == all[..HEADER_SIZE][1];
    assert b[cursor] == b[cursor..cursor + HEADER_SIZE][0] && b[cursor + 1] == b[cursor..cursor + HEADER_SIZE][1];
  }

  /** The walker visits exactly the entries that were written, in order. */
  lemma {:induction false} DirectoryVisited(b: Bytes, cursor: nat, es: seq<Entry>)
    requires AllWritable(es) && cursor + |Directory(es)| <= |b|
    requires b[cursor..cursor + |Directory(es)|] == Directory(es)
    ensures Visited(b, cursor, |es|) == Some(Headers(es))
    decreases |es|
  {
    hide HeaderAt, EntryBytes, EntryAt;
    if es != [] {
      var e, rest := es[0], Directory(es[1..]);
      var n := e.Seen().size;
      assert Directory(es) == EntryBytes(e) + rest;
      SplitSlice(b, cursor, EntryBytes(e), rest);
      EntryRead(b, cursor, e);
      DirectoryVisited(b, cursor + n, es[1..]);
      assert Headers(es) == [e.Seen()] + Headers(es[1..]);
    }
  }

  lemma SplitSlice(b: Bytes, at: nat, x: Bytes, y: Bytes)
    requires at + |x + y| <= |b| && b[at..at + |x + y|] == x + y
    ensures b[at..at + |x|] == x && b[at + |x|..at + |x| + |y|] == y
  {
    assert b[at..at + |x|] == (x + y)[..|x|];
    assert b[at + |x|..at + |x| + |y|] == (x + y)[|x|..];
  }

  lemma EndFields(disks: Bytes, count: nat, size: nat, offset: nat)
    requires |disks| == 6 && count < 0x1_0000 && size < 0x1_0000_0000 && offset < 0x1_0000_0000
    ensures var b := EndBytes(disks, count, size, offset);
            && b[..4] == END_SIGNATURE
            && Read16(b, 10) == count && Read32(b, 12) == size && Read32(b, 16) == offset
  {
    hide Write16, Write32, Read16, Read32;
    var b := EndBytes(disks, count, size, offset);
    assert b[10..12] == Write16(count);
    assert b[12..16] == Write32(size);
    assert b[16..20] == Write32(offset);
    Read16At(b, 10, count);
    Read32At(b, 12, size);
    Read32At(b, 16, offset);
  }

  lemma ThreeParts(a: Bytes, d: Bytes, e: Bytes)
    ensures var b := a + d + e; b[|a|..|a| + |d|] == d && b[|a| + |d|..|a| + |d| + |e|] == e && |b| == |a| + |d| + |e|
  {
  }

  /** The end record of an archive is found, and says what was written. */
  lemma ArchiveEnd(content: Bytes, es: seq<Entry>, disks: Bytes)
    requires Fits(content, es, disks)
    ensures var b := Archive(content, es, disks);
            var end := |content| + |Directory(es)|;
            && |b| == end + END_SIZE && EndAt(b, end)
            && Read16(b, end + 10) == |es| && Read32(b, end + 12) == |Directory(es)|
            && Read32(b, end + 16) == |content|
            && b[|content|..|content| + |Directory(es)|] == Directory(es)
  {
    hide Read16, Read32, EndBytes, Directory, EndAt, Archive, AllWritable;
    var b := Archive(content, es, disks);
    ArchiveParts(content, es, disks);
    RecordRead(b, |content| + |Directory(es)|, disks, |es|, |Directory(es)|, |content|);
  }

  lemma ArchiveParts(content: Bytes, es: seq<Entry>, disks: Bytes)
    requires Fits(content, es, disks)
    ensures var b := Archive(content, es, disks);
            var end := |content| + |Directory(es)|;
            && |b| == end + END_SIZE && b[|content|..end] == Directory(es)
            && b[end..end + END_SIZE] == EndBytes(disks, |es|, |Directory(es)|, |content|)
  {
    ThreeParts(content, Directory(es), EndBytes(disks, |es|, |Directory(es)|, |content|));
    hide EndBytes, Directory, AllWritable;
  }

  /** An end record at the end of a file is the last one there is room for, and is read as it was written. */
  lemma RecordRead(b: Bytes, end: nat, disks: Bytes, count: nat, size: nat, offset: nat)
    requires |disks| == 6 && count < 0x1_0000 && size < 0x1_0000_0000 && offset < 0x1_0000_0000
    requires |b| == end + END_SIZE && b[end..end + END_SIZE] == EndBytes(disks, count, size, offset)
    ensures EndAt(b, end)
    ensures Read16(b, end + 10) == count && Read32(b, end + 12) == size && Read32(b, end + 16) == offset
  {
    var record := EndBytes(disks, count, size, offset);
    EndFields(disks, count, size, offset);
    hide Read16, Read32, EndBytes;
    Slice(b, end, record, 0, 4);
    Shift16(b, end, record, 10);
    Shift32(b, end, record, 12);
    Shift32(b, end, record, 16);
  }

  /** An entry as written keeps the rules: not encrypted, its sizes given, stored or deflated at most a hundredfold. */
  predicate Acceptable(e: Entry, nameAllowed: Bytes -> bool)
  {
    && e.flags % 2 != 1 && e.compressed != 0xFFFF_FFFF && e.uncompressed != 0xFFFF_FFFF && nameAllowed(e.name)
    && (e.compressed == 0 || e.uncompressed <= 100 * e.compressed)
    && e.compression in {0, 8}
  }

  function Uncompressed(es: seq<Entry>): nat { if es == [] then 0 else es[0].uncompressed + Uncompressed(es[1..]) }

  lemma {:induction false} TotalWritten(es: seq<Entry>)
    ensures Total(Headers(es)) == Uncompressed(es)
  {
    if es != [] {
      TotalWritten(es[1..]);
      assert Headers(es)[1..] == Headers(es[1..]);
    }
  }

  lemma AcceptableIff(e: Entry, nameAllowed: Bytes -> bool)
    ensures Allowed(e.Seen(), nameAllowed) <==> Acceptable(e, nameAllowed)
  {
  }

  lemma AllAcceptableIff(es: seq<Entry>, nameAllowed: Bytes -> bool)
    ensures AllAllowed(Headers(es), nameAllowed) <==> forall i | 0 <= i < |es| :: Acceptable(es[i], nameAllowed)
  {
    forall i | 0 <= i < |es| ensures Allowed(Headers(es)[i], nameAllowed) <==> Acceptable(es[i], nameAllowed) {
      AcceptableIff(es[i], nameAllowed);
    }
    hide Allowed, Acceptable, Headers;
  }

  /** Records are told by these four bytes, and entries by the first two of theirs. */
  lemma Signatures(e: Entry, disks: Bytes, count: nat, size: nat, offset: nat)
    requires e.Writable()
    requires |disks| == 6 && count < 0x1_0000 && size < 0x1_0000_0000 && offset < 0x1_0000_0000
    ensures EntryBytes(e)[..4] == [0x50, 0x4B, 0x01, 0x02]
    ensures EndBytes(disks, count, size, offset)[..4] == [0x50, 0x4B, 0x05, 0x06]
    ensures EndBytes(disks, count, size, offset)[20..] == [0, 0]
  {
    hide Write16, Write32;
    assert EntryBytes(e)[..4] == ENTRY_SIGNATURE;
    assert Write16(0) == [0, 0] by { WriteNothing(); }
  }

  lemma WriteNothing()
    ensures Write16(0) == [0, 0]
  {
  }

  lemma EntryAtIff(b: Bytes, cursor: nat)
    ensures EntryAt(b, cursor) <==> cursor + 46 <= |b| && b[cursor..cursor + 2] == [0x50, 0x4B]
  {
    if cursor + 46 <= |b| { assert b[cursor..cursor + 2] == [b[cursor], b[cursor + 1]]; }
  }

  lemma PassesIff(b: Bytes, end: nat, start: nat, es: seq<Entry>, nameAllowed: Bytes -> bool)
    requires end + END_SIZE <= |b| && Visited(b, start, |es|) == Some(Headers(es))
    requires Read16(b, end + 10) == |es| && Read32(b, end + 16) == start && start + Read32(b, end + 12) <= |b|
    ensures Passes(b, end, nameAllowed) <==>
      && |es| <= 1000 && Uncompressed(es) <= 20 * 1024 * 1024
      && forall i | 0 <= i < |es| :: Acceptable(es[i], nameAllowed)
  {
    TotalWritten(es);
    AllAcceptableIff(es, nameAllowed);
    hide Read16, Read32, Visited, Headers, Total, Uncompressed, AllAllowed, Acceptable;
  }

  /**
   Writer and walker agree: an archive is accepted exactly when there are at most a thousand entries, each keeps
   the rules, and their sizes sum to no more than twenty megabytes.
   */
  lemma ArchiveAcceptedIff(content: Bytes, es: seq<Entry>, disks: Bytes, nameAllowed: Bytes -> bool)
    requires Fits(content, es, disks)
    ensures var b := Archive(content, es, disks);
            var end := |content| + |Directory(es)|;
            && EndAt(b, end) && Visited(b, |content|, |es|) == Some(Headers(es))
            && (Passes(b, end, nameAllowed) <==>
                  && |es| <= 1000 && Uncompressed(es) <= 20 * 1024 * 1024
                  && forall i | 0 <= i < |es| :: Acceptable(es[i], nameAllowed))
  {
    var b := Archive(content, es, disks);
    ArchiveEnd(content, es, disks);
    hide Read16, Read32, EndBytes, EndAt, Archive, Headers, Visited, Total, Uncompressed, Acceptable, Directory, Passes;
    DirectoryVisited(b, |content|, es);
    PassesIff(b, |content| + |Directory(es)|, |content|, es, nameAllowed);
  }
}
