/**
 The NT_FILE note of a core dump (kit/coredump): ranges first, then as many
 NUL-terminated names. The parser is proved against a writer of the format.
 */
module NtFile {
  import opened Wrappers
  import opened LittleEndian
  import opened Kindasafe

  datatype Entry = Entry(start: U64, end: U64, pages: U64)

  datatype Mapping = Mapping(vaddr: U64, length: U64, flags: U32, fileOffset: U64, path: Option<seq<Byte>>)

  /** Overflow is the panic of unchecked 64-bit arithmetic. */
  datatype Error = TooShort | TruncatedEntries | MissingNul | Overflow

  const MAX: U64 := 0xFFFF_FFFF_FFFF_FFFF
  const HEADER: nat := 16
  const ENTRY_SIZE: nat := 24

  // ----------------------------------------------------------------- the parser

  function EntryAt(desc: seq<Byte>, base: nat): Entry
    requires base + ENTRY_SIZE <= |desc|
  {
    Entry(U64At(desc, base), U64At(desc, base + 8), U64At(desc, base + 16))
  }

  function EntriesAt(desc: seq<Byte>, n: nat): (r: seq<Entry>)
    requires HEADER + n * ENTRY_SIZE <= |desc|
    ensures |r| == n
  {
    if n == 0 then [] else EntriesAt(desc, n - 1) + [EntryAt(desc, HEADER + (n - 1) * ENTRY_SIZE)]
  }

  function MappingOf(e: Entry, pageSize: U64, path: seq<Byte>): Result<Mapping, Error> {
    if e.start > e.end || e.pages * pageSize > MAX then Failure(Overflow)
    else Success(Mapping(e.start, e.end - e.start, 0, e.pages * pageSize, if path == [] then None else Some(path)))
  }

  function Pair(entries: seq<Entry>, pageSize: U64, names: seq<Byte>): Result<seq<Mapping>, Error> {
    if entries == [] then Success([])
    else
      var n := FirstNul(names);
      if n == |names| then Failure(MissingNul)
      else
        match MappingOf(entries[0], pageSize, names[..n])
        case Failure(e) => Failure(e)
        case Success(m) => Prepend([m], Pair(entries[1..], pageSize, names[n + 1..]))
  }

  function Prepend(ms: seq<Mapping>, r: Result<seq<Mapping>, Error>): Result<seq<Mapping>, Error> {
    match r
    case Success(more) => Success(ms + more)
    case Failure(e) => Failure(e)
  }

  function Parse(desc: seq<Byte>): Result<seq<Mapping>, Error> {
    if |desc| < HEADER then Failure(TooShort)
    else ParseBody(desc, U64At(desc, 0), U64At(desc, 8))
  }

  /** What follows a header that announces `n` files. */
  function ParseBody(desc: seq<Byte>, n: nat, pageSize: U64): Result<seq<Mapping>, Error> {
    var end := HEADER + n * ENTRY_SIZE;
    if end > MAX then Failure(Overflow)
    else if |desc| < end then Failure(TruncatedEntries)
    else Pair(EntriesAt(desc, n), pageSize, desc[end..])
  }

  method ParseNtFile(desc: seq<Byte>) returns (r: Result<seq<Mapping>, Error>)
    ensures r == Parse(desc)
  {
    if |desc| < HEADER {
      return Failure(TooShort);
    }
    var numFiles, pageSize := U64At(desc, 0), U64At(desc, 8);
    r := ParseAfterHeader(desc, numFiles, pageSize);
  }

  /** The first loop, and then the second. */
  method ParseAfterHeader(desc: seq<Byte>, numFiles: U64, pageSize: U64) returns (r: Result<seq<Mapping>, Error>)
    ensures r == ParseBody(desc, numFiles, pageSize)
  {
    var entriesEnd := HEADER + numFiles * ENTRY_SIZE;
    if entriesEnd > MAX {
      return Failure(Overflow);
    }
    if |desc| < entriesEnd {
      return Failure(TruncatedEntries);
    }
    var entries: seq<Entry> := [];
    for i := 0 to numFiles
      invariant entries == EntriesAt(desc, i)
    {
      entries := entries + [EntryAt(desc, HEADER + i * ENTRY_SIZE)];
    }
    r := PairUp(entries, pageSize, desc[entriesEnd..]);
  }

  /** The second loop: each entry takes the next name. */
  method PairUp(entries: seq<Entry>, pageSize: U64, names: seq<Byte>) returns (r: Result<seq<Mapping>, Error>)
    ensures r == Pair(entries, pageSize, names)
  {
    var namesSlice := names;
    var mappings: seq<Mapping> := [];
    PrependNothing(Pair(entries, pageSize, names));
    for i := 0 to |entries|
      invariant Pair(entries, pageSize, names) == Prepend(mappings, Pair(entries[i..], pageSize, namesSlice))
    {
      var nullPos := FirstNul(namesSlice);
      if nullPos == |namesSlice| {
        return Failure(MissingNul);
      }
      var mapping := MappingOf(entries[i], pageSize, namesSlice[..nullPos]);
      if mapping.Failure? {
        return Failure(mapping.error);
      }
      namesSlice := namesSlice[nullPos + 1..];
      assert entries[i..][1..] == entries[i + 1..];
      PrependTwice(mappings, mapping.value, Pair(entries[i + 1..], pageSize, namesSlice));
      mappings := mappings + [mapping.value];
    }
    assert entries[|entries|..] == [] && mappings + [] == mappings;
    r := Success(mappings);
  }

  lemma PrependNothing(r: Result<seq<Mapping>, Error>)
    ensures Prepend([], r) == r
  {
    if r.Success? { assert [] + r.value == r.value; }
  }

  lemma PrependTwice(ms: seq<Mapping>, m: Mapping, r: Result<seq<Mapping>, Error>)
    ensures Prepend(ms, Prepend([m], r)) == Prepend(ms + [m], r)
  {
    if r.Success? { assert ms + ([m] + r.value) == ms + [m] + r.value; }
  }

  // ----------------------------------------------------------------- the writer

  datatype File = File(entry: Entry, path: seq<Byte>)

  function EntryBytes(e: Entry): (r: seq<Byte>)
    ensures |r| == ENTRY_SIZE
  {
    ToBytes(e.start, 8) + ToBytes(e.end, 8) + ToBytes(e.pages, 8)
  }

  function EntriesBytes(files: seq<File>): (r: seq<Byte>)
    ensures |r| == |files| * ENTRY_SIZE
  {
    if files == [] then [] else EntriesBytes(files[..|files| - 1]) + EntryBytes(files[|files| - 1].entry)
  }

  function NameBytes(files: seq<File>): seq<Byte> {
    if files == [] then [] else files[0].path + [0] + NameBytes(files[1..])
  }

  function Header(n: U64, pageSize: U64): (r: seq<Byte>)
    ensures |r| == HEADER
  {
    ToBytes(n, 8) + ToBytes(pageSize, 8)
  }

  function Note(files: seq<File>, pageSize: U64): seq<Byte>
    requires |files| <= MAX
  {
    Header(|files|, pageSize) + EntriesBytes(files) + NameBytes(files)
  }

  // ------------------------------------------------------------------ round trip

  predicate Fits(f: File, pageSize: U64) {
    f.entry.start <= f.entry.end && f.entry.pages * pageSize <= MAX
  }

  predicate AllFit(files: seq<File>, pageSize: U64) {
    files == [] || (Fits(files[0], pageSize) && AllFit(files[1..], pageSize))
  }

  /** The mapping is the file's range, from its start to its end, at its offset in bytes, with its name if it has one. */
  ghost predicate Describes(m: Mapping, f: File, pageSize: U64) {
    && m.vaddr == f.entry.start && m.vaddr + m.length == f.entry.end && m.flags == 0
    && m.fileOffset == f.entry.pages * pageSize
    && m.path == if f.path == [] then None else Some(f.path)
  }

  /** The i-th name with the i-th range. */
  function MappingsOf(files: seq<File>, pageSize: U64): (r: seq<Mapping>)
    requires AllFit(files, pageSize)
    ensures |r| == |files|
    ensures forall i | 0 <= i < |files| :: Describes(r[i], files[i], pageSize)
  {
    if files == [] then []
    else
      var f := files[0];
      var path := if f.path == [] then None else Some(f.path);
      [Mapping(f.entry.start, f.entry.end - f.entry.start, 0, f.entry.pages * pageSize, path)] + MappingsOf(files[1..], pageSize)
  }

  lemma {:induction false} AllFitIff(files: seq<File>, pageSize: U64)
    ensures AllFit(files, pageSize) <==> forall i | 0 <= i < |files| :: Fits(files[i], pageSize)
  {
    if files != [] {
      AllFitIff(files[1..], pageSize);
      assert forall i | 0 <= i < |files[1..]| :: files[1..][i] == files[i + 1];
      if Fits(files[0], pageSize) && AllFit(files[1..], pageSize) {
        forall i | 0 <= i < |files| ensures Fits(files[i], pageSize) {
          if i > 0 { assert Fits(files[1..][i - 1], pageSize); }
        }
      }
    }
  }

  lemma {:induction false} FirstNulOf(path: seq<Byte>, rest: seq<Byte>)
    requires 0 !in path
    ensures FirstNul(path + [0] + rest) == |path|
  {
    var s := path + [0] + rest;
    if path != [] {
      assert s[0] == path[0] && s[0] != 0 && s[1..] == path[1..] + [0] + rest;
      FirstNulOf(path[1..], rest);
    }
  }

  function Ranges(files: seq<File>): (r: seq<Entry>)
    ensures |r| == |files|
  {
    if files == [] then [] else [files[0].entry] + Ranges(files[1..])
  }

  lemma NextName(files: seq<File>, rest: seq<Byte>)
    requires files != [] && 0 !in files[0].path
    ensures var names, n := NameBytes(files) + rest, |files[0].path|;
            FirstNul(names) == n < |names| && names[..n] == files[0].path && names[n + 1..] == NameBytes(files[1..]) + rest
  {
    var tail := NameBytes(files[1..]) + rest;
    assert NameBytes(files) + rest == files[0].path + [0] + tail;
    FirstNulOf(files[0].path, tail);
  }

  lemma {:induction false} PairNames(files: seq<File>, pageSize: U64, rest: seq<Byte>)
    requires forall i | 0 <= i < |files| :: 0 !in files[i].path
    ensures Pair(Ranges(files), pageSize, NameBytes(files) + rest) ==
      if AllFit(files, pageSize) then Success(MappingsOf(files, pageSize)) else Failure(Overflow)
  {
    if files != [] {
      NextName(files, rest);
      PairNames(files[1..], pageSize, rest);
      FirstMapping(files, pageSize);
    }
  }

  lemma FirstMapping(files: seq<File>, pageSize: U64)
    requires files != []
    ensures MappingOf(files[0].entry, pageSize, files[0].path).Success? <==> Fits(files[0], pageSize)
    ensures MappingOf(files[0].entry, pageSize, files[0].path).Failure? ==>
              MappingOf(files[0].entry, pageSize, files[0].path) == Failure(Overflow)
    ensures AllFit(files, pageSize) ==>
              MappingsOf(files, pageSize)
              == [MappingOf(files[0].entry, pageSize, files[0].path).value] + MappingsOf(files[1..], pageSize)
  {
  }

  lemma {:induction false} EntriesBytesAt(files: seq<File>, i: nat)
    requires i < |files|
    ensures EntriesBytes(files)[i * ENTRY_SIZE..i * ENTRY_SIZE + ENTRY_SIZE] == EntryBytes(files[i].entry)
  {
    var n := |files| - 1;
    if i < n { EntriesBytesAt(files[..n], i); }
  }

  lemma EntryReadsBack(desc: seq<Byte>, base: nat, e: Entry)
    requires base + ENTRY_SIZE <= |desc| && desc[base..base + ENTRY_SIZE] == EntryBytes(e)
    ensures EntryAt(desc, base) == e
  {
    var slice := desc[base..base + ENTRY_SIZE];
    assert desc[base..base + 8] == slice[0..8] == ToBytes(e.start, 8);
    assert desc[base + 8..base + 16] == slice[8..16] == ToBytes(e.end, 8);
    assert desc[base + 16..base + 24] == slice[16..24] == ToBytes(e.pages, 8);
    U64AtToBytes(desc, base, e.start);
    U64AtToBytes(desc, base + 8, e.end);
    U64AtToBytes(desc, base + 16, e.pages);
  }

  lemma SliceOfSlice(s: seq<Byte>, low: nat, high: nat, i: nat, j: nat)
    requires low <= high <= |s| && i <= j <= high - low
    ensures s[low..high][i..j] == s[low + i..low + j]
  {
    var a, b := s[low..high][i..j], s[low + i..low + j];
    assert |a| == |b| && forall k | 0 <= k < |a| :: a[k] == b[k];
  }

  lemma OneReadsBack(desc: seq<Byte>, i: nat, end: nat, files: seq<File>)
    requires i < |files| && end == HEADER + |files| * ENTRY_SIZE <= |desc| && desc[HEADER..end] == EntriesBytes(files)
    ensures HEADER + i * ENTRY_SIZE + ENTRY_SIZE <= end
    ensures EntryAt(desc, HEADER + i * ENTRY_SIZE) == files[i].entry
  {
    var base := i * ENTRY_SIZE;
    EntriesBytesAt(files, i);
    SliceOfSlice(desc, HEADER, end, base, base + ENTRY_SIZE);
    EntryReadsBack(desc, HEADER + base, files[i].entry);
  }

  lemma {:induction false} EntriesReadBack(desc: seq<Byte>, n: nat, end: nat, files: seq<File>)
    requires n <= |files| && end == HEADER + |files| * ENTRY_SIZE <= |desc| && desc[HEADER..end] == EntriesBytes(files)
    ensures forall i | 0 <= i < n :: EntriesAt(desc, n)[i] == files[i].entry
  {
    if n > 0 {
      EntriesReadBack(desc, n - 1, end, files);
      OneReadsBack(desc, n - 1, end, files);
    }
  }

  lemma HeaderReadsBack(desc: seq<Byte>, n: U64, pageSize: U64)
    requires |desc| >= HEADER && desc[..HEADER] == Header(n, pageSize)
    ensures U64At(desc, 0) == n && U64At(desc, 8) == pageSize
  {
    var header := desc[..HEADER];
    assert header[0..8] == ToBytes(n, 8) && header[8..16] == ToBytes(pageSize, 8);
    assert desc[0..8] == header[0..8] && desc[8..16] == header[8..16];
    U64AtToBytes(desc, 0, n);
    U64AtToBytes(desc, 8, pageSize);
  }

  lemma ThreeParts(a: seq<Byte>, b: seq<Byte>, c: seq<Byte>, d: seq<Byte>)
    ensures var s := a + b + c + d;
            s[..|a|] == a && s[|a|..|a| + |b|] == b && s[|a| + |b|..] == c + d
  {
  }

  lemma {:induction false} SameEntries(entries: seq<Entry>, files: seq<File>)
    requires |entries| == |files| && forall i | 0 <= i < |files| :: entries[i] == files[i].entry
    ensures entries == Ranges(files)
  {
    if files != [] {
      SameEntries(entries[1..], files[1..]);
      assert entries == [entries[0]] + entries[1..];
    }
  }

  lemma ParseParts(desc: seq<Byte>, files: seq<File>, pageSize: U64, names: seq<Byte>)
    requires HEADER + |files| * ENTRY_SIZE <= MAX && |desc| >= HEADER + |files| * ENTRY_SIZE
    requires desc[HEADER..HEADER + |files| * ENTRY_SIZE] == EntriesBytes(files)
    requires desc[HEADER + |files| * ENTRY_SIZE..] == names
    ensures ParseBody(desc, |files|, pageSize) == Pair(Ranges(files), pageSize, names)
  {
    EntriesReadBack(desc, |files|, HEADER + |files| * ENTRY_SIZE, files);
    SameEntries(EntriesAt(desc, |files|), files);
  }

  /**
   Parsing what was written, with anything after it, gives each range its own name, if
   no range is backwards and no offset leaves 64 bits; otherwise the arithmetic overflows.
   */
  lemma ParseNote(files: seq<File>, pageSize: U64, rest: seq<Byte>)
    requires HEADER + |files| * ENTRY_SIZE <= MAX && forall i | 0 <= i < |files| :: 0 !in files[i].path
    ensures Parse(Note(files, pageSize) + rest) ==
      if AllFit(files, pageSize) then Success(MappingsOf(files, pageSize)) else Failure(Overflow)
  {
    var desc := Note(files, pageSize) + rest;
    ThreeParts(Header(|files|, pageSize), EntriesBytes(files), NameBytes(files), rest);
    HeaderReadsBack(desc, |files|, pageSize);
    ParseParts(desc, files, pageSize, NameBytes(files) + rest);
    PairNames(files, pageSize, rest);
  }
}
