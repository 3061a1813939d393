/**
 Reading the memory of a core dump (kit/coredump): the first loaded segment that
 covers the whole range answers from the file.
 */
module Coredump {
  import opened Wrappers
  import opened LittleEndian

  datatype Segment = Segment(vaddr: U64, memsz: U64, fileOffset: U64, filesz: U64)

  /** Overflow is the panic of an unchecked 64-bit addition. */
  datatype Error = ReadOutOfBounds | AddressNotMapped | Overflow

  const MAX: U64 := 0xFFFF_FFFF_FFFF_FFFF

  function SaturatingAdd(a: U64, b: U64): U64 {
    if a + b > MAX then MAX else a + b
  }

  predicate Covers(seg: Segment, addr: U64, len: U64) {
    addr >= seg.vaddr && SaturatingAdd(addr, len) <= SaturatingAdd(seg.vaddr, seg.memsz)
  }

  /** The first segment that covers the range. */
  function Find(segs: seq<Segment>, addr: U64, len: U64): Option<Segment> {
    if segs == [] then None
    else if Covers(segs[0], addr, len) then Some(segs[0])
    else Find(segs[1..], addr, len)
  }

  /** The bytes of a range inside a segment. */
  function FileBytes(data: seq<Byte>, seg: Segment, addr: U64, len: U64): Result<seq<Byte>, Error>
    requires addr >= seg.vaddr
  {
    var rel := addr - seg.vaddr;
    if rel + len > MAX then Failure(Overflow)
    else if rel + len > seg.filesz then Failure(ReadOutOfBounds)
    else if seg.fileOffset + rel + len > MAX then Failure(Overflow)
    else if seg.fileOffset + rel + len > |data| then Failure(ReadOutOfBounds)
    else Success(data[seg.fileOffset + rel..seg.fileOffset + rel + len])
  }

  lemma {:induction false} FindCovers(segs: seq<Segment>, addr: U64, len: U64)
    requires Find(segs, addr, len).Some?
    ensures Find(segs, addr, len).value in segs && Covers(Find(segs, addr, len).value, addr, len)
  {
    if !Covers(segs[0], addr, len) { FindCovers(segs[1..], addr, len); }
  }

  function Memory(data: seq<Byte>, segs: seq<Segment>, addr: U64, len: U64): (r: Result<seq<Byte>, Error>)
    ensures r.Success? ==> |r.value| == len
  {
    match Find(segs, addr, len)
    case None => Failure(AddressNotMapped)
    case Some(seg) =>
      FindCovers(segs, addr, len);
      FileBytes(data, seg, addr, len)
  }

  /** On success the buffer holds the memory, on failure it is untouched. */
  method Read(data: seq<Byte>, segs: seq<Segment>, addr: U64, buf: array<Byte>) returns (r: Result<(), Error>)
    requires buf.Length <= MAX
    modifies buf
    ensures match Memory(data, segs, addr, buf.Length) {
              case Success(bytes) => r == Success(()) && buf[..] == bytes
              case Failure(error) => r == Failure(error) && buf[..] == old(buf[..])
            }
  {
    var len := buf.Length;
    for i := 0 to |segs|
      invariant Find(segs, addr, len) == Find(segs[i..], addr, len)
      invariant buf[..] == old(buf[..])
    {
      var seg := segs[i];
      if addr >= seg.vaddr && SaturatingAdd(addr, len) <= SaturatingAdd(seg.vaddr, seg.memsz) {
        var rel := addr - seg.vaddr;
        if rel + len > MAX {
          return Failure(Overflow);
        }
        if rel + len > seg.filesz {
          return Failure(ReadOutOfBounds);
        }
        var filePos := seg.fileOffset + rel;
        var fileEnd := filePos + len;
        if fileEnd > MAX {
          return Failure(Overflow);
        }
        if fileEnd > |data| {
          return Failure(ReadOutOfBounds);
        }
        forall j | 0 <= j < len {
          buf[j] := data[filePos + j];
        }
        assert buf[..] == data[filePos..fileEnd];
        return Success(());
      }
    }
    r := Failure(AddressNotMapped);
  }

  // ---------------------------------------------------------------- one memory

  /** The bytes of the range are in the segment's part of the file. */
  predicate Fits(seg: Segment, addr: U64, len: U64) {
    && addr - seg.vaddr + len <= seg.filesz
    && seg.fileOffset + addr - seg.vaddr + len <= MAX
  }

  /** A range of the segment is answered from the same place of the file by the segment found for it. */
  predicate Agrees(seg: Segment, part: Option<Segment>, addr: U64, len: U64) {
    && part.Some?
    && part.value.fileOffset - part.value.vaddr == seg.fileOffset - seg.vaddr
    && addr - part.value.vaddr + len <= part.value.filesz
  }

  /** The read is the concatenation of the reads of its two parts. */
  ghost predicate Splits(data: seq<Byte>, segs: seq<Segment>, addr: U64, n: U64, m: U64)
    requires n + m <= MAX && addr + n <= MAX && Memory(data, segs, addr, n + m).Success?
  {
    var low, high := Memory(data, segs, addr, n), Memory(data, segs, addr + n, m);
    low.Success? && high.Success? && Memory(data, segs, addr, n + m).value == low.value + high.value
  }

  ghost predicate AlwaysSplits(segs: seq<Segment>, addr: U64, n: U64, m: U64)
    requires n + m <= MAX && addr + n <= MAX
  {
    forall data | Memory(data, segs, addr, n + m).Success? :: Splits(data, segs, addr, n, m)
  }

  /** What the segments alone say about it. */
  ghost predicate PartsAgree(segs: seq<Segment>, addr: U64, n: U64, m: U64)
    requires n + m <= MAX && addr + n <= MAX
  {
    var whole := Find(segs, addr, n + m);
    whole.Some? && Fits(whole.value, addr, n + m) ==>
      Agrees(whole.value, Find(segs, addr, n), addr, n) && Agrees(whole.value, Find(segs, addr + n, m), addr + n, m)
  }

  /** A file of zeros with one byte set. */
  function Marked(length: nat, at: nat): (data: seq<Byte>)
    ensures |data| == length && forall i | 0 <= i < length :: data[i] == if i == at then 1 else 0
  {
    seq(length, i => if i == at then 1 else 0)
  }

  lemma AgreeingSplits(data: seq<Byte>, segs: seq<Segment>, addr: U64, n: U64, m: U64)
    requires n + m <= MAX && addr + n <= MAX && PartsAgree(segs, addr, n, m) && Memory(data, segs, addr, n + m).Success?
    ensures Splits(data, segs, addr, n, m)
  {
    FindCovers(segs, addr, n + m);
    FindCovers(segs, addr, n);
    FindCovers(segs, addr + n, m);
    var seg := Find(segs, addr, n + m).value;
    var p := seg.fileOffset + addr - seg.vaddr;
    assert data[p..p + n] + data[p + n..p + n + m] == data[p..p + n + m];
  }

  lemma FittingReads(data: seq<Byte>, segs: seq<Segment>, seg: Segment, addr: U64, len: U64)
    requires Find(segs, addr, len) == Some(seg) && Fits(seg, addr, len)
    requires seg.fileOffset + addr - seg.vaddr + len == |data|
    ensures addr >= seg.vaddr && Memory(data, segs, addr, len) == Success(data[seg.fileOffset + addr - seg.vaddr..])
  {
    FindCovers(segs, addr, len);
    var p := seg.fileOffset + addr - seg.vaddr;
    assert data[p..p + len] == data[p..];
  }

  /** A part that reads the marked byte first has found it at the mark. */
  lemma FirstByteAt(segs: seq<Segment>, addr: U64, len: U64, length: nat, at: nat)
    requires len > 0 && Memory(Marked(length, at), segs, addr, len).Success?
    requires Memory(Marked(length, at), segs, addr, len).value[0] == 1
    ensures Find(segs, addr, len).Some?
    ensures var seg := Find(segs, addr, len).value;
            addr >= seg.vaddr && seg.fileOffset + addr - seg.vaddr == at && addr - seg.vaddr + len <= seg.filesz
  {
    FindCovers(segs, addr, len);
  }

  /** Marking a byte of the whole range and splitting there shows where the parts are read from. */
  lemma MarkedSplit(segs: seq<Segment>, addr: U64, n: U64, m: U64, seg: Segment, data: seq<Byte>)
    requires n > 0 && m > 0 && n + m <= MAX && addr + n <= MAX && AlwaysSplits(segs, addr, n, m)
    requires Find(segs, addr, n + m) == Some(seg) && Fits(seg, addr, n + m)
    requires seg.fileOffset + addr - seg.vaddr + n + m == |data|
    ensures var p := seg.fileOffset + addr - seg.vaddr;
            var low, high := Memory(data, segs, addr, n), Memory(data, segs, addr + n, m);
            0 <= p && low.Success? && high.Success? && low.value[0] == data[p] && high.value[0] == data[p + n]
  {
    FittingReads(data, segs, seg, addr, n + m);
    var whole := Memory(data, segs, addr, n + m).value;
    assert Splits(data, segs, addr, n, m);
    var low, high := Memory(data, segs, addr, n).value, Memory(data, segs, addr + n, m).value;
    assert whole == low + high;
    assert low[0] == whole[0] && high[0] == whole[n];
  }

  lemma SplittingAgrees(segs: seq<Segment>, addr: U64, n: U64, m: U64, seg: Segment)
    requires n > 0 && m > 0 && n + m <= MAX && addr + n <= MAX && AlwaysSplits(segs, addr, n, m)
    requires Find(segs, addr, n + m) == Some(seg) && Fits(seg, addr, n + m)
    ensures Agrees(seg, Find(segs, addr, n), addr, n) && Agrees(seg, Find(segs, addr + n, m), addr + n, m)
  {
    FindCovers(segs, addr, n + m);
    var p := seg.fileOffset + addr - seg.vaddr;
    var length := p + n + m;
    MarkedSplit(segs, addr, n, m, seg, Marked(length, p));
    FirstByteAt(segs, addr, n, length, p);
    MarkedSplit(segs, addr, n, m, seg, Marked(length, p + n));
    FirstByteAt(segs, addr + n, m, length, p + n);
  }

  /**
   A read can be split, whatever the file holds, exactly if the parts are found at the
   place of the file at which the whole is, within what the file has of their segments.
   */
  lemma SplitIff(segs: seq<Segment>, addr: U64, n: U64, m: U64)
    requires n > 0 && m > 0 && n + m <= MAX && addr + n <= MAX
    ensures AlwaysSplits(segs, addr, n, m) <==> PartsAgree(segs, addr, n, m)
  {
    var whole := Find(segs, addr, n + m);
    if PartsAgree(segs, addr, n, m) {
      forall data | Memory(data, segs, addr, n + m).Success? ensures Splits(data, segs, addr, n, m) {
        AgreeingSplits(data, segs, addr, n, m);
      }
    } else {
      if AlwaysSplits(segs, addr, n, m) {
        SplittingAgrees(segs, addr, n, m, whole.value);
        assert false;
      }
    }
  }

  // ------------------------------------------------------- segments without overlap

  /**
   Segments that share no address. One that reaches the last address has no more bytes in
   the file than in memory, as the ELF format requires of all.
   */
  ghost predicate Apart(segs: seq<Segment>) {
    && (forall i | 0 <= i < |segs| :: Ends(segs[i]))
    && (forall i, j | 0 <= i < j < |segs| :: Disjoint(segs[i], segs[j]))
  }

  predicate Ends(seg: Segment) {
    seg.vaddr + seg.memsz < MAX || (seg.vaddr + seg.memsz <= MAX + 1 && seg.filesz <= seg.memsz)
  }

  predicate Disjoint(a: Segment, b: Segment) {
    a.vaddr + a.memsz <= b.vaddr || b.vaddr + b.memsz <= a.vaddr
  }

  predicate Contains(seg: Segment, addr: U64, len: U64) {
    seg.vaddr <= addr && addr + len <= seg.vaddr + seg.memsz
  }

  /** A non-empty range inside a segment is answered by that segment. */
  lemma {:induction false} FindOnly(segs: seq<Segment>, k: nat, addr: U64, len: U64)
    requires Apart(segs) && k < |segs| && len > 0 && Contains(segs[k], addr, len) && segs[k].vaddr < MAX
    ensures Find(segs, addr, len) == Some(segs[k])
  {
    if k > 0 {
      assert Disjoint(segs[0], segs[k]);
      assert !Covers(segs[0], addr, len);
      forall i, j | 0 <= i < j < |segs[1..]| ensures Disjoint(segs[1..][i], segs[1..][j]) {
        assert segs[1..][i] == segs[i + 1] && segs[1..][j] == segs[j + 1];
      }
      FindOnly(segs[1..], k - 1, addr, len);
    }
  }

  /** What a successful read has read is inside its segment. */
  lemma ReadContained(data: seq<Byte>, segs: seq<Segment>, addr: U64, len: U64) returns (k: nat)
    requires Apart(segs) && Memory(data, segs, addr, len).Success?
    ensures k < |segs| && Find(segs, addr, len) == Some(segs[k]) && Contains(segs[k], addr, len)
    ensures Fits(segs[k], addr, len)
  {
    FindCovers(segs, addr, len);
    var seg := Find(segs, addr, len).value;
    k :| 0 <= k < |segs| && segs[k] == seg;
    assert Ends(segs[k]);
  }

  /** Such segments make up one memory: every successful read can be split anywhere. */
  lemma SplitRead(data: seq<Byte>, segs: seq<Segment>, addr: U64, n: U64, m: U64)
    requires Apart(segs) && n > 0 && m > 0 && n + m <= MAX && Memory(data, segs, addr, n + m).Success?
    ensures addr + n <= MAX && Splits(data, segs, addr, n, m)
  {
    var k := ReadContained(data, segs, addr, n + m);
    assert Ends(segs[k]);
    FindOnly(segs, k, addr, n);
    FindOnly(segs, k, addr + n, m);
    AgreeingSplits(data, segs, addr, n, m);
  }

  // ------------------------------------------------------------- a written dump

  /** A part of the memory, with its address. */
  datatype Image = Image(vaddr: U64, bytes: seq<Byte>)

  /** The images one after the other. */
  function ImageBytes(images: seq<Image>): seq<Byte> {
    if images == [] then [] else images[0].bytes + ImageBytes(images[1..])
  }

  /** One segment per image, with its bytes from `at` on. */
  function ImageSegments(images: seq<Image>, at: nat): (r: seq<Segment>)
    requires at + |ImageBytes(images)| <= MAX
    ensures |r| == |images|
    ensures forall i | 0 <= i < |images| :: r[i].vaddr == images[i].vaddr && r[i].memsz == r[i].filesz == |images[i].bytes|
  {
    if images == [] then []
    else
      [Segment(images[0].vaddr, |images[0].bytes|, at, |images[0].bytes|)]
      + ImageSegments(images[1..], at + |images[0].bytes|)
  }

  /** The images share no address and are inside the address space. */
  ghost predicate ImagesApart(images: seq<Image>) {
    && (forall i | 0 <= i < |images| :: images[i].vaddr + |images[i].bytes| <= MAX)
    && (forall i, j | 0 <= i < j < |images| :: ImageDisjoint(images[i], images[j]))
  }

  predicate ImageDisjoint(a: Image, b: Image) {
    a.vaddr + |a.bytes| <= b.vaddr || b.vaddr + |b.bytes| <= a.vaddr
  }

  lemma {:induction false} ImageInFile(images: seq<Image>, at: nat, file: seq<Byte>, i: nat)
    requires i < |images| && at + |ImageBytes(images)| <= |file| <= MAX && file[at..at + |ImageBytes(images)|] == ImageBytes(images)
    ensures var seg := ImageSegments(images, at)[i];
            seg.fileOffset + seg.filesz <= |file| && file[seg.fileOffset..seg.fileOffset + seg.filesz] == images[i].bytes
  {
    var n, all := |images[0].bytes|, ImageBytes(images);
    FirstImage(images);
    SliceTwice(file, at, at + |all|, 0, n);
    SliceTwice(file, at, at + |all|, n, |all|);
    if i > 0 { ImageInFile(images[1..], at + n, file, i - 1); }
  }

  lemma FirstImage(images: seq<Image>)
    requires images != []
    ensures var n, all := |images[0].bytes|, ImageBytes(images);
            n <= |all| && all[..n] == all[0..n] == images[0].bytes && all[n..] == all[n..|all|] == ImageBytes(images[1..])
  {
  }

  lemma SliceTwice(s: seq<Byte>, low: nat, high: nat, i: nat, j: nat)
    requires low <= high <= |s| && i <= j <= high - low
    ensures s[low..high][i..j] == s[low + i..low + j]
  {
    var a, b := s[low..high][i..j], s[low + i..low + j];
    assert |a| == |b| && forall k | 0 <= k < |a| :: a[k] == b[k];
  }

  lemma ApartSegments(images: seq<Image>, at: nat)
    requires ImagesApart(images) && at + |ImageBytes(images)| <= MAX
    ensures Apart(ImageSegments(images, at))
  {
    var segs := ImageSegments(images, at);
    forall i, j | 0 <= i < j < |segs| ensures Disjoint(segs[i], segs[j]) {
      assert ImageDisjoint(images[i], images[j]);
    }
  }

  lemma ImageFound(images: seq<Image>, at: nat, segs: seq<Segment>, i: nat, from: nat, len: nat)
    requires ImagesApart(images) && at + |ImageBytes(images)| <= MAX && segs == ImageSegments(images, at)
    requires i < |images| && 0 < len && from + len <= |images[i].bytes|
    ensures Find(segs, images[i].vaddr + from, len) == Some(segs[i])
  {
    ApartSegments(images, at);
    assert images[i].vaddr + |images[i].bytes| <= MAX;
    FindOnly(segs, i, images[i].vaddr + from, len);
  }

  lemma ImageReads(file: seq<Byte>, images: seq<Image>, at: nat, segs: seq<Segment>, i: nat, from: nat, len: nat)
    requires ImagesApart(images) && at + |ImageBytes(images)| <= |file| <= MAX && segs == ImageSegments(images, at)
    requires file[at..at + |ImageBytes(images)|] == ImageBytes(images)
    requires i < |images| && 0 < len && from + len <= |images[i].bytes|
    ensures Memory(file, segs, images[i].vaddr + from, len) == Success(images[i].bytes[from..from + len])
  {
    ImageInFile(images, at, file, i);
    ImageFound(images, at, segs, i, from, len);
    FoundReads(file, segs, segs[i], images[i].vaddr + from, len);
    ImagePart(file, segs[i], images[i].bytes, from, len);
  }

  /** Reading any part of an image from a dump of disjoint images gives its bytes. */
  lemma WrittenDumpReads(header: seq<Byte>, images: seq<Image>, i: nat, from: nat, len: nat)
    requires ImagesApart(images) && |header| + |ImageBytes(images)| <= MAX
    requires i < |images| && 0 < len && from + len <= |images[i].bytes|
    ensures Memory(header + ImageBytes(images), ImageSegments(images, |header|), images[i].vaddr + from, len)
         == Success(images[i].bytes[from..from + len])
  {
    Behind(header, ImageBytes(images));
    ImageReads(header + ImageBytes(images), images, |header|, ImageSegments(images, |header|), i, from, len);
  }

  lemma FoundReads(data: seq<Byte>, segs: seq<Segment>, seg: Segment, addr: U64, len: U64)
    requires Find(segs, addr, len) == Some(seg)
    ensures addr >= seg.vaddr && Memory(data, segs, addr, len) == FileBytes(data, seg, addr, len)
  {
    FindCovers(segs, addr, len);
  }

  lemma Behind(header: seq<Byte>, bytes: seq<Byte>)
    ensures (header + bytes)[|header|..|header| + |bytes|] == bytes
  {
  }

  lemma ImagePart(file: seq<Byte>, seg: Segment, bytes: seq<Byte>, from: nat, len: nat)
    requires seg.fileOffset + seg.filesz <= |file| <= MAX && file[seg.fileOffset..seg.fileOffset + seg.filesz] == bytes
    requires from + len <= |bytes| && seg.vaddr + seg.filesz <= MAX
    ensures FileBytes(file, seg, seg.vaddr + from, len) == Success(bytes[from..from + len])
  {
    SliceTwice(file, seg.fileOffset, seg.fileOffset + seg.filesz, from, from + len);
  }

  function ReadU64(data: seq<Byte>, segs: seq<Segment>, addr: U64): Result<U64, Error> {
    match Memory(data, segs, addr, 8)
    case Failure(e) => Failure(e)
    case Success(bytes) => Success(U64At(bytes, 0))
  }

  function ReadU32(data: seq<Byte>, segs: seq<Segment>, addr: U64): Result<U32, Error> {
    match Memory(data, segs, addr, 4)
    case Failure(e) => Failure(e)
    case Success(bytes) => Success(U32At(bytes, 0))
  }

  /** A 64-bit word is its two 32-bit halves, low half first. */
  lemma WordIsTwoHalves(data: seq<Byte>, segs: seq<Segment>, addr: U64)
    requires Apart(segs) && ReadU64(data, segs, addr).Success?
    ensures addr + 4 <= MAX && ReadU32(data, segs, addr).Success? && ReadU32(data, segs, addr + 4).Success?
    ensures ReadU64(data, segs, addr).value
         == ReadU32(data, segs, addr).value + 0x1_0000_0000 * ReadU32(data, segs, addr + 4).value
  {
    SplitRead(data, segs, addr, 4, 4);
    var whole := Memory(data, segs, addr, 8).value;
    var low, high := Memory(data, segs, addr, 4).value, Memory(data, segs, addr + 4, 4).value;
    FromBytesConcat(low, high);
    Widths();
    assert whole[0..8] == whole && low[0..4] == low && high[0..4] == high;
  }

  function Zeros(n: nat): (s: seq<Byte>)
    ensures |s| == n && forall i | 0 <= i < n :: s[i] == 0
  {
    if n == 0 then [] else Zeros(n - 1) + [0]
  }

  /** With overlapping segments a read of four bytes need not be the first half of a read of eight. */
  lemma OverlapBreaks()
    ensures var data, segs := [1] + Zeros(99), [Segment(0, 6, 0, 6), Segment(0, 50, 50, 50)];
            && ReadU64(data, segs, 0) == Success(0)
            && ReadU32(data, segs, 0) == Success(1)
  {
    var data, segs := [1] + Zeros(99), [Segment(0, 6, 0, 6), Segment(0, 50, 50, 50)];
    assert segs[1..][0] == segs[1];
    assert Find(segs, 0, 8) == Find(segs[1..], 0, 8) == Some(segs[1]);
    assert Find(segs, 0, 4) == Some(segs[0]);
    var whole, low := Memory(data, segs, 0, 8).value, Memory(data, segs, 0, 4).value;
    assert whole == ToBytes(0, 8) by { ZeroBytes(whole); }
    assert low == [1] + Zeros(3);
    ZeroBytes(Zeros(3));
    assert low[0..4] == low && low[1..] == Zeros(3) && whole[0..8] == whole;
    FromZero(whole);
    FromZero(Zeros(3));
  }

  lemma {:induction false} ZeroBytes(s: seq<Byte>)
    requires forall i | 0 <= i < |s| :: s[i] == 0
    ensures s == ToBytes(0, |s|)
  {
    if s != [] {
      ZeroBytes(s[1..]);
      assert s == [s[0]] + s[1..];
    }
  }

  lemma {:induction false} FromZero(s: seq<Byte>)
    requires forall i | 0 <= i < |s| :: s[i] == 0
    ensures FromBytes(s) == 0
  {
    if s != [] { FromZero(s[1..]); }
  }
}
