/**
 Reading names of Python code objects in kit/pysignalprof: the layouts of a unicode
 object, and the converters from its code units to UTF-8 in a fixed buffer.
 */
module PyUnicode {
  import opened Wrappers
  import opened LittleEndian
  import opened Kindasafe
  import opened Utf8

  // -------------------------------------------------------------- code units

  /** The `width`-byte little-endian units of some raw bytes. */
  function Units(raw: seq<Byte>, width: nat): seq<nat>
    requires width > 0
    decreases |raw|
  {
    if |raw| < width then []
    else Units(raw[..|raw| - width], width) + [FromBytes(raw[|raw| - width..])]
  }

  /** The bytes of `n` units. */
  function Span(n: nat, width: nat): nat {
    if n == 0 then 0 else width + Span(n - 1, width)
  }

  /** The units that are scalar values; lone surrogates and values above 10FFFF are dropped. */
  function Scalars(units: seq<nat>): seq<Scalar> {
    if units == [] then [] else WithScalar(Scalars(units[..|units| - 1]), units[|units| - 1])
  }

  function WithScalar(cs: seq<Scalar>, u: nat): seq<Scalar> {
    match FromU32(u)
    case Some(c) => cs + [c]
    case None => cs
  }

  /** The first `k` scalars fit and one more does not. */
  ghost predicate LongestFit(cs: seq<Scalar>, room: nat, k: nat) {
    && k <= |cs| && |EncodeAll(cs[..k])| <= room
    && (k < |cs| ==> |EncodeAll(cs[..k + 1])| > room)
  }

  /** No longer prefix fits, and all of it is there exactly if all of it fits. */
  lemma LongestFitIsLongest(cs: seq<Scalar>, room: nat, k: nat, j: nat)
    requires LongestFit(cs, room, k) && j <= |cs|
    ensures |EncodeAll(cs[..j])| <= room <==> j <= k
    ensures k == |cs| <==> |EncodeAll(cs)| <= room
  {
    if j <= k { EncodedGrows(cs, j, k); } else { EncodedGrows(cs, k + 1, j); }
    assert cs[..|cs|] == cs;
    if k < |cs| { EncodedGrows(cs, k + 1, |cs|); }
  }

  lemma ScalarsPush(units: seq<nat>, u: nat)
    ensures Scalars(units + [u]) == WithScalar(Scalars(units), u)
  {
    assert (units + [u])[..|units|] == units;
  }

  lemma WithScalarConcat(a: seq<Scalar>, b: seq<Scalar>, u: nat)
    ensures WithScalar(a + b, u) == a + WithScalar(b, u)
  {
  }

  lemma {:induction false} ScalarsSplit(units: seq<nat>, more: seq<nat>)
    ensures Scalars(units + more) == Scalars(units) + Scalars(more)
  {
    var whole, n := units + more, |more| - 1;
    if more == [] {
      assert whole == units;
    } else {
      assert whole[..|whole| - 1] == units + more[..n] && whole[|whole| - 1] == more[n];
      ScalarsSplit(units, more[..n]);
      WithScalarConcat(Scalars(units), Scalars(more[..n]), more[n]);
    }
  }

  /** What the converters return for these units. */
  ghost predicate Converted(units: seq<nat>, room: nat, r: Option<seq<Byte>>) {
    exists k: nat :: LongestFit(Scalars(units), room, k) && r == Name(EncodeAll(Scalars(units)[..k]))
  }

  /** An empty text is no name. */
  function Name(s: seq<Byte>): Option<seq<Byte>> {
    if s == [] then None else Some(s)
  }

  lemma ConvertedAll(units: seq<nat>, room: nat, s: seq<Byte>)
    requires s == EncodeAll(Scalars(units)) && |s| <= room
    ensures Converted(units, room, Name(s))
  {
    var cs := Scalars(units);
    assert cs[..|cs|] == cs;
    assert LongestFit(cs, room, |cs|);
  }

  /** The loop stopped because the next scalar did not fit. */
  lemma ConvertedCut(units: seq<nat>, room: nat, done: seq<nat>, u: nat, more: seq<nat>, s: seq<Byte>)
    requires units == done + [u] + more && FromU32(u).Some?
    requires s == EncodeAll(Scalars(done)) && |s| <= room < |s| + Len(FromU32(u).value)
    ensures Converted(units, room, Name(s))
  {
    var cs, k := Scalars(units), |Scalars(done)|;
    ScalarsPush(done, u);
    ScalarsSplit(done + [u], more);
    assert cs[..k] == Scalars(done) && cs[..k + 1] == Scalars(done + [u]);
    assert cs[..k + 1][..k] == cs[..k];
    assert LongestFit(cs, room, k);
  }

  lemma EncodeAllPush(cs: seq<Scalar>, c: Scalar)
    ensures EncodeAll(cs + [c]) == EncodeAll(cs) + Encode(c)
  {
    assert (cs + [c])[..|cs|] == cs;
  }

  // ------------------------------------------------------- the text, unit by unit

  function UnitBytes(u: nat): seq<Byte> {
    match FromU32(u)
    case Some(c) => Encode(c)
    case None => []
  }

  function Text(units: seq<nat>): seq<Byte> {
    if units == [] then [] else Text(units[..|units| - 1]) + UnitBytes(units[|units| - 1])
  }

  lemma {:induction false} TextIsEncoding(units: seq<nat>)
    ensures Text(units) == EncodeAll(Scalars(units))
  {
    if units != [] {
      var init, u := units[..|units| - 1], units[|units| - 1];
      TextIsEncoding(init);
      if FromU32(u).Some? { EncodeAllPush(Scalars(init), FromU32(u).value); }
    }
  }

  lemma TextPush(units: seq<nat>, i: nat)
    requires i < |units|
    ensures Text(units[..i + 1]) == Text(units[..i]) + UnitBytes(units[i])
  {
    assert units[..i + 1][..i] == units[..i];
  }

  lemma CutBefore(units: seq<nat>, k: nat, room: nat, s: seq<Byte>)
    requires k < |units| && s == EncodeAll(Scalars(units[..k])) && |s| <= room < |s| + |UnitBytes(units[k])|
    ensures Converted(units, room, Name(s))
  {
    Around(units, k);
    ConvertedCut(units, room, units[..k], units[k], units[k + 1..], s);
  }

  lemma Around(units: seq<nat>, k: nat)
    requires k < |units|
    ensures units == units[..k] + [units[k]] + units[k + 1..]
  {
  }

  /** The loop stopped before the k-th unit because it did not fit, or at the end. */
  lemma StoppedAt(units: seq<nat>, k: nat, room: nat, s: seq<Byte>)
    requires k <= |units| && s == Text(units[..k]) && |s| <= room
    requires k < |units| ==> room < |s| + |UnitBytes(units[k])|
    ensures Converted(units, room, Name(s))
  {
    TextIsEncoding(units[..k]);
    if k == |units| {
      assert units[..k] == units;
      ConvertedAll(units, room, s);
    } else {
      CutBefore(units, k, room, s);
    }
  }

  /** The i-th unit is in the raw bytes where the loop looks for it. */
  ghost predicate UnitHere(raw: seq<Byte>, width: nat, i: nat, u: nat) {
    var at := Span(i, width);
    at + width <= |raw| && FromBytes(raw[at..at + width]) == u
  }

  lemma UnitHereToo(init: seq<Byte>, raw: seq<Byte>, width: nat, i: nat, u: nat)
    requires UnitHere(init, width, i, u) && init <= raw
    ensures UnitHere(raw, width, i, u)
  {
    var at := Span(i, width);
    assert init[at..at + width] == raw[at..at + width];
  }

  lemma LastUnitHere(raw: seq<Byte>, width: nat, n: nat)
    requires n > 0 && |raw| == Span(n, width)
    ensures UnitHere(raw, width, n - 1, FromBytes(raw[|raw| - width..]))
  {
    var at := Span(n - 1, width);
    assert raw[|raw| - width..] == raw[at..at + width];
  }

  lemma {:induction false} UnitsHere(raw: seq<Byte>, width: nat, n: nat)
    requires width > 0 && |raw| == Span(n, width)
    ensures |Units(raw, width)| == n && forall i: nat | i < n :: UnitHere(raw, width, i, Units(raw, width)[i])
  {
    if n > 0 {
      var init := raw[..|raw| - width];
      UnitsHere(init, width, n - 1);
      LastUnitHere(raw, width, n);
      forall i: nat | i < n - 1 ensures UnitHere(raw, width, i, Units(init, width)[i]) {
        UnitHereToo(init, raw, width, i, Units(init, width)[i]);
      }
    }
  }

  // -------------------------------------------------------------- converters

  function MaxUnits(kind: nat): nat {
    if kind == 4 then 64 else 128
  }

  function ReadLength(kind: nat, length: U64): nat {
    if length < MaxUnits(kind) then length else MaxUnits(kind)
  }

  /** What was converted is never rejected as invalid. */
  lemma ConvertedValid(units: seq<nat>, room: nat, s: seq<Byte>)
    requires s != [] && Converted(units, room, Some(s))
    ensures Valid(s)
  {
    var k: nat :| LongestFit(Scalars(units), room, k) && Some(s) == Name(EncodeAll(Scalars(units)[..k]));
    DecodeEncode(Scalars(units)[..k]);
  }

  /** `str::from_utf8(..).ok()` */
  function FromUtf8(s: seq<Byte>): Option<seq<Byte>> {
    if Valid(s) then Some(s) else None
  }

  /** `encode_utf8` into the buffer from `out` on. */
  method Put(buf: array<Byte>, out: nat, c: Scalar)
    requires out + Len(c) <= buf.Length
    modifies buf
    ensures buf[..out + Len(c)] == old(buf[..out]) + Encode(c)
    ensures buf[out + Len(c)..] == old(buf[out + Len(c)..])
  {
    var bytes := Encode(c);
    forall j | 0 <= j < |bytes| {
      buf[out + j] := bytes[j];
    }
  }

  /** The body of the loop: the unit's scalar is appended if there is one and it fits. */
  method AppendUnit(buf: array<Byte>, out: nat, u: nat) returns (next: nat, fits: bool)
    requires out <= buf.Length
    modifies buf
    ensures fits ==> next <= buf.Length && buf[..next] == old(buf[..out]) + UnitBytes(u)
    ensures !fits ==> next == out && buf[..] == old(buf[..]) && buf.Length < out + |UnitBytes(u)|
  {
    next, fits := out, true;
    var c := FromU32(u);
    if c.Some? {
      var len := Len(c.value);
      if out + len > buf.Length {
        fits := false;
        return;
      }
      Put(buf, out, c.value);
      next := out + len;
    }
  }

  /** The little-endian unit at a place, which is the i-th. */
  method ReadUnit(raw: seq<Byte>, kind: nat, at: nat, ghost i: nat, ghost u: nat) returns (cp: nat)
    requires UnitHere(raw, kind, i, u) && at == Span(i, kind)
    ensures cp == u && Span(i + 1, kind) == at + kind
  {
    cp := FromBytes(raw[at..at + kind]);
  }

  /** The loop of the converters: encodes scalar after scalar until one does not fit. */
  method Transcode(raw: seq<Byte>, kind: nat, maxRead: nat, buf: array<Byte>, ghost units: seq<nat>)
    returns (out: nat, ghost k: nat)
    requires |units| == maxRead && forall i: nat | i < maxRead :: UnitHere(raw, kind, i, units[i])
    modifies buf
    ensures k <= maxRead && out <= buf.Length && buf[..out] == Text(units[..k])
    ensures k < maxRead ==> buf.Length < out + |UnitBytes(units[k])|
  {
    out, k := 0, 0;
    var at := 0;
    for i := 0 to maxRead
      invariant k == i && at == Span(i, kind) && out <= buf.Length && buf[..out] == Text(units[..k])
    {
      var cp := ReadUnit(raw, kind, at, i, units[i]);
      var fits;
      out, fits := AppendUnit(buf, out, cp);
      if !fits {
        return;
      }
      TextPush(units, i);
      at, k := at + kind, k + 1;
    }
  }

  /** The three converters, one for each width of a unit. */
  method ReadUcs(mem: Memory, kind: nat, dataAddr: U64, length: U64, buf: array<Byte>) returns (r: Option<seq<Byte>>)
    requires kind == 1 || kind == 2 || kind == 4
    modifies buf
    ensures match ReadBytes(mem, dataAddr, Span(ReadLength(kind, length), kind)) {
              case None => r == None
              case Some(raw) => Converted(Units(raw, kind), buf.Length, r)
            }
  {
    var maxRead := ReadLength(kind, length);
    var read := ReadBytes(mem, dataAddr, Span(maxRead, kind));
    if read.None? {
      return None;
    }
    ghost var units, k := Units(read.value, kind), 0;
    UnitsHere(read.value, kind, maxRead);
    var out;
    out, k := Transcode(read.value, kind, maxRead, buf, units);
    StoppedAt(units, k, buf.Length, buf[..out]);
    if out == 0 {
      return None;
    }
    ConvertedValid(units, buf.Length, buf[..out]);
    return FromUtf8(buf[..out]);
  }

  // ------------------------------------------------- what the converters give

  /** The result is valid UTF-8 and decodes to the longest prefix of the scalars that fits. */
  lemma ConvertedDecodes(units: seq<nat>, room: nat, r: Option<seq<Byte>>) returns (k: nat)
    requires Converted(units, room, r)
    ensures LongestFit(Scalars(units), room, k) && (r.None? <==> k == 0)
    ensures r.Some? ==> Decode(r.value) == Some(Scalars(units)[..k]) && |r.value| <= room
  {
    var cs := Scalars(units);
    k :| LongestFit(cs, room, k) && r == Name(EncodeAll(cs[..k]));
    DecodeEncode(cs[..k]);
    if k > 0 { EncodedGrows(cs, 0, k); }
  }

  /** Nothing is cut off exactly if the whole text has room. */
  lemma WholeTextIff(units: seq<nat>, room: nat, r: Option<seq<Byte>>)
    requires Converted(units, room, r)
    ensures var all := EncodeAll(Scalars(units)); r == Name(all) <==> |all| <= room
  {
    var cs := Scalars(units);
    var k: nat :| LongestFit(cs, room, k) && r == Name(EncodeAll(cs[..k]));
    LongestFitIsLongest(cs, room, k, |cs|);
    assert cs[..|cs|] == cs;
  }

  lemma {:induction false} ScalarsBound(units: seq<nat>, width: nat)
    requires forall i | 0 <= i < |units| :: FromU32(units[i]).Some? ==> Len(FromU32(units[i]).value) <= width
    ensures |Scalars(units)| <= |units|
    ensures forall i | 0 <= i < |Scalars(units)| :: Len(Scalars(units)[i]) <= width
  {
    if units != [] { ScalarsBound(units[..|units| - 1], width); }
  }

  lemma {:induction false} UnitsSmall(raw: seq<Byte>, n: nat)
    requires |raw| == Span(n, 1)
    ensures |Units(raw, 1)| == n && forall i | 0 <= i < n :: Units(raw, 1)[i] < 256
  {
    if n > 0 {
      UnitsSmall(raw[..|raw| - 1], n - 1);
      var last := raw[|raw| - 1..];
      assert FromBytes(last) == last[0] + 256 * FromBytes(last[1..]) && last[1..] == [];
    }
  }

  /** With the 256-byte name buffer the caps of 128 one-byte units and 64 four-byte units always have room. */
  lemma Ucs1HasRoom(raw: seq<Byte>, n: nat)
    requires n <= 128 && |raw| == Span(n, 1)
    ensures |EncodeAll(Scalars(Units(raw, 1)))| <= 256
  {
    UnitsSmall(raw, n);
    ScalarsBound(Units(raw, 1), 2);
    EncodedBound(Scalars(Units(raw, 1)), 2);
  }

  lemma Ucs4HasRoom(raw: seq<Byte>, n: nat)
    requires n <= 64 && |raw| == Span(n, 4)
    ensures |EncodeAll(Scalars(Units(raw, 4)))| <= 256
  {
    UnitsHere(raw, 4, n);
    ScalarsBound(Units(raw, 4), 4);
    EncodedBound(Scalars(Units(raw, 4)), 4);
  }

  /** Some raw bytes: `n` times the two-byte unit 4E00, a three-byte character. */
  function Wide(n: nat): (raw: seq<Byte>)
    ensures |raw| == Span(n, 2)
  {
    if n == 0 then [] else Wide(n - 1) + [0x00, 0x4E]
  }

  lemma WideUnit()
    ensures FromBytes([0x00, 0x4E]) == 0x4E00
  {
    var s: seq<Byte> := [0x00, 0x4E];
    assert s[1..] == [0x4E] && s[1..][1..] == [];
    assert FromBytes(s[1..]) == 0x4E;
  }

  function WideScalars(n: nat): (cs: seq<nat>)
    ensures |cs| == n
  {
    if n == 0 then [] else WideScalars(n - 1) + [0x4E00]
  }

  lemma UnitsPush(raw: seq<Byte>, more: seq<Byte>)
    requires |more| > 0
    ensures Units(raw + more, |more|) == Units(raw, |more|) + [FromBytes(more)]
  {
    var whole := raw + more;
    assert whole[..|whole| - |more|] == raw && whole[|whole| - |more|..] == more;
  }

  lemma {:induction false} WideUnits(n: nat)
    ensures Units(Wide(n), 2) == WideScalars(n)
  {
    if n > 0 {
      WideUnits(n - 1);
      WideUnit();
      UnitsPush(Wide(n - 1), [0x00, 0x4E]);
    }
  }

  /** Every unit 4E00 takes three bytes. */
  lemma {:induction false} WideLength(n: nat)
    ensures |EncodeAll(Scalars(WideScalars(n)))| == 3 * n
  {
    if n > 0 {
      WideLength(n - 1);
      ScalarsPush(WideScalars(n - 1), 0x4E00);
      EncodeAllPush(Scalars(WideScalars(n - 1)), 0x4E00);
    }
  }

  /** The cap of 128 two-byte units can be three times 128 bytes, which is cut. */
  lemma Ucs2CanTruncate(r: Option<seq<Byte>>)
    requires Converted(Units(Wide(128), 2), 256, r)
    ensures r != Some(EncodeAll(Scalars(Units(Wide(128), 2))))
  {
    WideUnits(128);
    WideLength(128);
    WholeTextIff(Units(Wide(128), 2), 256, r);
  }

  // ---------------------------------------------------------- unicode objects

  datatype UnicodeOffsets = UnicodeOffsets(state: U64, length: U64, asciiSize: U64)

  /** The state word that CPython builds: interned, kind, compact, ascii and the rest, from the low end. */
  function StateWord(interned: nat, kind: nat, compact: nat, ascii: nat, rest: nat, freeThreaded: bool): nat {
    var internedSize := if freeThreaded then 256 else 4;
    interned + internedSize * (kind + 8 * (compact + 2 * (ascii + 2 * rest)))
  }

  function AsciiBit(state: nat, freeThreaded: bool): nat {
    if freeThreaded then state / 4096 % 2 else state / 64 % 2
  }

  function KindBits(state: nat, freeThreaded: bool): nat {
    if freeThreaded then state / 256 % 8 else state / 4 % 8
  }

  /** Both builds' words are taken apart as they were put together. */
  lemma StateReadsBack(interned: nat, kind: nat, compact: nat, ascii: nat, rest: nat, freeThreaded: bool)
    requires interned < (if freeThreaded then 256 else 4) && kind < 8 && compact < 2 && ascii < 2
    ensures var state := StateWord(interned, kind, compact, ascii, rest, freeThreaded);
            AsciiBit(state, freeThreaded) == ascii && KindBits(state, freeThreaded) == kind
  {
    var high := ascii + 2 * rest;
    var mid := compact + 2 * high;
    var low := kind + 8 * mid;
    assert high % 2 == ascii && mid / 2 == high && low / 8 == mid && low % 8 == kind;
    if freeThreaded {
      var state := interned + 256 * low;
      assert state / 256 == low && state / 4096 == low / 16;
    } else {
      var state := interned + 4 * low;
      assert state / 4 == low && state / 64 == low / 16;
    }
    assert low / 16 == mid / 2;
  }

  /** Where the characters of a unicode object are. */
  datatype Layout = Nowhere | Utf8At(at: U64) | UcsAt(kind: nat, data: U64, length: U64)

  function LayoutOf(mem: Memory, obj: U64, off: UnicodeOffsets, freeThreaded: bool): Layout {
    var state := ReadWord(mem, Plus(obj, off.state));
    if obj == 0 || state.None? then Nowhere
    else
      var raw := state.value % 0x1_0000_0000;
      var ascii, kind := AsciiBit(raw, freeThreaded), KindBits(raw, freeThreaded);
      var cached := ReadWord(mem, Plus(Plus(obj, off.asciiSize), 8)).GetOr(0);
      var length := ReadWord(mem, Plus(obj, off.length)).GetOr(0);
      if ascii != 0 then Utf8At(Plus(obj, off.asciiSize))
      else if cached != 0 then Utf8At(cached)
      else if length == 0 || (kind != 1 && kind != 2 && kind != 4) then Nowhere
      else UcsAt(kind, Plus(Plus(obj, off.asciiSize), 16), length)
  }

  ghost predicate NameRight(mem: Memory, layout: Layout, room: nat, r: Option<seq<Byte>>) {
    match layout
    case Nowhere => r == None
    case Utf8At(at) =>
      var bytes := ReadBytes(mem, at, room);
      r == if at != 0 && bytes.Some? && 0 < FirstNul(bytes.value) < room && Valid(bytes.value[..FirstNul(bytes.value)])
           then Some(bytes.value[..FirstNul(bytes.value)]) else None
    case UcsAt(kind, data, length) =>
      (kind == 1 || kind == 2 || kind == 4) &&
      match ReadBytes(mem, data, Span(ReadLength(kind, length), kind)) {
        case None => r == None
        case Some(raw) => Converted(Units(raw, kind), room, r)
      }
  }

  /** What reading the unicode object into a buffer of this size gives. */
  ghost predicate NameOf(mem: Memory, obj: U64, off: UnicodeOffsets, freeThreaded: bool, room: nat, r: Option<seq<Byte>>) {
    NameRight(mem, LayoutOf(mem, obj, off, freeThreaded), room, r)
  }

  method ReadPyUnicode(mem: Memory, buf: array<Byte>, obj: U64, off: UnicodeOffsets, freeThreaded: bool, fault: U64)
    returns (r: Option<seq<Byte>>)
    modifies buf
    ensures NameOf(mem, obj, off, freeThreaded, buf.Length, r)
  {
    if obj == 0 {
      return None;
    }
    var word := ReadWord(mem, Plus(obj, off.state));
    if word.None? {
      return None;
    }
    var state := word.value % 0x1_0000_0000;
    var ascii, kind := AsciiBit(state, freeThreaded), KindBits(state, freeThreaded);
    if ascii != 0 {
      r := ReadTerminated(mem, buf, Plus(obj, off.asciiSize), fault);
      return;
    }
    var cached := ReadWord(mem, Plus(Plus(obj, off.asciiSize), 8)).GetOr(0);
    if cached != 0 {
      r := ReadTerminated(mem, buf, cached, fault);
      return;
    }
    var length := ReadWord(mem, Plus(obj, off.length));
    if length.None? || length.value == 0 {
      return None;
    }
    if kind == 1 || kind == 2 || kind == 4 {
      r := ReadUcs(mem, kind, Plus(Plus(obj, off.asciiSize), 16), length.value, buf);
    } else {
      r := None;
    }
  }

  /** `str(..).ok().filter(|s| !s.is_empty())` */
  method ReadTerminated(mem: Memory, buf: array<Byte>, at: U64, fault: U64) returns (r: Option<seq<Byte>>)
    modifies buf
    ensures NameRight(mem, Utf8At(at), buf.Length, r)
  {
    var s := Str(mem, buf, at, fault);
    r := if s.Success? && s.value != [] then Some(s.value) else None;
  }

  /** Whatever the memory holds, a name is valid UTF-8, is not empty and fits the buffer. */
  lemma NameIsText(mem: Memory, layout: Layout, room: nat, name: seq<Byte>)
    requires NameRight(mem, layout, room, Some(name))
    ensures Valid(name) && 0 < |name| <= room
  {
    if layout.UcsAt? {
      var raw := ReadBytes(mem, layout.data, Span(ReadLength(layout.kind, layout.length), layout.kind)).value;
      var k := ConvertedDecodes(Units(raw, layout.kind), room, Some(name));
    }
  }

  /** A string of one-byte or four-byte units is read whole up to the cap, and then dropped units are the only loss. */
  lemma NameIsWhole(mem: Memory, kind: nat, data: U64, length: U64, name: Option<seq<Byte>>)
    requires NameRight(mem, UcsAt(kind, data, length), 256, name) && (kind == 1 || kind == 4)
    requires ReadBytes(mem, data, Span(ReadLength(kind, length), kind)).Some?
    ensures var raw := ReadBytes(mem, data, Span(ReadLength(kind, length), kind)).value;
            var cs := Scalars(Units(raw, kind));
            if cs == [] then name.None? else name.Some? && Decode(name.value) == Some(cs)
  {
    var n := ReadLength(kind, length);
    var raw := ReadBytes(mem, data, Span(n, kind)).value;
    if kind == 1 { Ucs1HasRoom(raw, n); } else { Ucs4HasRoom(raw, n); }
    WholeTextIff(Units(raw, kind), 256, name);
    DecodeEncode(Scalars(Units(raw, kind)));
  }

  // ---------------------------------------------------------- function names

  datatype CodeOffsets = CodeOffsets(qualname: U64, name: U64)

  /** "<unknown>" in ASCII. */
  const UNKNOWN: seq<Byte> := [0x3C, 0x75, 0x6E, 0x6B, 0x6E, 0x6F, 0x77, 0x6E, 0x3E]

  /** The name of the unicode object that the field points to, if the field can be read. */
  ghost predicate FieldName(mem: Memory, field: U64, off: UnicodeOffsets, freeThreaded: bool, r: Option<seq<Byte>>) {
    match ReadWord(mem, field)
    case None => r == None
    case Some(obj) => NameOf(mem, obj, off, freeThreaded, 256, r)
  }

  method ReadField(mem: Memory, buf: array<Byte>, field: U64, off: UnicodeOffsets, freeThreaded: bool, fault: U64)
    returns (r: Option<seq<Byte>>)
    requires buf.Length == 256
    modifies buf
    ensures FieldName(mem, field, off, freeThreaded, r)
  {
    var obj := ReadWord(mem, field);
    if obj.None? {
      return None;
    }
    r := ReadPyUnicode(mem, buf, obj.value, off, freeThreaded, fault);
  }

  /** The qualified name, else the name, else "<unknown>". */
  ghost predicate Resolved(mem: Memory, code: U64, co: CodeOffsets, off: UnicodeOffsets, freeThreaded: bool, r: seq<Byte>) {
    FieldName(mem, Plus(code, co.qualname), off, freeThreaded, Some(r))
    || (FieldName(mem, Plus(code, co.qualname), off, freeThreaded, None)
        && ResolvedByName(mem, Plus(code, co.name), off, freeThreaded, r))
  }

  ghost predicate ResolvedByName(mem: Memory, field: U64, off: UnicodeOffsets, freeThreaded: bool, r: seq<Byte>) {
    FieldName(mem, field, off, freeThreaded, Some(r)) || (FieldName(mem, field, off, freeThreaded, None) && r == UNKNOWN)
  }

  method ResolveFunctionName(mem: Memory, code: U64, co: CodeOffsets, off: UnicodeOffsets, freeThreaded: bool, fault: U64)
    returns (r: seq<Byte>)
    ensures Resolved(mem, code, co, off, freeThreaded, r)
  {
    var buf := new Byte[256];
    var qualname := ReadField(mem, buf, Plus(code, co.qualname), off, freeThreaded, fault);
    if qualname.Some? {
      return qualname.value;
    }
    var name := ReadField(mem, buf, Plus(code, co.name), off, freeThreaded, fault);
    if name.Some? {
      return name.value;
    }
    r := UNKNOWN;
  }

  /** What about an object leaves it without a name. */
  ghost predicate Nameless(mem: Memory, layout: Layout, room: nat) {
    match layout
    case Nowhere => true
    case Utf8At(at) =>
      at == 0 ||
      match ReadBytes(mem, at, room) {
        case None => true
        case Some(bytes) => FirstNul(bytes) == 0 || FirstNul(bytes) == room || !Valid(bytes[..FirstNul(bytes)])
      }
    case UcsAt(kind, data, length) =>
      (kind == 1 || kind == 2 || kind == 4) ==>
      match ReadBytes(mem, data, Span(ReadLength(kind, length), kind)) {
        case None => true
        case Some(raw) => Scalars(Units(raw, kind)) == []
      }
  }

  lemma FirstScalarFits(cs: seq<Scalar>, room: nat, k: nat)
    requires LongestFit(cs, room, k) && room >= 4
    ensures EncodeAll(cs[..k]) == [] <==> cs == []
  {
    if cs != [] {
      assert cs[..1][..0] == [] && EncodeAll(cs[..1]) == EncodeAll([]) + Encode(cs[0]);
      LongestFitIsLongest(cs, room, k, 1);
      EncodedGrows(cs, 1, k);
    }
  }

  /** A name is missing exactly then: it is unreadable, empty, unterminated, invalid, or has no scalar value. */
  lemma NamelessIff(mem: Memory, layout: Layout, room: nat, r: Option<seq<Byte>>)
    requires NameRight(mem, layout, room, r) && room >= 4
    ensures r.None? <==> Nameless(mem, layout, room)
  {
    if layout.UcsAt? {
      var raw := ReadBytes(mem, layout.data, Span(ReadLength(layout.kind, layout.length), layout.kind));
      if raw.Some? {
        var cs := Scalars(Units(raw.value, layout.kind));
        var k: nat :| LongestFit(cs, room, k) && r == Name(EncodeAll(cs[..k]));
        FirstScalarFits(cs, room, k);
      }
    }
  }

  ghost predicate FieldNameless(mem: Memory, field: U64, off: UnicodeOffsets, freeThreaded: bool) {
    var obj := ReadWord(mem, field);
    obj.None? || Nameless(mem, LayoutOf(mem, obj.value, off, freeThreaded), 256)
  }

  lemma FieldNamelessIff(mem: Memory, field: U64, off: UnicodeOffsets, freeThreaded: bool, r: Option<seq<Byte>>)
    requires FieldName(mem, field, off, freeThreaded, r)
    ensures r.None? <==> FieldNameless(mem, field, off, freeThreaded)
  {
    var obj := ReadWord(mem, field);
    if obj.Some? { NamelessIff(mem, LayoutOf(mem, obj.value, off, freeThreaded), 256, r); }
  }

  /** Which of the three it is depends on what the memory holds for the two fields, and on nothing else. */
  lemma ResolvedIs(mem: Memory, code: U64, co: CodeOffsets, off: UnicodeOffsets, freeThreaded: bool, r: seq<Byte>)
    requires Resolved(mem, code, co, off, freeThreaded, r)
    ensures var q, n := Plus(code, co.qualname), Plus(code, co.name);
            if !FieldNameless(mem, q, off, freeThreaded) then FieldName(mem, q, off, freeThreaded, Some(r))
            else if !FieldNameless(mem, n, off, freeThreaded) then FieldName(mem, n, off, freeThreaded, Some(r))
            else r == UNKNOWN
  {
    var q, n := Plus(code, co.qualname), Plus(code, co.name);
    var qualname := if FieldName(mem, q, off, freeThreaded, None) then None else Some(r);
    FieldNamelessIff(mem, q, off, freeThreaded, qualname);
    if qualname.None? {
      FieldNamelessIff(mem, n, off, freeThreaded, if FieldName(mem, n, off, freeThreaded, None) then None else Some(r));
    }
  }

  /** The field points to an ASCII string with no NUL in the first 256 bytes. */
  ghost predicate LongAscii(mem: Memory, field: U64, off: UnicodeOffsets, freeThreaded: bool) {
    var obj := ReadWord(mem, field);
    && obj.Some?
    && var layout := LayoutOf(mem, obj.value, off, freeThreaded);
       layout.Utf8At? && (var bytes := ReadBytes(mem, layout.at, 256); bytes.Some? ==> 0 !in bytes.value)
  }

  /** A function whose names are ASCII and both have 256 bytes or more is "<unknown>". */
  lemma LongNamesAreUnknown(mem: Memory, code: U64, co: CodeOffsets, off: UnicodeOffsets, freeThreaded: bool, r: seq<Byte>)
    requires Resolved(mem, code, co, off, freeThreaded, r)
    requires LongAscii(mem, Plus(code, co.qualname), off, freeThreaded) && LongAscii(mem, Plus(code, co.name), off, freeThreaded)
    ensures r == UNKNOWN
  {
    ResolvedIs(mem, code, co, off, freeThreaded, r);
  }

  function QAt(a: U64): Byte {
    0x51
  }

  /** A memory that is full of the letter Q. */
  ghost function AllQ(): (mem: Memory)
    ensures forall a: U64 :: a in mem && mem[a] == 0x51
  {
    map a: U64 | QAt(a) == 0x51 :: QAt(a)
  }

  lemma {:induction false} AllQReads(a: U64, n: nat)
    ensures ReadBytes(AllQ(), a, n).Some? && forall i | 0 <= i < n :: ReadBytes(AllQ(), a, n).value[i] == 0x51
    decreases n
  {
    if n > 0 { AllQReads(Plus(a, 1), n - 1); }
  }

  function QValue(n: nat): nat {
    if n == 0 then 0 else 0x51 + 256 * QValue(n - 1)
  }

  lemma {:induction false} Qs(s: seq<Byte>)
    requires forall i | 0 <= i < |s| :: s[i] == 0x51
    ensures FromBytes(s) == QValue(|s|)
  {
    if s != [] { Qs(s[1..]); }
  }

  lemma QWord()
    ensures QValue(8) == 0x5151_5151_5151_5151
  {
    assert QValue(2) == 0x5151;
    assert QValue(4) == 0x5151_5151;
    assert QValue(6) == 0x5151_5151_5151;
  }

  lemma AllQWord(a: U64)
    ensures ReadWord(AllQ(), a) == Some(0x5151_5151_5151_5151)
  {
    AllQReads(a, 8);
    var bytes := ReadBytes(AllQ(), a, 8).value;
    assert bytes[0..8] == bytes;
    Qs(bytes);
    QWord();
  }

  lemma QIsAscii(freeThreaded: bool)
    ensures AsciiBit(0x5151_5151_5151_5151 % 0x1_0000_0000, freeThreaded) == 1
  {
    assert 0x5151_5151_5151_5151 % 0x1_0000_0000 == 0x5151_5151;
    assert 0x5151_5151 / 64 == 0x145_4545 && 0x5151_5151 / 4096 == 0x5_1515;
  }

  lemma AllQLayout(obj: U64, off: UnicodeOffsets, freeThreaded: bool)
    requires obj == 0x5151_5151_5151_5151
    ensures LayoutOf(AllQ(), obj, off, freeThreaded) == Utf8At(Plus(obj, off.asciiSize))
  {
    AllQWord(Plus(obj, off.state));
    QIsAscii(freeThreaded);
  }

  lemma AllQIsLong(field: U64, off: UnicodeOffsets, freeThreaded: bool)
    ensures LongAscii(AllQ(), field, off, freeThreaded)
  {
    AllQWord(field);
    AllQLayout(0x5151_5151_5151_5151, off, freeThreaded);
    AllQReads(Plus(0x5151_5151_5151_5151, off.asciiSize), 256);
  }

  /** There are such memories, for either build and all offsets. */
  lemma LongNamesExist(code: U64, co: CodeOffsets, off: UnicodeOffsets, freeThreaded: bool, r: seq<Byte>)
    requires Resolved(AllQ(), code, co, off, freeThreaded, r)
    ensures r == UNKNOWN
    ensures LongAscii(AllQ(), Plus(code, co.qualname), off, freeThreaded)
         && LongAscii(AllQ(), Plus(code, co.name), off, freeThreaded)
         && ReadBytes(AllQ(), Plus(0x5151_5151_5151_5151, off.asciiSize), 256).Some?
  {
    AllQIsLong(Plus(code, co.qualname), off, freeThreaded);
    AllQIsLong(Plus(code, co.name), off, freeThreaded);
    AllQReads(Plus(0x5151_5151_5151_5151, off.asciiSize), 256);
    LongNamesAreUnknown(AllQ(), code, co, off, freeThreaded, r);
  }
}
