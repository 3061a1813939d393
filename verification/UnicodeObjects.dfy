/**
 Python's unicode objects as CPython writes them, and that they are read back: the state
 word, the length, the cached UTF-8 pointer and the characters, each at its own place.
 */
module UnicodeObjects {
  import opened Wrappers
  import opened LittleEndian
  import opened Kindasafe
  import opened Utf8
  import opened PyUnicode

  /** The bytes are in memory from this place on. */
  ghost predicate BytesIn(mem: Memory, a: U64, bytes: seq<Byte>) {
    ReadBytes(mem, a, |bytes|) == Some(bytes)
  }

  /** The four bytes of the state, with whatever follows them in the word that is read. */
  ghost predicate StateIn(mem: Memory, a: U64, state: nat) {
    exists rest: seq<Byte> :: |rest| == 4 && BytesIn(mem, a, ToBytes(state, 4) + rest)
  }

  /** The fields of the state word. */
  datatype StateFields = StateFields(interned: nat, kind: nat, compact: nat, ascii: nat, rest: nat)

  /** Two bits for `interned`, or eight in a free-threaded build; then three, one and one. */
  function StateOf(f: StateFields, freeThreaded: bool): nat {
    if freeThreaded then f.interned + 256 * f.kind + 2048 * f.compact + 4096 * f.ascii + 8192 * f.rest
    else f.interned + 4 * f.kind + 32 * f.compact + 64 * f.ascii + 128 * f.rest
  }

  predicate FieldsFit(f: StateFields, freeThreaded: bool) {
    f.interned < (if freeThreaded then 256 else 4) && f.kind < 8 && f.compact < 2 && f.ascii < 2
    && StateOf(f, freeThreaded) < 0x1_0000_0000
  }

  lemma StateBits(f: StateFields, freeThreaded: bool)
    requires FieldsFit(f, freeThreaded)
    ensures AsciiBit(StateOf(f, freeThreaded), freeThreaded) == f.ascii && KindBits(StateOf(f, freeThreaded), freeThreaded) == f.kind
  {
    assert StateOf(f, freeThreaded) == StateWord(f.interned, f.kind, f.compact, f.ascii, f.rest, freeThreaded);
    StateReadsBack(f.interned, f.kind, f.compact, f.ascii, f.rest, freeThreaded);
  }

  lemma StateRead(mem: Memory, a: U64, state: nat)
    requires StateIn(mem, a, state) && state < 0x1_0000_0000
    ensures ReadWord(mem, a).Some? && ReadWord(mem, a).value % 0x1_0000_0000 == state
  {
    var rest: seq<Byte> :| |rest| == 4 && BytesIn(mem, a, ToBytes(state, 4) + rest);
    var bytes := ToBytes(state, 4) + rest;
    FromBytesConcat(ToBytes(state, 4), rest);
    Widths();
    FromToBytes(state, 4);
    assert bytes[0..8] == bytes;
    LowWord(state, FromBytes(rest));
  }

  lemma LowWord(low: nat, high: nat)
    requires low < 0x1_0000_0000
    ensures (low + 0x1_0000_0000 * high) % 0x1_0000_0000 == low
  {
  }

  ghost predicate WordIn(mem: Memory, a: U64, x: U64) {
    BytesIn(mem, a, ToBytes(x, 8))
  }

  lemma WordRead(mem: Memory, a: U64, x: U64)
    requires WordIn(mem, a, x)
    ensures ReadWord(mem, a) == Some(x)
  {
    assert ToBytes(x, 8)[0..8] == ToBytes(x, 8);
    U64AtToBytes(ToBytes(x, 8), 0, x);
  }

  /** A text with its terminating NUL, and whatever follows it in the 256 bytes that are read. */
  ghost predicate TerminatedIn(mem: Memory, a: U64, text: seq<Byte>) {
    exists rest: seq<Byte> :: |text| + 1 + |rest| == 256 && BytesIn(mem, a, text + [0] + rest)
  }

  lemma FirstNulIs(text: seq<Byte>, rest: seq<Byte>)
    requires 0 !in text
    ensures FirstNul(text + [0] + rest) == |text|
  {
    var s := text + [0] + rest;
    assert s[|text|] == 0;
    forall j | 0 <= j < |text| ensures s[j] != 0 { assert s[j] == text[j]; }
  }

  /** A terminated text is read back if it is not empty. */
  lemma TerminatedReads(mem: Memory, a: U64, cs: seq<Scalar>, r: Option<seq<Byte>>)
    requires a != 0 && TerminatedIn(mem, a, EncodeAll(cs)) && 0 !in EncodeAll(cs) && EncodeAll(cs) != []
    requires NameRight(mem, Utf8At(a), 256, r)
    ensures r == Some(EncodeAll(cs))
  {
    var text := EncodeAll(cs);
    var rest: seq<Byte> :| |text| + 1 + |rest| == 256 && BytesIn(mem, a, text + [0] + rest);
    FirstNulIs(text, rest);
    assert (text + [0] + rest)[..|text|] == text;
    DecodeEncode(cs);
  }

  lemma {:induction false} NoNulByte(cs: seq<Scalar>)
    requires 0 !in cs
    ensures 0 !in EncodeAll(cs) && (cs != [] ==> EncodeAll(cs) != [])
  {
    if cs != [] {
      NoNulByte(cs[..|cs| - 1]);
      var c := cs[|cs| - 1];
      assert c != 0 && 0 !in Encode(c);
    }
  }

  /** The characters as little-endian units of this width. */
  function UnitsBytes(cs: seq<Scalar>, width: nat): seq<Byte> {
    if cs == [] then [] else UnitsBytes(cs[..|cs| - 1], width) + ToBytes(cs[|cs| - 1], width)
  }

  /** Every character fits a unit. */
  ghost predicate UnitsFit(cs: seq<Scalar>, width: nat) {
    cs != [] ==> UnitsFit(cs[..|cs| - 1], width) && cs[|cs| - 1] < Pow256(width)
  }

  lemma {:induction false} UnitsLength(cs: seq<Scalar>, width: nat)
    ensures |UnitsBytes(cs, width)| == Span(|cs|, width)
  {
    if cs != [] { UnitsLength(cs[..|cs| - 1], width); }
  }

  lemma {:induction false} UnitsRead(cs: seq<Scalar>, width: nat)
    requires width > 0 && UnitsFit(cs, width)
    ensures Scalars(Units(UnitsBytes(cs, width), width)) == cs
  {
    if cs != [] {
      UnitsRead(cs[..|cs| - 1], width);
      OneMoreUnit(UnitsBytes(cs[..|cs| - 1], width), cs[..|cs| - 1], cs[|cs| - 1], width);
      LastAppended(cs);
    }
  }

  lemma LastAppended(cs: seq<Scalar>)
    requires cs != []
    ensures cs[..|cs| - 1] + [cs[|cs| - 1]] == cs
  {
  }

  lemma OneMoreUnit(raw: seq<Byte>, init: seq<Scalar>, c: Scalar, width: nat)
    requires width > 0 && 0 <= c < Pow256(width) && Scalars(Units(raw, width)) == init
    ensures Scalars(Units(raw + ToBytes(c, width), width)) == init + [c]
  {
    UnitsPush(raw, ToBytes(c, width));
    FromToBytes(c, width);
    ScalarsPush(Units(raw, width), c);
  }

  // ----------------------------------------------------------------- the objects

  /** Where an object has its characters. */
  datatype Form = Ascii | Cached(at: U64) | Wide(width: nat)

  function Place(obj: U64, offset: nat): U64 {
    (obj + offset) % 0x1_0000_0000_0000_0000
  }

  /** An ASCII string has its text behind the header. */
  ghost predicate AsciiIn(mem: Memory, obj: U64, off: UnicodeOffsets, f: StateFields, cs: seq<Scalar>) {
    && f.ascii == 1 && (forall i | 0 <= i < |cs| :: cs[i] < 128)
    && Place(obj, off.asciiSize) != 0 && TerminatedIn(mem, Place(obj, off.asciiSize), EncodeAll(cs))
  }

  /** Any other string has, eight bytes behind the header, a pointer to its UTF-8 text if there is one. */
  ghost predicate CachedIn(mem: Memory, obj: U64, off: UnicodeOffsets, f: StateFields, cs: seq<Scalar>, at: U64) {
    && f.ascii == 0 && at != 0
    && WordIn(mem, Place(obj, off.asciiSize + 8), at) && TerminatedIn(mem, at, EncodeAll(cs))
  }

  /** If there is none, its units are sixteen bytes behind the header, and the length says how many. */
  ghost predicate WideIn(mem: Memory, obj: U64, off: UnicodeOffsets, f: StateFields, cs: seq<Scalar>, width: nat) {
    && f.ascii == 0 && f.kind == width && (width == 1 || width == 2 || width == 4)
    && UnitsFit(cs, width) && |cs| < 0x1_0000_0000_0000_0000
    && WordIn(mem, Place(obj, off.asciiSize + 8), 0) && WordIn(mem, Place(obj, off.length), |cs|)
    && BytesIn(mem, Place(obj, off.asciiSize + 16), UnitsBytes(cs, width))
  }

  ghost predicate ObjectIn(mem: Memory, obj: U64, off: UnicodeOffsets, freeThreaded: bool, f: StateFields, form: Form, cs: seq<Scalar>) {
    && obj != 0 && FieldsFit(f, freeThreaded) && StateIn(mem, Place(obj, off.state), StateOf(f, freeThreaded))
    && match form
       case Ascii => AsciiIn(mem, obj, off, f, cs)
       case Cached(at) => CachedIn(mem, obj, off, f, cs, at)
       case Wide(width) => WideIn(mem, obj, off, f, cs, width)
  }

  /** The 256-byte buffer has room for the text, with its NUL where it has one, and the units are within their cap. */
  predicate HasRoom(form: Form, cs: seq<Scalar>) {
    if form.Wide? then |EncodeAll(cs)| <= 256 && |cs| <= (if form.width == 4 then 64 else 128)
    else |EncodeAll(cs)| <= 255 && 0 !in cs
  }

  lemma PlaceIs(obj: U64, offset: U64, more: nat)
    ensures Place(obj, offset) == Plus(obj, offset) && Place(obj, offset + more) == Plus(Plus(obj, offset), more)
  {
    PlusPlus(obj, offset, more);
  }

  lemma StateRight(mem: Memory, obj: U64, off: UnicodeOffsets, freeThreaded: bool, f: StateFields)
    requires FieldsFit(f, freeThreaded) && StateIn(mem, Place(obj, off.state), StateOf(f, freeThreaded))
    ensures var state := ReadWord(mem, Plus(obj, off.state));
            state.Some? && AsciiBit(state.value % 0x1_0000_0000, freeThreaded) == f.ascii
            && KindBits(state.value % 0x1_0000_0000, freeThreaded) == f.kind
  {
    PlaceIs(obj, off.state, 0);
    StateRead(mem, Place(obj, off.state), StateOf(f, freeThreaded));
    StateBits(f, freeThreaded);
  }

  lemma NameInLayout(mem: Memory, obj: U64, off: UnicodeOffsets, freeThreaded: bool, layout: Layout, r: Option<seq<Byte>>)
    requires NameOf(mem, obj, off, freeThreaded, 256, r) && LayoutOf(mem, obj, off, freeThreaded) == layout
    ensures NameRight(mem, layout, 256, r)
  {
  }

  lemma AsciiReads(mem: Memory, obj: U64, off: UnicodeOffsets, freeThreaded: bool, f: StateFields, cs: seq<Scalar>, r: Option<seq<Byte>>)
    requires obj != 0 && FieldsFit(f, freeThreaded) && StateIn(mem, Place(obj, off.state), StateOf(f, freeThreaded))
    requires AsciiIn(mem, obj, off, f, cs) && cs != [] && HasRoom(Ascii, cs)
    requires NameOf(mem, obj, off, freeThreaded, 256, r)
    ensures r == Some(EncodeAll(cs))
  {
    StateRight(mem, obj, off, freeThreaded, f);
    PlaceIs(obj, off.asciiSize, 0);
    NoNulByte(cs);
    TerminatedReads(mem, Plus(obj, off.asciiSize), cs, r);
  }

  lemma CachedLayout(mem: Memory, obj: U64, off: UnicodeOffsets, freeThreaded: bool, f: StateFields, at: U64)
    requires obj != 0 && FieldsFit(f, freeThreaded) && StateIn(mem, Place(obj, off.state), StateOf(f, freeThreaded))
    requires f.ascii == 0 && at != 0 && WordIn(mem, Place(obj, off.asciiSize + 8), at)
    ensures LayoutOf(mem, obj, off, freeThreaded) == Utf8At(at)
  {
    StateRight(mem, obj, off, freeThreaded, f);
    PlaceIs(obj, off.asciiSize, 8);
    WordRead(mem, Plus(Plus(obj, off.asciiSize), 8), at);
  }

  lemma CachedReads(mem: Memory, obj: U64, off: UnicodeOffsets, freeThreaded: bool, f: StateFields, at: U64, cs: seq<Scalar>, r: Option<seq<Byte>>)
    requires obj != 0 && FieldsFit(f, freeThreaded) && StateIn(mem, Place(obj, off.state), StateOf(f, freeThreaded))
    requires CachedIn(mem, obj, off, f, cs, at) && cs != [] && HasRoom(Cached(at), cs)
    requires NameOf(mem, obj, off, freeThreaded, 256, r)
    ensures r == Some(EncodeAll(cs))
  {
    CachedLayout(mem, obj, off, freeThreaded, f, at);
    NameInLayout(mem, obj, off, freeThreaded, Utf8At(at), r);
    NoNulByte(cs);
    TerminatedReads(mem, at, cs, r);
  }

  /** No cached pointer, and the length of the object. */
  lemma WideWords(mem: Memory, obj: U64, off: UnicodeOffsets, length: U64)
    requires WordIn(mem, Place(obj, off.asciiSize + 8), 0) && WordIn(mem, Place(obj, off.length), length)
    ensures ReadWord(mem, Plus(Plus(obj, off.asciiSize), 8)) == Some(0) && ReadWord(mem, Plus(obj, off.length)) == Some(length)
  {
    PlaceIs(obj, off.asciiSize, 8);
    WordRead(mem, Plus(Plus(obj, off.asciiSize), 8), 0);
    PlaceIs(obj, off.length, 0);
    WordRead(mem, Plus(obj, off.length), length);
  }

  lemma WideLayout(mem: Memory, obj: U64, off: UnicodeOffsets, freeThreaded: bool, f: StateFields, width: nat, length: U64)
    requires obj != 0 && FieldsFit(f, freeThreaded) && StateIn(mem, Place(obj, off.state), StateOf(f, freeThreaded))
    requires f.ascii == 0 && f.kind == width && (width == 1 || width == 2 || width == 4) && length > 0
    requires WordIn(mem, Place(obj, off.asciiSize + 8), 0) && WordIn(mem, Place(obj, off.length), length)
    ensures LayoutOf(mem, obj, off, freeThreaded) == UcsAt(width, Place(obj, off.asciiSize + 16), length)
  {
    StateRight(mem, obj, off, freeThreaded, f);
    WideWords(mem, obj, off, length);
    PlaceIs(obj, off.asciiSize, 16);
  }

  lemma UnitsName(mem: Memory, at: U64, width: nat, cs: seq<Scalar>, r: Option<seq<Byte>>)
    requires (width == 1 || width == 2 || width == 4) && UnitsFit(cs, width)
    requires cs != [] && HasRoom(Wide(width), cs) && BytesIn(mem, at, UnitsBytes(cs, width))
    requires NameRight(mem, UcsAt(width, at, |cs|), 256, r)
    ensures r == Some(EncodeAll(cs))
  {
    UnitsRead(cs, width);
    UnitsLength(cs, width);
    assert ReadLength(width, |cs|) == |cs|;
    WholeTextIff(Units(UnitsBytes(cs, width), width), 256, r);
    EncodedNotEmpty(cs);
  }

  lemma WideName(mem: Memory, obj: U64, off: UnicodeOffsets, freeThreaded: bool, f: StateFields, width: nat, length: U64, r: Option<seq<Byte>>)
    requires obj != 0 && FieldsFit(f, freeThreaded) && StateIn(mem, Place(obj, off.state), StateOf(f, freeThreaded))
    requires f.ascii == 0 && f.kind == width && (width == 1 || width == 2 || width == 4) && length > 0
    requires WordIn(mem, Place(obj, off.asciiSize + 8), 0) && WordIn(mem, Place(obj, off.length), length)
    requires NameOf(mem, obj, off, freeThreaded, 256, r)
    ensures NameRight(mem, UcsAt(width, Place(obj, off.asciiSize + 16), length), 256, r)
  {
    WideLayout(mem, obj, off, freeThreaded, f, width, length);
    NameInLayout(mem, obj, off, freeThreaded, UcsAt(width, Place(obj, off.asciiSize + 16), length), r);
  }

  lemma WideReads(mem: Memory, obj: U64, off: UnicodeOffsets, freeThreaded: bool, f: StateFields, width: nat, cs: seq<Scalar>, r: Option<seq<Byte>>)
    requires obj != 0 && FieldsFit(f, freeThreaded) && StateIn(mem, Place(obj, off.state), StateOf(f, freeThreaded))
    requires WideIn(mem, obj, off, f, cs, width) && cs != [] && HasRoom(Wide(width), cs)
    requires NameOf(mem, obj, off, freeThreaded, 256, r)
    ensures r == Some(EncodeAll(cs))
  {
    WideName(mem, obj, off, freeThreaded, f, width, |cs|, r);
    UnitsName(mem, Place(obj, off.asciiSize + 16), width, cs, r);
  }

  lemma EncodedNotEmpty(cs: seq<Scalar>)
    requires cs != []
    ensures EncodeAll(cs) != []
  {
  }

  /**
   Whatever the form and the build, an object that is in memory as CPython writes it is read
   back, and its name decodes to exactly its characters.
   */
  lemma ObjectReadsBack(mem: Memory, obj: U64, off: UnicodeOffsets, freeThreaded: bool, f: StateFields, form: Form,
                        cs: seq<Scalar>, r: Option<seq<Byte>>)
    requires ObjectIn(mem, obj, off, freeThreaded, f, form, cs) && cs != [] && HasRoom(form, cs)
    requires NameOf(mem, obj, off, freeThreaded, 256, r)
    ensures r == Some(EncodeAll(cs)) && Decode(EncodeAll(cs)) == Some(cs)
  {
    DecodeEncode(cs);
    if form.Ascii? {
      AsciiReads(mem, obj, off, freeThreaded, f, cs, r);
    } else if form.Cached? {
      CachedReads(mem, obj, off, freeThreaded, f, form.at, cs, r);
    } else {
      WideReads(mem, obj, off, freeThreaded, f, form.width, cs, r);
    }
  }

  // ------------------------------------------------------------------ an example

  /** The object at 1000 hex: kind 1 and compact, one character, no cached text, and the character E9. */
  function ExampleByte(a: U64): Byte {
    if a == 0x1008 then 0x24 else if a == 0x1018 then 1 else if a == 0x1038 then 0xE9 else 0
  }

  ghost function ExampleMemory(): (mem: Memory)
    ensures forall a: U64 :: a in mem && mem[a] == ExampleByte(a)
  {
    map a: U64 | ExampleByte(a) < 256 :: ExampleByte(a)
  }

  function Zeros(n: nat): (s: seq<Byte>)
    ensures |s| == n
  {
    if n == 0 then [] else [0] + Zeros(n - 1)
  }

  lemma {:induction false} ReadsZeros(a: U64, n: nat)
    requires a + n <= 0x1_0000_0000 && forall b: U64 | a <= b < a + n :: ExampleByte(b) == 0
    ensures ReadBytes(ExampleMemory(), a, n) == Some(Zeros(n))
    decreases n
  {
    if n > 0 {
      assert ExampleByte(a) == 0;
      ReadsZeros(a + 1, n - 1);
    }
  }

  lemma ReadsMore(mem: Memory, a: U64, n: nat, rest: seq<Byte>)
    requires a in mem && ReadBytes(mem, Plus(a, 1), n) == Some(rest)
    ensures ReadBytes(mem, a, n + 1) == Some([mem[a]] + rest)
  {
  }

  lemma {:induction false} ZeroBytes(n: nat)
    ensures ToBytes(0, n) == Zeros(n)
  {
    if n > 0 { ZeroBytes(n - 1); }
  }

  lemma LowBytes(low: Byte, n: nat)
    requires n > 0
    ensures ToBytes(low, n) == [low] + Zeros(n - 1)
  {
    ZeroBytes(n - 1);
  }

  lemma ZerosSplit()
    ensures [0x24] + Zeros(7) == [0x24] + Zeros(3) + Zeros(4)
  {
    assert Zeros(7) == Zeros(3) + Zeros(4);
  }

  lemma ExampleIn()
    ensures ObjectIn(ExampleMemory(), 0x1000, UnicodeOffsets(8, 24, 40), false, StateFields(0, 1, 1, 0, 0), Wide(1), [0xE9])
  {
    var mem := ExampleMemory();
    ReadsZeros(0x1009, 7);
    ReadsMore(mem, 0x1008, 7, Zeros(7));
    LowBytes(0x24, 4);
    ZerosSplit();
    assert BytesIn(mem, 0x1008, ToBytes(0x24, 4) + Zeros(4));
    ReadsZeros(0x1019, 7);
    ReadsMore(mem, 0x1018, 7, Zeros(7));
    LowBytes(1, 8);
    ReadsZeros(0x1030, 8);
    ZeroBytes(8);
    ExampleCharacter();
  }

  lemma ExampleCharacter()
    ensures UnitsFit([0xE9], 1) && BytesIn(ExampleMemory(), 0x1038, UnitsBytes([0xE9], 1))
  {
    var cs: seq<Scalar> := [0xE9];
    assert cs[..|cs| - 1] == [];
    assert Pow256(1) == 256;
    assert UnitsBytes(cs, 1) == [0xE9];
    assert ReadBytes(ExampleMemory(), 0x1039, 0) == Some([]);
  }

  /** The name of that object is the two bytes C3 A9. */
  lemma ExampleReads(obj: U64, off: UnicodeOffsets, r: Option<seq<Byte>>)
    requires obj == 0x1000 && off == UnicodeOffsets(8, 24, 40) && NameOf(ExampleMemory(), obj, off, false, 256, r)
    ensures r == Some([0xC3, 0xA9])
  {
    ExampleIn();
    Reads(ExampleMemory(), obj, off, false, StateFields(0, 1, 1, 0, 0), Wide(1), 0xE9, r);
  }

  lemma Reads(mem: Memory, obj: U64, off: UnicodeOffsets, freeThreaded: bool, f: StateFields, form: Form, c: Scalar, r: Option<seq<Byte>>)
    requires ObjectIn(mem, obj, off, freeThreaded, f, form, [c]) && c != 0 && NameOf(mem, obj, off, freeThreaded, 256, r)
    ensures r == Some(Encode(c))
  {
    var cs := [c];
    assert cs[..|cs| - 1] == [] && EncodeAll(cs) == Encode(c);
    ObjectReadsBack(mem, obj, off, freeThreaded, f, form, cs, r);
  }
}
