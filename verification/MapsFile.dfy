/**
 Finding the Python binary in /proc/self/maps (kit/python_offsets). The line parser is
 proved against a printer of the kernel's line format, the search against the choice it
 promises.
 */
module MapsFile {
  import opened Wrappers
  import opened LittleEndian

  type Bytes = seq<Byte>

  const SPACE: Byte := 32
  const NEWLINE: Byte := 10
  const PLUS: Byte := 43
  const DASH: Byte := 45
  const COLON: Byte := 58

  // ------------------------------------------------------------------- numbers

  function DigitOf(b: Byte): Option<nat> {
    if 48 <= b <= 57 then Some(b - 48)
    else if 97 <= b <= 102 then Some(b - 87)
    else if 65 <= b <= 70 then Some(b - 55)
    else None
  }

  /** Decimal or hexadecimal. */
  type Radix = r: nat | r == 10 || r == 16 witness 10

  function Shift(v: nat, radix: Radix): nat {
    if radix == 16 then 16 * v else 10 * v
  }

  function Low(n: nat, radix: Radix): (d: nat)
    ensures d < radix && (n < radix ==> d == n)
  {
    if radix == 16 then n % 16 else n % 10
  }

  function High(n: nat, radix: Radix): (h: nat)
    ensures Shift(h, radix) + Low(n, radix) == n
    ensures h <= n && (n >= radix ==> h < n) && (n < radix ==> h == 0)
  {
    if radix == 16 then n / 16 else n / 10
  }

  function Value(s: Bytes, radix: Radix): Option<nat> {
    if s == [] then Some(0)
    else
      var init, d := Value(s[..|s| - 1], radix), DigitOf(s[|s| - 1]);
      if init.Some? && d.Some? && d.value < radix then Some(Shift(init.value, radix) + d.value) else None
  }

  /** `from_str_radix` of an unsigned type: a plus sign is fine, an empty number is not. */
  function ParseNumber(s: Bytes, radix: Radix, max: nat): Option<nat> {
    if s == [] || s == [PLUS] then None
    else
      var v := Value(if s[0] == PLUS then s[1..] else s, radix);
      if v.Some? && v.value <= max then v else None
  }

  function DigitByte(d: nat): Byte
    requires d < 16
  {
    if d < 10 then 48 + d else 87 + d
  }

  /** The number padded with zeros to at least `width` digits. */
  function Number(n: nat, radix: Radix, width: nat): (r: Bytes)
    ensures r != []
    decreases n + width
  {
    (if n < radix && width <= 1 then []
     else Number(High(n, radix), radix, if width == 0 then 0 else width - 1)) + [DigitByte(Low(n, radix))]
  }

  lemma DigitBack(d: nat)
    requires d < 16
    ensures DigitOf(DigitByte(d)) == Some(d)
  {
  }

  lemma ValuePush(s: Bytes, init: Bytes, b: Byte, radix: Radix, v: nat, d: nat)
    requires s == init + [b] && Value(init, radix) == Some(v) && DigitOf(b) == Some(d) && d < radix
    ensures Value(s, radix) == Some(Shift(v, radix) + d)
  {
    assert s[..|s| - 1] == init;
  }

  /** All digits but the last, and the last. */
  lemma NumberSplits(n: nat, radix: Radix, width: nat, init: Bytes)
    requires init == if n < radix && width <= 1 then [] else Number(High(n, radix), radix, if width == 0 then 0 else width - 1)
    ensures Number(n, radix, width) == init + [DigitByte(Low(n, radix))]
  {
  }

  lemma {:induction false} NumberValue(n: nat, radix: Radix, width: nat)
    ensures Value(Number(n, radix, width), radix) == Some(n)
    decreases n + width
  {
    var h, d, init := High(n, radix), Low(n, radix), [];
    DigitBack(d);
    if n >= radix || width > 1 {
      var w := if width == 0 then 0 else width - 1;
      NumberValue(h, radix, w);
      init := Number(h, radix, w);
    }
    NumberSplits(n, radix, width, init);
    ValuePush(Number(n, radix, width), init, DigitByte(d), radix, h, d);
  }

  predicate IsDigits(s: Bytes) {
    forall i | 0 <= i < |s| :: 48 <= s[i] <= 57 || 97 <= s[i] <= 102
  }

  lemma {:induction false} NumberDigits(n: nat, radix: Radix, width: nat)
    ensures IsDigits(Number(n, radix, width))
    decreases n + width
  {
    if n >= radix || width > 1 { NumberDigits(High(n, radix), radix, if width == 0 then 0 else width - 1); }
  }

  lemma NumberParses(n: nat, radix: Radix, width: nat, max: nat)
    requires n <= max
    ensures ParseNumber(Number(n, radix, width), radix, max) == Some(n) && IsDigits(Number(n, radix, width))
  {
    NumberValue(n, radix, width);
    NumberDigits(n, radix, width);
  }

  // ------------------------------------------------------------------- cutting

  /** What is before and after the first `c`. */
  function Cut(s: Bytes, c: Byte): Option<(Bytes, Bytes)> {
    if s == [] then None
    else if s[0] == c then Some(([], s[1..]))
    else
      match Cut(s[1..], c)
      case None => None
      case Some((a, b)) => Some(([s[0]] + a, b))
  }

  lemma {:induction false} CutAt(a: Bytes, c: Byte, b: Bytes)
    requires c !in a
    ensures Cut(a + [c] + b, c) == Some((a, b))
  {
    var s := a + [c] + b;
    if a == [] {
      assert s[1..] == b;
    } else {
      CutAt(a[1..], c, b);
      assert s[0] == a[0] && s[1..] == a[1..] + [c] + b && a == [a[0]] + a[1..];
    }
  }

  /** `trim_ascii` knows these; `str::trim` also the vertical tab. */
  predicate White(b: Byte) {
    b == 32 || b == 9 || b == 10 || b == 12 || b == 13
  }

  function TrimStart(s: Bytes, vertical: bool): Bytes {
    if s != [] && (White(s[0]) || (vertical && s[0] == 11)) then TrimStart(s[1..], vertical) else s
  }

  function TrimEnd(s: Bytes, vertical: bool): Bytes {
    if s != [] && (White(s[|s| - 1]) || (vertical && s[|s| - 1] == 11)) then TrimEnd(s[..|s| - 1], vertical) else s
  }

  // --------------------------------------------------------------- the line parser

  datatype Line = Line(
    start: U64, end: U64, flags: nat, offset: U64, major: U32, minor: U32, inode: U64, path: Bytes)

  const MAX64: nat := 0xFFFF_FFFF_FFFF_FFFF
  const MAX32: nat := 0xFFFF_FFFF

  /** Two hexadecimal numbers around a separator. */
  function ParseTwo(s: Bytes, separator: Byte, max: nat): (r: Option<(nat, nat)>)
    ensures r.Some? ==> r.value.0 <= max && r.value.1 <= max
  {
    match Cut(s, separator)
    case None => None
    case Some((a, b)) =>
      var x, y := ParseNumber(a, 16, max), ParseNumber(b, 16, max);
      if x.Some? && y.Some? then Some((x.value, y.value)) else None
  }

  function ParsePerms(s: Bytes): Option<nat> {
    if |s| < 4 then None
    else
      Some((if s[0] == 114 then 1 else 0) + (if s[1] == 119 then 2 else 0)
           + (if s[2] == 120 then 4 else 0) + (if s[3] == 115 then 8 else 0))
  }

  /** The first five of the six pieces of `splitn`; the sixth is absent after the last separator. */
  function ParseLine(line: Bytes): Option<Line> {
    match Cut(line, SPACE)
    case None => None
    case Some((addresses, rest1)) =>
      match Cut(rest1, SPACE)
      case None => None
      case Some((perms, rest2)) =>
        match Cut(rest2, SPACE)
        case None => None
        case Some((offset, rest3)) =>
          match Cut(rest3, SPACE)
          case None => None
          case Some((dev, rest4)) =>
            match Cut(rest4, SPACE)
            case None => ParseFields(addresses, perms, offset, dev, rest4, [])
            case Some((inode, path)) => ParseFields(addresses, perms, offset, dev, inode, path)
  }

  function ParseFields(addresses: Bytes, perms: Bytes, offset: Bytes, dev: Bytes, inode: Bytes, path: Bytes): Option<Line> {
    var range, flags := ParseTwo(addresses, DASH, MAX64), ParsePerms(perms);
    var off, device := ParseNumber(offset, 16, MAX64), ParseTwo(dev, COLON, MAX32);
    var node := ParseNumber(TrimEnd(TrimStart(inode, true), true), 10, MAX64);
    if range.Some? && flags.Some? && off.Some? && device.Some? && node.Some? then
      Some(Line(range.value.0, range.value.1, flags.value, off.value, device.value.0, device.value.1, node.value,
                TrimEnd(TrimStart(path, false), false)))
    else None
  }

  // -------------------------------------------------------------------- the printer

  function Spaces(n: nat): Bytes {
    if n == 0 then [] else [SPACE] + Spaces(n - 1)
  }

  function PrintPerms(flags: nat): Bytes {
    [if flags % 2 == 1 then 114 else DASH, if flags / 2 % 2 == 1 then 119 else DASH,
     if flags / 4 % 2 == 1 then 120 else DASH, if flags / 8 % 2 == 1 then 115 else 112]
  }

  /** One line, with the padding that the kernel puts before the path. */
  function Print(l: Line, gap: nat): Bytes {
    Number(l.start, 16, 8) + [DASH] + Number(l.end, 16, 8) + [SPACE] +
    (PrintPerms(l.flags) + [SPACE] +
    (Number(l.offset, 16, 8) + [SPACE] +
    (Number(l.major, 16, 2) + [COLON] + Number(l.minor, 16, 2) + [SPACE] +
    (Number(l.inode, 10, 1) + [SPACE] +
    (Spaces(gap) + l.path + [NEWLINE])))))
  }

  // ------------------------------------------------------------------- round trip

  lemma TwoParts(a: Bytes, b: Bytes, separator: Byte)
    requires IsDigits(a) && IsDigits(b) && (separator == DASH || separator == COLON)
    ensures Cut(a + [separator] + b, separator) == Some((a, b)) && SPACE !in a + [separator] + b
  {
    assert separator !in a;
    CutAt(a, separator, b);
  }

  lemma TwoParse(x: nat, y: nat, separator: Byte, width: nat, max: nat)
    requires x <= max && y <= max && (separator == DASH || separator == COLON)
    ensures ParseTwo(Number(x, 16, width) + [separator] + Number(y, 16, width), separator, max) == Some((x, y))
    ensures SPACE !in Number(x, 16, width) + [separator] + Number(y, 16, width)
  {
    var a, b := Number(x, 16, width), Number(y, 16, width);
    NumberParses(x, 16, width, max);
    NumberParses(y, 16, width, max);
    TwoParts(a, b, separator);
    assert Cut(a + [separator] + b, separator) == Some((a, b));
  }

  lemma PermsParse(flags: nat)
    requires flags < 16
    ensures ParsePerms(PrintPerms(flags)) == Some(flags) && SPACE !in PrintPerms(flags)
  {
    assert flags == flags % 2 + 2 * (flags / 2 % 2) + 4 * (flags / 4 % 2) + 8 * (flags / 8 % 2);
  }

  predicate Trimmed(s: Bytes) {
    s == [] || (!White(s[0]) && !White(s[|s| - 1]))
  }

  lemma {:induction false} TrimGap(gap: nat, s: Bytes)
    ensures TrimStart(Spaces(gap) + s, false) == TrimStart(s, false)
  {
    if gap > 0 {
      TrimGap(gap - 1, s);
      assert (Spaces(gap) + s)[1..] == Spaces(gap - 1) + s;
    } else {
      assert Spaces(0) + s == s;
    }
  }

  lemma TrimPath(gap: nat, path: Bytes)
    requires Trimmed(path)
    ensures TrimEnd(TrimStart(Spaces(gap) + path + [NEWLINE], false), false) == path
  {
    var s := path + [NEWLINE];
    assert Spaces(gap) + path + [NEWLINE] == Spaces(gap) + s;
    TrimGap(gap, s);
    if path == [] {
      assert s == [NEWLINE] && s[1..] == [];
    } else {
      assert s[0] == path[0] && s[..|s| - 1] == path;
    }
  }

  lemma TrimDigits(s: Bytes)
    requires s != [] && IsDigits(s)
    ensures TrimEnd(TrimStart(s, true), true) == s && SPACE !in s
  {
  }

  lemma ParsePrinted(l: Line, gap: nat)
    requires l.flags < 16 && Trimmed(l.path)
    ensures ParseFields(Number(l.start, 16, 8) + [DASH] + Number(l.end, 16, 8), PrintPerms(l.flags),
                        Number(l.offset, 16, 8), Number(l.major, 16, 2) + [COLON] + Number(l.minor, 16, 2),
                        Number(l.inode, 10, 1), Spaces(gap) + l.path + [NEWLINE]) == Some(l)
  {
    TwoParse(l.start, l.end, DASH, 8, MAX64);
    PermsParse(l.flags);
    NumberParses(l.offset, 16, 8, MAX64);
    TwoParse(l.major, l.minor, COLON, 2, MAX32);
    NumberParses(l.inode, 10, 1, MAX64);
    TrimDigits(Number(l.inode, 10, 1));
    TrimPath(gap, l.path);
  }

  /** The parser inverts the printer, for all field values and every trimmed path, with any padding. */
  lemma ParseInvertsPrint(l: Line, gap: nat)
    requires l.flags < 16 && Trimmed(l.path)
    ensures ParseLine(Print(l, gap)) == Some(l)
  {
    var f1, f2, f3 := Number(l.start, 16, 8) + [DASH] + Number(l.end, 16, 8), PrintPerms(l.flags), Number(l.offset, 16, 8);
    var f4, f5 := Number(l.major, 16, 2) + [COLON] + Number(l.minor, 16, 2), Number(l.inode, 10, 1);
    var r5 := Spaces(gap) + l.path + [NEWLINE];
    var r4 := f5 + [SPACE] + r5;
    var r3 := f4 + [SPACE] + r4;
    var r2 := f3 + [SPACE] + r3;
    TwoParse(l.start, l.end, DASH, 8, MAX64);
    TwoParse(l.major, l.minor, COLON, 2, MAX32);
    PermsParse(l.flags);
    NumberDigits(l.offset, 16, 8);
    NumberDigits(l.inode, 10, 1);
    CutAt(f1, SPACE, f2 + [SPACE] + r2);
    CutAt(f2, SPACE, r2);
    CutAt(f3, SPACE, r3);
    CutAt(f4, SPACE, r4);
    CutAt(f5, SPACE, r5);
    assert Print(l, gap) == f1 + [SPACE] + (f2 + [SPACE] + r2);
    ParsePrinted(l, gap);
  }

  // --------------------------------------------------------------------- the search

  predicate WindowIs(haystack: Bytes, needle: Bytes, i: nat)
    requires i + |needle| <= |haystack|
  {
    haystack[i..i + |needle|] == needle
  }

  predicate Contains(haystack: Bytes, needle: Bytes) {
    needle != [] && exists i: nat :: i + |needle| <= |haystack| && WindowIs(haystack, needle, i)
  }

  method PathContains(haystack: Bytes, needle: Bytes) returns (r: bool)
    ensures r == Contains(haystack, needle)
  {
    if needle == [] || |haystack| < |needle| {
      return false;
    }
    for i := 0 to |haystack| - |needle| + 1
      invariant forall j: nat | j < i :: !WindowIs(haystack, needle, j)
    {
      if haystack[i..i + |needle|] == needle {
        assert WindowIs(haystack, needle, i);
        return true;
      }
    }
    return false;
  }

  /** "libpython3" and "python3". */
  const LIBPYTHON3: Bytes := [108, 105, 98, 112, 121, 116, 104, 111, 110, 51]
  const PYTHON3: Bytes := [112, 121, 116, 104, 111, 110, 51]

  datatype Binary = Binary(base: U64, path: Bytes)

  predicate Mentions(line: Bytes, needle: Bytes) {
    var l := ParseLine(line);
    l.Some? && Contains(l.value.path, needle)
  }

  /** The first line that mentions the needle, or the number of lines. */
  function FirstMention(lines: seq<Bytes>, needle: Bytes): (i: nat)
    ensures i <= |lines| && (i < |lines| ==> Mentions(lines[i], needle))
    ensures forall j | 0 <= j < i :: !Mentions(lines[j], needle)
  {
    if lines == [] || Mentions(lines[0], needle) then 0 else 1 + FirstMention(lines[1..], needle)
  }

  function BinaryAt(line: Bytes): Binary
    requires ParseLine(line).Some?
  {
    Binary(ParseLine(line).value.start, ParseLine(line).value.path)
  }

  /** The candidate that the scan keeps. */
  function Kept(lines: seq<Bytes>, needle: Bytes): Option<Binary> {
    if lines == [] then None
    else
      var before, last := Kept(lines[..|lines| - 1], needle), lines[|lines| - 1];
      if before.Some? || !Mentions(last, needle) then before else Some(BinaryAt(last))
  }

  lemma {:induction false} KeptIsFirst(lines: seq<Bytes>, needle: Bytes)
    ensures var k := FirstMention(lines, needle);
            Kept(lines, needle) == if k < |lines| then Some(BinaryAt(lines[k])) else None
  {
    if lines != [] {
      var n := |lines| - 1;
      KeptIsFirst(lines[..n], needle);
      var k, j := FirstMention(lines, needle), FirstMention(lines[..n], needle);
      assert forall i | 0 <= i < n :: lines[..n][i] == lines[i];
      assert !(k < j) && (j < n ==> k == j);
    }
  }

  lemma {:induction false} KeptStays(lines: seq<Bytes>, needle: Bytes, i: nat)
    requires i <= |lines| && Kept(lines[..i], needle).Some?
    ensures Kept(lines, needle) == Kept(lines[..i], needle)
    decreases |lines|
  {
    if i == |lines| {
      assert lines[..i] == lines;
    } else {
      var init := lines[..|lines| - 1];
      assert init[..i] == lines[..i];
      KeptStays(init, needle, i);
    }
  }

  lemma KeptPush(lines: seq<Bytes>, needle: Bytes, i: nat)
    requires i < |lines|
    ensures Kept(lines[..i + 1], needle) ==
      if Kept(lines[..i], needle).Some? || !Mentions(lines[i], needle) then Kept(lines[..i], needle)
      else Some(BinaryAt(lines[i]))
  {
    assert lines[..i + 1][..i] == lines[..i];
  }

  /** The first line that mentions libpython3, else the first that mentions python3, else an error. */
  method FindPython(lines: seq<Bytes>) returns (r: Result<Binary, ()>)
    ensures var lib, python := FirstMention(lines, LIBPYTHON3), FirstMention(lines, PYTHON3);
            r == if lib < |lines| then Success(BinaryAt(lines[lib]))
                 else if python < |lines| then Success(BinaryAt(lines[python])) else Failure(())
  {
    KeptIsFirst(lines, LIBPYTHON3);
    KeptIsFirst(lines, PYTHON3);
    var python3: Option<Binary> := None;
    for i := 0 to |lines|
      invariant Kept(lines[..i], LIBPYTHON3) == None && python3 == Kept(lines[..i], PYTHON3)
    {
      KeptPush(lines, LIBPYTHON3, i);
      KeptPush(lines, PYTHON3, i);
      var entry := ParseLine(lines[i]);
      if entry.Some? {
        var lib := PathContains(entry.value.path, LIBPYTHON3);
        if lib {
          KeptStays(lines, LIBPYTHON3, i + 1);
          return Success(Binary(entry.value.start, entry.value.path));
        }
        var python := PathContains(entry.value.path, PYTHON3);
        if python3.None? && python {
          python3 := Some(Binary(entry.value.start, entry.value.path));
        }
      }
    }
    assert lines[..|lines|] == lines;
    return if python3.Some? then Success(python3.value) else Failure(());
  }

  /** On a file printed by the kernel the search answers for the mappings themselves. */
  lemma MentionsPrinted(l: Line, gap: nat, needle: Bytes)
    requires l.flags < 16 && Trimmed(l.path)
    ensures Mentions(Print(l, gap), needle) <==> Contains(l.path, needle)
    ensures ParseLine(Print(l, gap)).Some? && BinaryAt(Print(l, gap)) == Binary(l.start, l.path)
  {
    ParseInvertsPrint(l, gap);
  }
}
