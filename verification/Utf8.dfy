/**
 UTF-8 as section 3 of RFC 3629 encodes it and as the grammar of its section 4
 accepts it. The decoder shares nothing with the encoder.
 */
module Utf8 {
  import opened Wrappers
  import opened LittleEndian

  /** A Unicode scalar value: no surrogate, nothing above 10FFFF. */
  type Scalar = x: int | 0 <= x < 0xD800 || 0xE000 <= x < 0x11_0000

  function FromU32(x: nat): Option<Scalar> {
    if x < 0xD800 || 0xE000 <= x < 0x11_0000 then Some(x) else None
  }

  // ----------------------------------------------------------------- encoder

  function Len(c: Scalar): (n: nat)
    ensures 1 <= n <= 4
  {
    if c < 0x80 then 1 else if c < 0x800 then 2 else if c < 0x1_0000 then 3 else 4
  }

  function Encode(c: Scalar): (s: seq<Byte>)
    ensures |s| == Len(c)
  {
    if c < 0x80 then [c]
    else if c < 0x800 then [0xC0 + c / 64, 0x80 + c % 64]
    else if c < 0x1_0000 then [0xE0 + c / 64 / 64, 0x80 + c / 64 % 64, 0x80 + c % 64]
    else [0xF0 + c / 64 / 64 / 64, 0x80 + c / 64 / 64 % 64, 0x80 + c / 64 % 64, 0x80 + c % 64]
  }

  function EncodeAll(cs: seq<Scalar>): seq<Byte> {
    if cs == [] then [] else EncodeAll(cs[..|cs| - 1]) + Encode(cs[|cs| - 1])
  }

  // ----------------------------------------------------------------- decoder

  predicate Tail(b: Byte) {
    0x80 <= b <= 0xBF
  }

  predicate SecondOfThree(b: Byte, second: Byte) {
    if b == 0xE0 then 0xA0 <= second <= 0xBF
    else if b == 0xED then 0x80 <= second <= 0x9F
    else 0xE1 <= b <= 0xEF && Tail(second)
  }

  predicate SecondOfFour(b: Byte, second: Byte) {
    if b == 0xF0 then 0x90 <= second <= 0xBF
    else if b == 0xF4 then 0x80 <= second <= 0x8F
    else 0xF1 <= b <= 0xF3 && Tail(second)
  }

  /** Six more bits. */
  function More(high: int, tail: int): int {
    high * 64 + (tail - 0x80)
  }

  lemma MoreSplits(high: int, tail: int)
    requires 0x80 <= tail <= 0xBF && 0 <= high
    ensures More(high, tail) / 64 == high && More(high, tail) % 64 == tail - 0x80
  {
  }

  /** The first character of the text and the number of its bytes. */
  function First(s: seq<Byte>): (r: Option<(Scalar, nat)>)
    ensures r.Some? ==> 1 <= r.value.1 <= |s|
  {
    if s == [] then None
    else if s[0] <= 0x7F then Some((s[0], 1))
    else if |s| >= 2 && 0xC2 <= s[0] <= 0xDF && Tail(s[1]) then
      Some((More(s[0] - 0xC0, s[1]), 2))
    else if |s| >= 3 && SecondOfThree(s[0], s[1]) && Tail(s[2]) then
      Some((More(More(s[0] - 0xE0, s[1]), s[2]), 3))
    else if |s| >= 4 && SecondOfFour(s[0], s[1]) && Tail(s[2]) && Tail(s[3]) then
      Some((More(More(More(s[0] - 0xF0, s[1]), s[2]), s[3]), 4))
    else None
  }

  function Decode(s: seq<Byte>): Option<seq<Scalar>>
    decreases |s|
  {
    if s == [] then Some([])
    else
      match First(s)
      case None => None
      case Some((c, n)) =>
        var rest := Decode(s[n..]);
        if rest.Some? then Some([c] + rest.value) else None
  }

  predicate Valid(s: seq<Byte>) {
    Decode(s).Some?
  }

  // -------------------------------------------------------------- round trips

  lemma JoinBits(c: nat)
    ensures More(c / 64, 0x80 + c % 64) == c
  {
  }

  lemma FirstTwo(c: Scalar, s: seq<Byte>)
    requires 0x80 <= c < 0x800 && Encode(c) <= s
    ensures First(s) == Some((c, 2))
  {
    JoinBits(c);
    assert s[0] == Encode(c)[0] && s[1] == Encode(c)[1];
  }

  lemma ThreeRange(c: Scalar)
    requires 0x800 <= c < 0x1_0000
    ensures SecondOfThree(0xE0 + c / 64 / 64, 0x80 + c / 64 % 64) && Tail(0x80 + c % 64)
    ensures More(More(c / 64 / 64, 0x80 + c / 64 % 64), 0x80 + c % 64) == c
  {
    JoinBits(c);
    JoinBits(c / 64);
  }

  lemma FirstThree(c: Scalar, s: seq<Byte>)
    requires 0x800 <= c < 0x1_0000 && Encode(c) <= s
    ensures First(s) == Some((c, 3))
  {
    ThreeRange(c);
    assert s[0] == Encode(c)[0] && s[1] == Encode(c)[1] && s[2] == Encode(c)[2];
  }

  lemma FourBits(c: Scalar)
    requires 0x1_0000 <= c
    ensures SecondOfFour(0xF0 + c / 64 / 64 / 64, 0x80 + c / 64 / 64 % 64) && Tail(0x80 + c / 64 % 64) && Tail(0x80 + c % 64)
    ensures More(More(More(c / 64 / 64 / 64, 0x80 + c / 64 / 64 % 64), 0x80 + c / 64 % 64), 0x80 + c % 64) == c
  {
    JoinBits(c);
    JoinBits(c / 64);
    JoinBits(c / 64 / 64);
  }

  lemma FirstFour(c: Scalar, s: seq<Byte>)
    requires 0x1_0000 <= c && Encode(c) <= s
    ensures First(s) == Some((c, 4))
  {
    FourBits(c);
    assert s[0] == Encode(c)[0] && s[1] == Encode(c)[1] && s[2] == Encode(c)[2] && s[3] == Encode(c)[3];
  }

  lemma FirstEncode(c: Scalar, rest: seq<Byte>)
    ensures First(Encode(c) + rest) == Some((c, Len(c)))
  {
    var s := Encode(c) + rest;
    if c < 0x80 {
      assert s[0] == c;
    } else if c < 0x800 {
      FirstTwo(c, s);
    } else if c < 0x1_0000 {
      FirstThree(c, s);
    } else {
      FirstFour(c, s);
    }
  }

  lemma EncodeTwo(a: Byte, b: Byte)
    requires 0xC2 <= a <= 0xDF && Tail(b)
    ensures var c := More(a - 0xC0, b); 0x80 <= c < 0x800 && Encode(c) == [a, b]
  {
    MoreSplits(a - 0xC0, b);
  }

  lemma EncodeThree(a: Byte, b: Byte, d: Byte)
    requires SecondOfThree(a, b) && Tail(d)
    ensures var c := More(More(a - 0xE0, b), d);
            0x800 <= c < 0x1_0000 && (c < 0xD800 || 0xE000 <= c) && Encode(c) == [a, b, d]
  {
    MoreSplits(a - 0xE0, b);
    MoreSplits(More(a - 0xE0, b), d);
  }

  lemma FourRange(a: Byte, b: Byte, d: Byte, e: Byte)
    requires SecondOfFour(a, b) && Tail(d) && Tail(e)
    ensures 0x10 <= More(a - 0xF0, b) < 0x110
    ensures 0x1_0000 <= More(More(More(a - 0xF0, b), d), e) < 0x11_0000
  {
  }

  lemma EncodeFour(a: Byte, b: Byte, d: Byte, e: Byte)
    requires SecondOfFour(a, b) && Tail(d) && Tail(e)
    ensures var c := More(More(More(a - 0xF0, b), d), e); 0x1_0000 <= c < 0x11_0000 && Encode(c) == [a, b, d, e]
  {
    FourRange(a, b, d, e);
    var high := More(a - 0xF0, b);
    var mid := More(high, d);
    var c := More(mid, e);
    MoreSplits(a - 0xF0, b);
    MoreSplits(high, d);
    MoreSplits(mid, e);
    assert c / 64 == mid && mid / 64 == high && high / 64 == a - 0xF0;
  }

  lemma EncodeFirst(s: seq<Byte>)
    requires First(s).Some?
    ensures s[..First(s).value.1] == Encode(First(s).value.0)
  {
    if s[0] <= 0x7F {
      assert s[..1] == [s[0]];
    } else if |s| >= 2 && 0xC2 <= s[0] <= 0xDF && Tail(s[1]) {
      EncodeTwo(s[0], s[1]);
      assert s[..2] == [s[0], s[1]];
    } else if |s| >= 3 && SecondOfThree(s[0], s[1]) && Tail(s[2]) {
      EncodeThree(s[0], s[1], s[2]);
      assert s[..3] == [s[0], s[1], s[2]];
    } else {
      EncodeFour(s[0], s[1], s[2], s[3]);
      assert s[..4] == [s[0], s[1], s[2], s[3]];
    }
  }

  lemma DecodeFirst(c: Scalar, rest: seq<Byte>)
    requires Valid(rest)
    ensures Decode(Encode(c) + rest) == Some([c] + Decode(rest).value)
  {
    FirstEncode(c, rest);
    assert (Encode(c) + rest)[Len(c)..] == rest;
  }

  lemma {:induction false} EncodeAllPrepend(c: Scalar, cs: seq<Scalar>)
    ensures EncodeAll([c] + cs) == Encode(c) + EncodeAll(cs)
  {
    var all := [c] + cs;
    if cs == [] {
      assert all[..0] == [] && EncodeAll(all) == [] + Encode(c);
    } else {
      var n := |cs| - 1;
      EncodeAllPrepend(c, cs[..n]);
      assert all[..|all| - 1] == [c] + cs[..n];
      assert Encode(c) + EncodeAll(cs[..n]) + Encode(cs[n]) == Encode(c) + (EncodeAll(cs[..n]) + Encode(cs[n]));
    }
  }

  /** Decoding what was encoded gives it back. */
  lemma {:induction false} DecodeEncode(cs: seq<Scalar>)
    ensures Decode(EncodeAll(cs)) == Some(cs)
  {
    if cs != [] {
      DecodeEncode(cs[1..]);
      EncodeAllPrepend(cs[0], cs[1..]);
      DecodeFirst(cs[0], EncodeAll(cs[1..]));
      assert cs == [cs[0]] + cs[1..];
    }
  }

  lemma DecodeSplits(s: seq<Byte>) returns (c: Scalar, rest: seq<Byte>)
    requires Valid(s) && s != []
    ensures |rest| < |s| && s == Encode(c) + rest && Valid(rest) && Decode(s).value == [c] + Decode(rest).value
  {
    var n := First(s).value.1;
    c, rest := First(s).value.0, s[n..];
    EncodeFirst(s);
    assert s == s[..n] + s[n..];
  }

  /** Whatever the grammar accepts is the one encoding of what it decodes to. */
  lemma {:induction false} EncodeDecode(s: seq<Byte>)
    requires Valid(s)
    ensures EncodeAll(Decode(s).value) == s
    decreases |s|
  {
    if s != [] {
      var c, rest := DecodeSplits(s);
      EncodeDecode(rest);
      EncodeAllPrepend(c, Decode(rest).value);
    }
  }

  /** A longer text takes more room. */
  lemma {:induction false} EncodedGrows(cs: seq<Scalar>, i: nat, j: nat)
    requires i <= j <= |cs|
    ensures |EncodeAll(cs[..i])| <= |EncodeAll(cs[..j])|
    ensures i < j ==> |EncodeAll(cs[..i])| < |EncodeAll(cs[..j])|
  {
    if i < j {
      EncodedGrows(cs, i, j - 1);
      assert cs[..j][..j - 1] == cs[..j - 1];
    }
  }

  lemma {:induction false} EncodedBound(cs: seq<Scalar>, width: nat)
    requires forall i | 0 <= i < |cs| :: Len(cs[i]) <= width
    ensures |EncodeAll(cs)| <= width * |cs|
  {
    if cs != [] {
      var n := |cs| - 1;
      EncodedBound(cs[..n], width);
      OneMoreTimes(width, n);
    }
  }

  lemma OneMoreTimes(width: nat, n: nat)
    ensures width * (n + 1) == width * n + width
  {
  }
}
