/** Fixed-width little-endian integers. */
module LittleEndian {
  type Byte = x: int | 0 <= x < 256
  type U32 = x: int | 0 <= x < 0x1_0000_0000
  type U64 = x: int | 0 <= x < 0x1_0000_0000_0000_0000

  function Pow256(n: nat): (r: nat)
    ensures r > 0
  {
    if n == 0 then 1 else 256 * Pow256(n - 1)
  }

  function ToBytes(x: nat, n: nat): (r: seq<Byte>)
    ensures |r| == n
  {
    if n == 0 then [] else [x % 256] + ToBytes(x / 256, n - 1)
  }

  function FromBytes(s: seq<Byte>): nat {
    if s == [] then 0 else s[0] + 256 * FromBytes(s[1..])
  }

  /** Reading back what was written keeps the low bytes. */
  lemma {:induction false} FromToBytes(x: nat, n: nat)
    requires x < Pow256(n)
    ensures FromBytes(ToBytes(x, n)) == x
  {
    if n > 0 {
      FromToBytes(x / 256, n - 1);
      assert ToBytes(x, n)[1..] == ToBytes(x / 256, n - 1);
    }
  }

  lemma {:induction false} FromBytesBound(s: seq<Byte>)
    ensures FromBytes(s) < Pow256(|s|)
  {
    if s != [] { FromBytesBound(s[1..]); }
  }

  lemma LowByte(low: Byte, high: nat)
    ensures (low + 256 * high) % 256 == low && (low + 256 * high) / 256 == high
  {
  }

  lemma {:induction false} ToFromBytes(s: seq<Byte>)
    ensures ToBytes(FromBytes(s), |s|) == s
  {
    if s != [] {
      ToFromBytes(s[1..]);
      LowByte(s[0], FromBytes(s[1..]));
      assert s == [s[0]] + s[1..];
    }
  }

  lemma Shifted(power: nat, x: nat)
    ensures 256 * (power * x) == (256 * power) * x
  {
  }

  /** The low bytes come first. */
  lemma {:induction false} FromBytesConcat(s: seq<Byte>, t: seq<Byte>)
    ensures FromBytes(s + t) == FromBytes(s) + Pow256(|s|) * FromBytes(t)
  {
    if s == [] {
      assert s + t == t;
    } else {
      FromBytesConcat(s[1..], t);
      assert (s + t)[1..] == s[1..] + t;
      Shifted(Pow256(|s| - 1), FromBytes(t));
    }
  }

  lemma Widths()
    ensures Pow256(4) == 0x1_0000_0000 && Pow256(8) == 0x1_0000_0000_0000_0000
  {
    assert Pow256(2) == 65536;
    assert Pow256(4) == 65536 * 65536;
    assert Pow256(6) == 65536 * Pow256(4);
    assert Pow256(8) == 65536 * Pow256(6);
  }

  function U32At(s: seq<Byte>, i: nat): U32
    requires i + 4 <= |s|
  {
    FromBytesBound(s[i..i + 4]);
    Widths();
    FromBytes(s[i..i + 4])
  }

  function U64At(s: seq<Byte>, i: nat): U64
    requires i + 8 <= |s|
  {
    FromBytesBound(s[i..i + 8]);
    Widths();
    FromBytes(s[i..i + 8])
  }

  lemma U32AtToBytes(s: seq<Byte>, i: nat, x: U32)
    requires i + 4 <= |s| && s[i..i + 4] == ToBytes(x, 4)
    ensures U32At(s, i) == x
  {
    Widths();
    FromToBytes(x, 4);
  }

  lemma U32AtBytes(s: seq<Byte>, i: nat)
    requires i + 4 <= |s|
    ensures ToBytes(U32At(s, i), 4) == s[i..i + 4]
  {
    ToFromBytes(s[i..i + 4]);
  }

  lemma U64AtToBytes(s: seq<Byte>, i: nat, x: U64)
    requires i + 8 <= |s| && s[i..i + 8] == ToBytes(x, 8)
    ensures U64At(s, i) == x
  {
    Widths();
    FromToBytes(x, 8);
  }
}
