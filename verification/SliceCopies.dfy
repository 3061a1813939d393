/**
 What a copy by `slice` means byte by byte, and when its success can be trusted: the
 buffer then holds the bytes that were at the source.
 */
module SliceCopies {
  import opened Wrappers
  import opened LittleEndian
  import opened Kindasafe

  const SPACE: nat := 0x1_0000_0000_0000_0000

  // ------------------------------------------------------------ byte by byte

  /** The first `k` bytes at `dst` are those that were at `src`; no other byte has changed. */
  ghost predicate Copied(before: Memory, after: Memory, dst: U64, src: U64, k: nat) {
    && after.Keys == before.Keys
    && (forall i: nat | i < k :: CopiedByte(before, after, Plus(dst, i), Plus(src, i)))
    && (forall a | a in before && Outside(a, dst, k) :: after[a] == before[a])
  }

  ghost predicate CopiedByte(before: Memory, after: Memory, to: U64, from: U64) {
    from in before && to in after && after[to] == before[from]
  }

  ghost predicate Outside(a: U64, dst: U64, k: nat) {
    forall i: nat | i < k :: a != Plus(dst, i)
  }

  /** The buffer starts inside the source, so that writes run ahead of the reads. */
  ghost predicate Chased(dst: U64, src: U64, n: nat) {
    exists d: nat :: 0 < d < n && dst == Plus(src, d)
  }

  lemma NextApart(a: U64, b: U64)
    requires a != b
    ensures Plus(a, 1) != Plus(b, 1)
  {
  }

  lemma ChasedLess(dst: U64, src: U64, n: nat)
    requires !Chased(dst, src, n + 1)
    ensures !Chased(Plus(dst, 1), Plus(src, 1), n)
  {
    forall d: nat | 0 < d < n ensures Plus(dst, 1) != Plus(Plus(src, 1), d) {
      assert dst != Plus(src, d);
      PlusPlus(src, 1, d);
      PlusPlus(src, d, 1);
      NextApart(dst, Plus(src, d));
    }
  }

  lemma OutsideRest(a: U64, dst: U64, k: nat)
    ensures Outside(a, dst, k + 1) <==> a != dst && Outside(a, Plus(dst, 1), k)
  {
    PlusZero(dst);
    forall i: nat | i < k ensures Plus(Plus(dst, 1), i) == Plus(dst, i + 1) {
      PlusPlus(dst, 1, i);
    }
    if a != dst && Outside(a, Plus(dst, 1), k) {
      forall i: nat | i < k + 1 ensures a != Plus(dst, i) {
        if i > 0 { assert a != Plus(Plus(dst, 1), i - 1); }
      }
    }
  }

  lemma AheadOutside(dst: U64, i: nat, k: nat)
    requires i + k < SPACE
    ensures Outside(Plus(dst, i), Plus(dst, i + 1), k)
  {
    var next := Plus(dst, i + 1);
    forall j: nat | j < k ensures Plus(dst, i) != Plus(next, j) {
      PlusPlus(dst, i + 1, j);
    }
  }

  /** A byte of the rest, seen from the start. */
  lemma LaterByte(before: Memory, after: Memory, dst: U64, src: U64, k: nat, i: nat)
    requires src in before && dst in before && 0 < i <= k && Plus(src, i) != dst
    requires Copied(before[dst := before[src]], after, Plus(dst, 1), Plus(src, 1), k)
    ensures CopiedByte(before, after, Plus(dst, i), Plus(src, i))
  {
    PlusPlus(src, 1, i - 1);
    PlusPlus(dst, 1, i - 1);
    assert CopiedByte(before[dst := before[src]], after, Plus(Plus(dst, 1), i - 1), Plus(Plus(src, 1), i - 1));
  }

  lemma CopiedOneMore(before: Memory, after: Memory, dst: U64, src: U64, k: nat)
    requires k < SPACE - 1 && src in before && dst in before && !Chased(dst, src, k + 1)
    requires Copied(before[dst := before[src]], after, Plus(dst, 1), Plus(src, 1), k)
    ensures Copied(before, after, dst, src, k + 1)
  {
    var mid := before[dst := before[src]];
    PlusZero(dst);
    PlusZero(src);
    AheadOutside(dst, 0, k);
    assert after[dst] == mid[dst];
    forall i: nat | i < k + 1 ensures CopiedByte(before, after, Plus(dst, i), Plus(src, i)) {
      if i > 0 { LaterByte(before, after, dst, src, k, i); }
    }
    forall a | a in before && Outside(a, dst, k + 1) ensures after[a] == before[a] {
      OutsideRest(a, dst, k);
    }
  }

  /** Unless the writes run ahead of the reads, copying forward copies. */
  lemma {:induction false} ForwardCopies(mem: Memory, dst: U64, src: U64, k: nat)
    requires k < SPACE && Writable(mem, dst, k) && Readable(mem, src, k) == k && !Chased(dst, src, k)
    ensures Copied(mem, Forward(mem, dst, src, k), dst, src, k)
    decreases k
  {
    if k > 0 {
      WritableRest(mem, dst, k, mem[src]);
      var mid := mem[dst := mem[src]];
      assert mid.Keys == mem.Keys;
      ReadableSame(mem, mid, Plus(src, 1), k - 1);
      ChasedLess(dst, src, k - 1);
      ForwardCopies(mid, Plus(dst, 1), Plus(src, 1), k - 1);
      CopiedOneMore(mem, Forward(mem, dst, src, k), dst, src, k - 1);
    }
  }

  lemma {:induction false} BytesAt(mem: Memory, a: U64, n: nat, i: nat)
    requires i < n && ReadBytes(mem, a, n).Some?
    ensures Plus(a, i) in mem && ReadBytes(mem, a, n).value[i] == mem[Plus(a, i)]
    decreases n
  {
    if i == 0 {
      PlusZero(a);
    } else {
      BytesAt(mem, Plus(a, 1), n - 1, i - 1);
      PlusPlus(a, 1, i - 1);
    }
  }

  lemma WritableReads(mem: Memory, a: U64, n: nat)
    requires Writable(mem, a, n)
    ensures ReadBytes(mem, a, n).Some? && Readable(mem, a, n) == n
  {
    ReadableIsLongest(mem, a, n);
    ReadableIffBytes(mem, a, n);
  }

  lemma SameByte(before: Memory, after: Memory, dst: U64, src: U64, n: nat, i: nat)
    requires i < n && CopiedByte(before, after, Plus(dst, i), Plus(src, i))
    requires ReadBytes(before, src, n).Some? && ReadBytes(after, dst, n).Some?
    ensures ReadBytes(before, src, n).value[i] == ReadBytes(after, dst, n).value[i]
  {
    BytesAt(before, src, n, i);
    BytesAt(after, dst, n, i);
  }

  /** What was copied reads as the source did. */
  lemma CopyReadsBack(before: Memory, after: Memory, dst: U64, src: U64, n: nat)
    requires Copied(before, after, dst, src, n) && Writable(before, dst, n) && ReadBytes(before, src, n).Some?
    ensures ReadBytes(after, dst, n) == ReadBytes(before, src, n)
  {
    WritableStays(before, after, dst, n);
    WritableReads(after, dst, n);
    var x, y := ReadBytes(before, src, n).value, ReadBytes(after, dst, n).value;
    assert |x| == n && |y| == n;
    forall i: nat | i < n ensures x[i] == y[i] {
      assert CopiedByte(before, after, Plus(dst, i), Plus(src, i));
      SameByte(before, after, dst, src, n, i);
    }
    assert x == y;
  }

  lemma WritableStays(before: Memory, after: Memory, a: U64, n: nat)
    requires Writable(before, a, n) && after.Keys == before.Keys
    ensures Writable(after, a, n)
  {
    forall i: nat | i < n ensures Plus(a, i) in after {
      assert Plus(a, i) in before.Keys;
    }
  }

  // -------------------------------------------------------------- any call

  function CountOf(arch: Arch, n: U64): nat {
    if arch == X86_64 then n % 0x1_0000_0000 else n
  }

  /** A thread about to run `slice(dst, src, n)`, with a buffer of `n` bytes at `dst`. */
  ghost predicate Calls(arch: Arch, code: Code, c: Cpu, dst: U64, src: U64, n: U64) {
    && |c.regs| == Registers(arch) && c.pc == code.sliceAt && Writable(c.mem, dst, n)
    && (if arch == X86_64 then c.regs[RDI] == dst && c.regs[RSI] == src && c.regs[RDX] == n
        else c.regs[0] == dst && c.regs[1] == src && c.regs[2] == n)
  }

  function SignalOf(arch: Arch, c: Cpu): U64
    requires |c.regs| == Registers(arch)
  {
    if arch == X86_64 then c.regs[RAX] else c.regs[0]
  }

  lemma SliceReturns(arch: Arch, code: Code, c: Cpu, dst: U64, src: U64, n: U64, sig: U64) returns (steps: nat, end: Cpu)
    requires Placed(code) && Calls(arch, code, c, dst, src, n)
    ensures Run(arch, code, c, sig, steps) == Returned(end) && |end.regs| == Registers(arch)
    ensures SliceRight(c.mem, end.mem, dst, src, CountOf(arch, n), sig, SignalOf(arch, end))
  {
    if arch == X86_64 { steps, end := X86Slice(code, c, sig); } else { steps, end := Aarch64Slice(code, c, sig); }
  }

  /** The call returns, and in one state only. */
  lemma SliceReturnsOnce(arch: Arch, code: Code, c: Cpu, dst: U64, src: U64, n: U64, sig: U64, steps: nat, end: Cpu)
    requires Placed(code) && Calls(arch, code, c, dst, src, n) && Run(arch, code, c, sig, steps) == Returned(end)
    ensures |end.regs| == Registers(arch)
    ensures SliceRight(c.mem, end.mem, dst, src, CountOf(arch, n), sig, SignalOf(arch, end))
  {
    var m, e := SliceReturns(arch, code, c, dst, src, n, sig);
    if m <= steps { ReturnedStays(arch, code, c, sig, m, steps); } else { ReturnedStays(arch, code, c, sig, steps, m); }
  }

  /** The end of one call: if it reports success, the buffer reads as the source did. */
  ghost predicate HonestEnd(arch: Arch, c: Cpu, end: Cpu, dst: U64, src: U64, n: U64) {
    |end.regs| == Registers(arch) && SliceResult(SignalOf(arch, end)).Success? ==>
      ReadBytes(c.mem, src, n).Some? && ReadBytes(end.mem, dst, n) == ReadBytes(c.mem, src, n)
  }

  /** Success can be trusted: on every memory, for every signal and every run that returns. */
  ghost predicate SuccessMeansCopied(arch: Arch, code: Code, dst: U64, src: U64, n: U64) {
    forall c: Cpu, sig: U64, steps: nat, end: Cpu
      | Calls(arch, code, c, dst, src, n) && sig != 0 && Run(arch, code, c, sig, steps) == Returned(end)
      :: HonestEnd(arch, c, end, dst, src, n)
  }

  // ---------------------------------------------------------- counterexamples

  function BitAt(at: U64, a: U64): Byte {
    if a == at then 1 else 0
  }

  /** A memory of zeros with one byte set. */
  ghost function OneSet(at: U64): (mem: Memory)
    ensures forall a: U64 :: a in mem && mem[a] == BitAt(at, a)
  {
    map a: U64 | BitAt(at, a) < 2 :: BitAt(at, a)
  }

  function Caller(arch: Arch, code: Code, dst: U64, src: U64, n: U64, mem: Memory): Cpu {
    Cpu(code.sliceAt,
        if arch == X86_64 then seq(23, i => if i == RDI then dst else if i == RSI then src else if i == RDX then n else 0)
        else seq(31, i => if i == 0 then dst else if i == 1 then src else if i == 2 then n else 0), mem)
  }

  lemma {:induction false} ForwardLeaves(mem: Memory, dst: U64, src: U64, k: nat, a: U64)
    requires a in mem && Outside(a, dst, k)
    ensures a in Forward(mem, dst, src, k) && Forward(mem, dst, src, k)[a] == mem[a]
    decreases k
  {
    if k > 0 && src in mem {
      OutsideRest(a, dst, k - 1);
      ForwardLeaves(mem[dst := mem[src]], Plus(dst, 1), Plus(src, 1), k - 1, a);
    }
  }

  lemma FirstByte(mem: Memory, dst: U64, src: U64, k: nat)
    requires 0 < k < SPACE && dst in mem && src in mem
    ensures dst in Forward(mem, dst, src, k) && Forward(mem, dst, src, k)[dst] == mem[src]
  {
    PlusZero(dst);
    AheadOutside(dst, 0, k - 1);
    ForwardLeaves(mem[dst := mem[src]], Plus(dst, 1), Plus(src, 1), k - 1, dst);
  }

  lemma ForwardRest(mem: Memory, dst: U64, src: U64, k: nat)
    requires 0 < k && src in mem
    ensures Forward(mem, dst, src, k) == Forward(mem[dst := mem[src]], Plus(dst, 1), Plus(src, 1), k - 1)
  {
  }

  /** The i-th byte is what the source held after `i` writes. */
  lemma {:induction false} ForwardByte(mem: Memory, dst: U64, src: U64, k: nat, i: nat)
    requires i < k < SPACE && Writable(mem, dst, k) && Readable(mem, src, k) == k
    ensures Plus(src, i) in Forward(mem, dst, src, i) && Plus(dst, i) in Forward(mem, dst, src, k)
    ensures Forward(mem, dst, src, k)[Plus(dst, i)] == Forward(mem, dst, src, i)[Plus(src, i)]
    decreases i
  {
    WritableRest(mem, dst, k, mem[src]);
    if i == 0 {
      FirstByte(mem, dst, src, k);
      PlusZero(dst);
      PlusZero(src);
    } else {
      var mid, to, from := mem[dst := mem[src]], Plus(dst, 1), Plus(src, 1);
      assert mid.Keys == mem.Keys;
      ReadableSame(mem, mid, from, k - 1);
      ForwardByte(mid, to, from, k - 1, i - 1);
      PlusPlus(dst, 1, i - 1);
      PlusPlus(src, 1, i - 1);
      ForwardRest(mem, dst, src, k);
      ForwardRest(mem, dst, src, i);
    }
  }

  lemma OneSetReadable(at: U64, a: U64, n: nat)
    ensures Writable(OneSet(at), a, n) && Readable(OneSet(at), a, n) == n && ReadBytes(OneSet(at), a, n).Some?
  {
    assert Writable(OneSet(at), a, n);
    WritableReads(OneSet(at), a, n);
  }

  /** One differing byte, after a copy that reports success, refutes the promise. */
  lemma Refuted(arch: Arch, code: Code, dst: U64, src: U64, n: U64, at: U64, i: nat)
    requires Placed(code) && i < n && CountOf(arch, n) <= n
    requires var end := Forward(OneSet(at), dst, src, CountOf(arch, n));
             Plus(dst, i) in end && end[Plus(dst, i)] != OneSet(at)[Plus(src, i)]
    ensures !SuccessMeansCopied(arch, code, dst, src, n)
  {
    var mem, k := OneSet(at), CountOf(arch, n);
    OneSetReadable(at, dst, n);
    OneSetReadable(at, src, n);
    OneSetReadable(at, src, k);
    var c := Caller(arch, code, dst, src, n, mem);
    var steps, end := SliceReturns(arch, code, c, dst, src, n, 1);
    assert end.mem == Forward(mem, dst, src, k);
    if HonestEnd(arch, c, end, dst, src, n) {
      BytesAt(end.mem, dst, n, i);
      BytesAt(mem, src, n, i);
      assert false;
    }
  }

  lemma EndOutside(dst: U64, k: U64)
    ensures Outside(Plus(dst, k), dst, k)
  {
  }

  /** The byte behind the truncated count is not copied. */
  lemma TruncatedRefutes(arch: Arch, code: Code, dst: U64, src: U64, n: U64)
    requires Placed(code) && CountOf(arch, n) < n && dst != src
    ensures !SuccessMeansCopied(arch, code, dst, src, n)
  {
    var k := CountOf(arch, n);
    var at, mem := Plus(src, k), OneSet(Plus(src, k));
    assert Plus(dst, k) != at;
    EndOutside(dst, k);
    ForwardLeaves(mem, dst, src, k, Plus(dst, k));
    Refuted(arch, code, dst, src, n, at, k);
  }

  /** A buffer `d` bytes into the source has its own first byte copied there again. */
  lemma ChasedByte(mem: Memory, dst: U64, src: U64, n: U64, d: nat)
    requires 0 < d < n && dst == Plus(src, d) && dst in mem && src in mem
    requires Writable(mem, dst, n) && Readable(mem, src, n) == n
    ensures Plus(dst, d) in Forward(mem, dst, src, n) && Forward(mem, dst, src, n)[Plus(dst, d)] == mem[src]
  {
    FirstByte(mem, dst, src, d);
    ForwardByte(mem, dst, src, n, d);
  }

  lemma OneSetChased(dst: U64, src: U64, n: U64, d: nat)
    requires 0 < d < n && dst == Plus(src, d)
    ensures var end := Forward(OneSet(src), dst, src, n); Plus(dst, d) in end && end[Plus(dst, d)] == 1
  {
    OneSetReadable(src, dst, n);
    OneSetReadable(src, src, n);
    ChasedByte(OneSet(src), dst, src, n, d);
  }

  lemma ChasedRefutes(arch: Arch, code: Code, dst: U64, src: U64, n: U64)
    requires Placed(code) && CountOf(arch, n) == n && Chased(dst, src, n)
    ensures !SuccessMeansCopied(arch, code, dst, src, n)
  {
    var d: nat :| 0 < d < n && dst == Plus(src, d);
    OneSetChased(dst, src, n, d);
    Refuted(arch, code, dst, src, n, src, d);
  }

  // ------------------------------------------------------ the exact condition

  lemma {:induction false} ForwardInPlace(mem: Memory, a: U64, k: nat)
    ensures Forward(mem, a, a, k) == mem
    decreases k
  {
    if k > 0 && a in mem {
      assert mem[a := mem[a]] == mem;
      ForwardInPlace(mem, Plus(a, 1), k - 1);
    }
  }

  lemma HonestEnds(arch: Arch, code: Code, c: Cpu, dst: U64, src: U64, n: U64, sig: U64, steps: nat, end: Cpu)
    requires Placed(code) && Calls(arch, code, c, dst, src, n) && sig != 0 && Run(arch, code, c, sig, steps) == Returned(end)
    requires dst == src || (CountOf(arch, n) == n && !Chased(dst, src, n))
    ensures HonestEnd(arch, c, end, dst, src, n)
  {
    SliceReturnsOnce(arch, code, c, dst, src, n, sig, steps, end);
    var k := CountOf(arch, n);
    if dst == src {
      ForwardInPlace(c.mem, dst, Readable(c.mem, src, k));
      WritableReads(c.mem, dst, n);
    } else if SliceResult(SignalOf(arch, end)).Success? {
      SuccessReadsAll(c.mem, end.mem, dst, src, k, sig, SignalOf(arch, end));
      ReadableIffBytes(c.mem, src, n);
      ForwardCopies(c.mem, dst, src, n);
      CopyReadsBack(c.mem, end.mem, dst, src, n);
    }
  }

  /**
   Success can be trusted exactly if nothing has to move, or if the count is not
   truncated and the buffer does not start inside the source.
   */
  lemma SuccessMeansCopiedIff(arch: Arch, code: Code, dst: U64, src: U64, n: U64)
    requires Placed(code)
    ensures SuccessMeansCopied(arch, code, dst, src, n)
       <==> dst == src || ((arch == X86_64 ==> n < 0x1_0000_0000) && !Chased(dst, src, n))
  {
    assert CountOf(arch, n) == n <==> (arch == X86_64 ==> n < 0x1_0000_0000);
    if dst == src || (CountOf(arch, n) == n && !Chased(dst, src, n)) {
      forall c: Cpu, sig: U64, steps: nat, end: Cpu
        | Calls(arch, code, c, dst, src, n) && sig != 0 && Run(arch, code, c, sig, steps) == Returned(end)
        ensures HonestEnd(arch, c, end, dst, src, n)
      {
        HonestEnds(arch, code, c, dst, src, n, sig, steps, end);
      }
    } else if CountOf(arch, n) < n {
      TruncatedRefutes(arch, code, dst, src, n);
    } else {
      ChasedRefutes(arch, code, dst, src, n);
    }
  }

  /**
   Where `str` and the converters of Python names take the copy as one step: on every memory
   the call returns the bytes at the source if they are readable and the signal otherwise,
   for a whole count and a buffer that does not start inside the source.
   */
  lemma CopyIsIdeal(arch: Arch, code: Code, c: Cpu, dst: U64, src: U64, n: U64, sig: U64, steps: nat, end: Cpu)
    requires Placed(code) && Calls(arch, code, c, dst, src, n) && sig != 0 && Run(arch, code, c, sig, steps) == Returned(end)
    requires CountOf(arch, n) == n && (dst == src || !Chased(dst, src, n))
    ensures |end.regs| == Registers(arch)
    ensures match ReadBytes(c.mem, src, n)
            case None => SliceResult(SignalOf(arch, end)) == Failure(sig)
            case Some(bytes) => SliceResult(SignalOf(arch, end)) == Success(()) && ReadBytes(end.mem, dst, n) == Some(bytes)
  {
    SliceReturnsOnce(arch, code, c, dst, src, n, sig, steps, end);
    SuccessReadsAll(c.mem, end.mem, dst, src, n, sig, SignalOf(arch, end));
    ReadableIffBytes(c.mem, src, n);
    HonestEnds(arch, code, c, dst, src, n, sig, steps, end);
  }
}
