/**
 Memory reads that survive unreadable memory: the instruction sequences of
 kit/kindasafe, run by a machine whose faults go to the crash handler of
 kit/kindasafe_init.

 Both architectures have to meet one specification: `WordRight` for reading a word
 and `SliceRight` for copying bytes.
 */
module Kindasafe {
  import opened Wrappers
  import opened LittleEndian
  import Utf8

  /** Memory by its readable bytes. */
  type Memory = map<U64, Byte>

  function Plus(a: U64, i: nat): U64 {
    (a + i) % 0x1_0000_0000_0000_0000
  }

  // ----------------------------------------------------------- specification

  function ReadBytes(mem: Memory, a: U64, n: nat): (r: Option<seq<Byte>>)
    ensures r.Some? ==> |r.value| == n
    decreases n
  {
    if n == 0 then Some([])
    else if a !in mem then None
    else
      var rest := ReadBytes(mem, Plus(a, 1), n - 1);
      if rest.Some? then Some([mem[a]] + rest.value) else None
  }

  function ReadWord(mem: Memory, a: U64): Option<U64> {
    var bytes := ReadBytes(mem, a, 8);
    if bytes.Some? then Some(U64At(bytes.value, 0)) else None
  }

  /** How many of the `n` bytes at `a` can be read before the first unreadable one. */
  function Readable(mem: Memory, a: U64, n: nat): (k: nat)
    ensures k <= n
    decreases n
  {
    if n == 0 || a !in mem then 0 else 1 + Readable(mem, Plus(a, 1), n - 1)
  }

  /** Copying `k` bytes one after the other, lowest first, each read after the writes before it. */
  function Forward(mem: Memory, dst: U64, src: U64, k: nat): Memory
    decreases k
  {
    if k == 0 || src !in mem then mem else Forward(mem[dst := mem[src]], Plus(dst, 1), Plus(src, 1), k - 1)
  }

  /**
   What a copy of `n` bytes leaves behind: the longest readable prefix is copied, and
   nothing else has changed.
   */
  ghost predicate SliceRight(before: Memory, after: Memory, dst: U64, src: U64, n: nat, fault: U64, signal: U64) {
    var k := Readable(before, src, n);
    after == Forward(before, dst, src, k) && signal == if k == n then 0 else fault
  }

  /** The caller's buffer can be written, and read. */
  ghost predicate Writable(mem: Memory, dst: U64, n: nat) {
    forall i: nat | i < n :: Plus(dst, i) in mem
  }

  // ------------------------------------------------------------ the hardware

  datatype Arch = X86_64 | Aarch64

  /** Where the two sequences are placed. */
  datatype Code = Code(u64At: nat, sliceAt: nat)

  /** The saved context of a thread: gregs on x86_64, regs on aarch64. */
  datatype Cpu = Cpu(pc: nat, regs: seq<U64>, mem: Memory)

  datatype Effect = Next(cpu: Cpu) | Return | Fault

  ghost predicate Placed(code: Code) {
    code.u64At + 28 <= code.sliceAt || code.sliceAt + 28 <= code.u64At
  }

  const RDI: nat := 8
  const RSI: nat := 9
  const RDX: nat := 12
  const RAX: nat := 13
  const RCX: nat := 14

  function Goto(c: Cpu, length: nat): Cpu {
    c.(pc := c.pc + length)
  }

  function Decremented(a: U64): U64 {
    if a == 0 then 0xFFFF_FFFF_FFFF_FFFF else a - 1
  }

  function Load(c: Cpu, to: nat, address: U64, length: nat): Effect
    requires to < |c.regs|
  {
    match ReadWord(c.mem, address)
    case None => Fault
    case Some(v) => Next(Goto(c, length).(regs := c.regs[to := v]))
  }

  /** One round of `rep movsb`, which stays where it is until the counter is zero. */
  function RepMovsb(c: Cpu): Effect
    requires |c.regs| == 23
  {
    var r := c.regs;
    if r[RCX] == 0 then Next(Goto(c, 2))
    else if r[RSI] !in c.mem || r[RDI] !in c.mem then Fault
    else Next(c.(mem := c.mem[r[RDI] := c.mem[r[RSI]]],
                 regs := r[RDI := Plus(r[RDI], 1)][RSI := Plus(r[RSI], 1)][RCX := r[RCX] - 1]))
  }

  function ExecuteX86(code: Code, c: Cpu): (e: Effect)
    requires |c.regs| == 23
    ensures e.Next? ==> |e.cpu.regs| == 23
  {
    var r := c.regs;
    if c.pc == code.u64At then Load(c, RAX, r[RDI], 3)
    else if c.pc == code.u64At + 3 then Next(Goto(c, 2).(regs := r[RDX := 0]))
    else if c.pc == code.u64At + 5 then Return
    else if c.pc == code.sliceAt then Next(Goto(c, 2).(regs := r[RCX := r[RDX] % 0x1_0000_0000]))
    else if c.pc == code.sliceAt + 2 then RepMovsb(c)
    else if c.pc == code.sliceAt + 4 then Next(Goto(c, 2).(regs := r[RAX := 0]))
    else if c.pc == code.sliceAt + 6 then Return
    else Fault
  }

  function ExecuteAarch64(code: Code, c: Cpu): (e: Effect)
    requires |c.regs| == 31
    ensures e.Next? ==> |e.cpu.regs| == 31
  {
    var r := c.regs;
    if c.pc == code.u64At then Load(c, 0, r[0], 4)
    else if c.pc == code.u64At + 4 then Next(Goto(c, 4).(regs := r[1 := 0]))
    else if c.pc == code.u64At + 8 then Return
    else if c.pc == code.sliceAt then Next(Goto(c, if r[2] == 0 then 20 else 4))
    else if c.pc == code.sliceAt + 4 then
      if r[1] !in c.mem then Fault else Next(Goto(c, 4).(regs := r[3 := c.mem[r[1]]][1 := Plus(r[1], 1)]))
    else if c.pc == code.sliceAt + 8 then
      if r[0] !in c.mem then Fault
      else Next(Goto(c, 4).(mem := c.mem[r[0] := r[3] % 256], regs := r[0 := Plus(r[0], 1)]))
    else if c.pc == code.sliceAt + 12 then
      Next(Goto(c, 4).(regs := r[2 := Decremented(r[2])]))
    else if c.pc == code.sliceAt + 16 then
      Next(if r[2] != 0 then c.(pc := code.sliceAt + 4) else Goto(c, 4))
    else if c.pc == code.sliceAt + 20 then Next(Goto(c, 4).(regs := r[0 := 0]))
    else if c.pc == code.sliceAt + 24 then Return
    else Fault
  }

  function Registers(arch: Arch): nat {
    if arch == X86_64 then 23 else 31
  }

  function Execute(arch: Arch, code: Code, c: Cpu): (e: Effect)
    requires |c.regs| == Registers(arch)
    ensures e.Next? ==> |e.cpu.regs| == Registers(arch)
  {
    if arch == X86_64 then ExecuteX86(code, c) else ExecuteAarch64(code, c)
  }

  // ------------------------------------------------------- the crash handler

  datatype CrashPoint = CrashPoint(pc: nat, signalReg: nat, skip: nat)

  function CrashPoints(arch: Arch, code: Code): seq<CrashPoint> {
    if arch == X86_64 then [CrashPoint(code.u64At, RDX, 5), CrashPoint(code.sliceAt + 2, RAX, 4)]
    else [CrashPoint(code.u64At, 1, 8), CrashPoint(code.sliceAt + 4, 0, 20)]
  }

  /** The context after the handler; None where it hands over to the previous handler. */
  function Resumed(points: seq<CrashPoint>, c: Cpu, sig: U64): (r: Option<Cpu>)
    requires forall i | 0 <= i < |points| :: points[i].signalReg < |c.regs|
    ensures r.Some? ==> |r.value.regs| == |c.regs|
  {
    if points == [] then None
    else if points[0].pc == c.pc then
      Some(c.(pc := c.pc + points[0].skip, regs := c.regs[points[0].signalReg := sig]))
    else Resumed(points[1..], c, sig)
  }

  /** The crash point of this address that comes first. */
  predicate FirstMatch(points: seq<CrashPoint>, pc: nat, i: nat) {
    i < |points| && points[i].pc == pc && forall j | 0 <= j < i :: points[j].pc != pc
  }

  /** The ucontext that the kernel passes to a signal handler. */
  class Context {
    var pc: nat
    var regs: seq<U64>

    constructor (pc: nat, regs: seq<U64>)
      ensures this.pc == pc && this.regs == regs
    {
      this.pc, this.regs := pc, regs;
    }

    /** Returns whether the fault was one of ours; if not, the context is left alone. */
    method CrashHandler(points: seq<CrashPoint>, sig: U64) returns (handled: bool)
      requires forall i | 0 <= i < |points| :: points[i].signalReg < |regs|
      modifies this
      ensures forall mem ::
        Resumed(points, Cpu(old(pc), old(regs), mem), sig) == (if handled then Some(Cpu(pc, regs, mem)) else None)
      ensures if handled
              then exists i :: 0 <= i < |points| && FirstMatch(points, old(pc), i)
                     && pc == old(pc) + points[i].skip && regs == old(regs)[points[i].signalReg := sig]
              else pc == old(pc) && regs == old(regs) && forall i | 0 <= i < |points| :: points[i].pc != pc
    {
      for i := 0 to |points|
        invariant pc == old(pc) && regs == old(regs)
        invariant forall j | 0 <= j < i :: points[j].pc != pc
        invariant forall mem :: Resumed(points, Cpu(pc, regs, mem), sig) == Resumed(points[i..], Cpu(pc, regs, mem), sig)
      {
        assert points[i..][1..] == points[i + 1..];
        if points[i].pc == pc {
          assert FirstMatch(points, pc, i);
          pc := pc + points[i].skip;
          regs := regs[points[i].signalReg := sig];
          return true;
        }
      }
      return false;
    }
  }

  // -------------------------------------------------------------------- runs

  datatype Outcome = Running(cpu: Cpu) | Returned(cpu: Cpu) | Crashed

  /** At most `n` instructions; a fault raises `sig` and runs the handler. */
  function Run(arch: Arch, code: Code, c: Cpu, sig: U64, n: nat): Outcome
    requires |c.regs| == Registers(arch)
    decreases n
  {
    if n == 0 then Running(c)
    else
      match Execute(arch, code, c)
      case Return => Returned(c)
      case Next(d) => Run(arch, code, d, sig, n - 1)
      case Fault =>
        match Resumed(CrashPoints(arch, code), c, sig)
        case None => Crashed
        case Some(d) => Run(arch, code, d, sig, n - 1)
  }

  /** More instructions do not change a run that has returned. */
  lemma {:induction false} ReturnedStays(arch: Arch, code: Code, c: Cpu, sig: U64, m: nat, n: nat)
    requires |c.regs| == Registers(arch) && m <= n && Run(arch, code, c, sig, m).Returned?
    ensures Run(arch, code, c, sig, n) == Run(arch, code, c, sig, m)
    decreases m
  {
    match Execute(arch, code, c)
    case Return =>
    case Next(d) => ReturnedStays(arch, code, d, sig, m - 1, n - 1);
    case Fault => ReturnedStays(arch, code, Resumed(CrashPoints(arch, code), c, sig).value, sig, m - 1, n - 1);
  }

  // ---------------------------------------------------------- reading a word

  /** The value, or the signal in place of the zero, and never both. */
  ghost predicate WordRight(mem: Memory, a: U64, fault: U64, value: U64, signal: U64) {
    match ReadWord(mem, a)
    case Some(v) => value == v && signal == 0
    case None => signal == fault
  }

  lemma X86Word(code: Code, c: Cpu, sig: U64)
    requires Placed(code) && |c.regs| == 23 && c.pc == code.u64At
    ensures var end := Run(X86_64, code, c, sig, 3);
            && end.Returned? && |end.cpu.regs| == 23 && end.cpu.mem == c.mem
            && WordRight(c.mem, c.regs[RDI], sig, end.cpu.regs[RAX], end.cpu.regs[RDX])
  {
    if ReadWord(c.mem, c.regs[RDI]).Some? {
      var d := ExecuteX86(code, c).cpu;
      var e := ExecuteX86(code, d).cpu;
      assert Run(X86_64, code, e, sig, 1) == Returned(e);
      assert Run(X86_64, code, d, sig, 2) == Returned(e);
    } else {
      var d := Resumed(CrashPoints(X86_64, code), c, sig).value;
      assert Run(X86_64, code, d, sig, 2) == Returned(d);
    }
  }

  lemma Aarch64Word(code: Code, c: Cpu, sig: U64)
    requires Placed(code) && |c.regs| == 31 && c.pc == code.u64At
    ensures var end := Run(Aarch64, code, c, sig, 3);
            && end.Returned? && |end.cpu.regs| == 31 && end.cpu.mem == c.mem
            && WordRight(c.mem, c.regs[0], sig, end.cpu.regs[0], end.cpu.regs[1])
  {
    if ReadWord(c.mem, c.regs[0]).Some? {
      var d := ExecuteAarch64(code, c).cpu;
      var e := ExecuteAarch64(code, d).cpu;
      assert Run(Aarch64, code, e, sig, 1) == Returned(e);
      assert Run(Aarch64, code, d, sig, 2) == Returned(e);
    } else {
      var d := Resumed(CrashPoints(Aarch64, code), c, sig).value;
      assert Run(Aarch64, code, d, sig, 2) == Returned(d);
    }
  }

  // ----------------------------------------------------------- copying bytes

  lemma PlusZero(a: U64)
    ensures Plus(a, 0) == a
  {
  }

  lemma PlusPlus(a: U64, i: nat, j: nat)
    ensures Plus(Plus(a, i), j) == Plus(a, i + j)
  {
  }

  /** All the bytes before the count can be read and the one after cannot: no longer prefix is readable. */
  lemma {:induction false} ReadableIsLongest(mem: Memory, a: U64, n: nat)
    ensures forall i: nat | i < Readable(mem, a, n) :: Plus(a, i) in mem
    ensures Readable(mem, a, n) < n ==> Plus(a, Readable(mem, a, n)) !in mem
    decreases n
  {
    if n > 0 && a in mem {
      var b := Plus(a, 1);
      ReadableIsLongest(mem, b, n - 1);
      forall i: nat | i < Readable(mem, a, n) ensures Plus(a, i) in mem {
        if i > 0 { PlusPlus(a, 1, i - 1); assert Plus(b, i - 1) in mem; }
      }
      PlusPlus(a, 1, Readable(mem, b, n - 1));
    }
  }

  /** Only which bytes are readable matters. */
  lemma {:induction false} ReadableSame(m: Memory, m': Memory, a: U64, n: nat)
    requires m.Keys == m'.Keys
    ensures Readable(m, a, n) == Readable(m', a, n)
    decreases n
  {
    assert a in m <==> a in m.Keys;
    assert a in m' <==> a in m'.Keys;
    if n > 0 && a in m { ReadableSame(m, m', Plus(a, 1), n - 1); }
  }

  lemma WritableRest(mem: Memory, dst: U64, n: nat, v: Byte)
    requires Writable(mem, dst, n) && n > 0
    ensures dst in mem && Writable(mem[dst := v], Plus(dst, 1), n - 1)
  {
    PlusZero(dst);
    assert Plus(dst, 0) in mem;
    forall i: nat | i < n - 1 ensures Plus(Plus(dst, 1), i) in mem[dst := v] {
      PlusPlus(dst, 1, i);
      assert Plus(dst, 1 + i) in mem;
    }
  }

  /** One byte and then a copy of the rest are a copy of all. */
  lemma SliceOneMore(before: Memory, mid: Memory, after: Memory, dst: U64, src: U64, n: nat,
                     dst1: U64, src1: U64, n1: nat, fault: U64, signal: U64)
    requires n == n1 + 1 && dst in before && src in before
    requires mid == before[dst := before[src]] && dst1 == Plus(dst, 1) && src1 == Plus(src, 1)
    requires SliceRight(mid, after, dst1, src1, n1, fault, signal)
    ensures SliceRight(before, after, dst, src, n, fault, signal)
  {
    assert mid.Keys == before.Keys;
    ReadableSame(before, mid, src1, n1);
  }

  /** Nothing but the memory and the working registers has changed. */
  ghost predicate OthersKept(c: Cpu, d: Cpu, changed: set<nat>) {
    |c.regs| == |d.regs| && forall r: nat | r < |c.regs| && r !in changed :: d.regs[r] == c.regs[r]
  }

  /** The three ways on from `rep movsb`: done, one more byte, a fault. */
  lemma X86Done(code: Code, c: Cpu, sig: U64)
    requires Placed(code) && |c.regs| == 23 && c.pc == code.sliceAt + 2 && c.regs[RCX] == 0
    ensures Run(X86_64, code, c, sig, 3) == Returned(Goto(c, 4).(regs := c.regs[RAX := 0]))
  {
    var d := Goto(c, 2);
    var end := Goto(d, 2).(regs := d.regs[RAX := 0]);
    assert Run(X86_64, code, end, sig, 1) == Returned(end);
    assert Run(X86_64, code, d, sig, 2) == Returned(end);
  }

  lemma X86Round(code: Code, c: Cpu, sig: U64, more: nat)
    requires Placed(code) && |c.regs| == 23 && c.pc == code.sliceAt + 2 && RepMovsb(c).Next? && c.regs[RCX] > 0
    ensures Run(X86_64, code, c, sig, more + 1) == Run(X86_64, code, RepMovsb(c).cpu, sig, more)
  {
  }

  lemma X86Faults(code: Code, c: Cpu, sig: U64)
    requires Placed(code) && |c.regs| == 23 && c.pc == code.sliceAt + 2 && RepMovsb(c).Fault?
    ensures Run(X86_64, code, c, sig, 2) == Returned(Goto(c, 4).(regs := c.regs[RAX := sig]))
  {
    var end := Goto(c, 4).(regs := c.regs[RAX := sig]);
    var points := CrashPoints(X86_64, code);
    assert Resumed(points[1..], c, sig) == Some(end);
    assert Resumed(points, c, sig) == Some(end);
    assert Run(X86_64, code, end, sig, 1) == Returned(end);
  }

  lemma {:induction false} X86Copy(code: Code, c: Cpu, sig: U64) returns (steps: nat, end: Cpu)
    requires Placed(code) && |c.regs| == 23 && c.pc == code.sliceAt + 2
    requires Writable(c.mem, c.regs[RDI], c.regs[RCX])
    ensures Run(X86_64, code, c, sig, steps) == Returned(end) && OthersKept(c, end, {RAX, RCX, RDI, RSI})
    ensures SliceRight(c.mem, end.mem, c.regs[RDI], c.regs[RSI], c.regs[RCX], sig, end.regs[RAX])
    decreases c.regs[RCX]
  {
    var dst, src, n := c.regs[RDI], c.regs[RSI], c.regs[RCX];
    if n == 0 {
      X86Done(code, c, sig);
      steps, end := 3, Goto(c, 4).(regs := c.regs[RAX := 0]);
    } else {
      PlusZero(dst);
      assert Plus(dst, 0) in c.mem;
      if src in c.mem {
        var d := RepMovsb(c).cpu;
        WritableRest(c.mem, dst, n, c.mem[src]);
        var more;
        more, end := X86Copy(code, d, sig);
        steps := more + 1;
        X86Round(code, c, sig, more);
        SliceOneMore(c.mem, d.mem, end.mem, dst, src, n, d.regs[RDI], d.regs[RSI], d.regs[RCX], sig, end.regs[RAX]);
      } else {
        X86Faults(code, c, sig);
        steps, end := 2, Goto(c, 4).(regs := c.regs[RAX := sig]);
      }
    }
  }

  /** The sequence copies `n` modulo 2^32 bytes, because its first instruction truncates the count. */
  lemma X86Slice(code: Code, c: Cpu, sig: U64) returns (steps: nat, end: Cpu)
    requires Placed(code) && |c.regs| == 23 && c.pc == code.sliceAt
    requires Writable(c.mem, c.regs[RDI], c.regs[RDX])
    ensures Run(X86_64, code, c, sig, steps) == Returned(end) && OthersKept(c, end, {RAX, RCX, RDI, RSI})
    ensures SliceRight(c.mem, end.mem, c.regs[RDI], c.regs[RSI], c.regs[RDX] % 0x1_0000_0000, sig, end.regs[RAX])
  {
    var d := ExecuteX86(code, c).cpu;
    steps, end := X86Copy(code, d, sig);
    steps := steps + 1;
  }

  /** The state after ldrb, strb and subs, before the branch. */
  function AfterRound(code: Code, c: Cpu): (d: Cpu)
    requires |c.regs| == 31 && c.regs[1] in c.mem && c.regs[2] > 0
    ensures |d.regs| == 31
  {
    var v, r := c.mem[c.regs[1]], c.regs;
    Cpu(code.sliceAt + 16,
        r[3 := v][1 := Plus(r[1], 1)][0 := Plus(r[0], 1)][2 := r[2] - 1], c.mem[r[0] := v])
  }

  lemma RoundThen(code: Code, c: Cpu, sig: U64, more: nat)
    requires Placed(code) && |c.regs| == 31 && c.pc == code.sliceAt + 4 && c.regs[2] > 0
    requires c.regs[1] in c.mem && c.regs[0] in c.mem
    ensures Run(Aarch64, code, c, sig, more + 3) == Run(Aarch64, code, AfterRound(code, c), sig, more)
  {
    var loaded := ExecuteAarch64(code, c).cpu;
    var stored := ExecuteAarch64(code, loaded).cpu;
    assert ExecuteAarch64(code, stored) == Next(AfterRound(code, c));
    assert Run(Aarch64, code, stored, sig, more + 1) == Run(Aarch64, code, AfterRound(code, c), sig, more);
    assert Run(Aarch64, code, loaded, sig, more + 2) == Run(Aarch64, code, stored, sig, more + 1);
  }

  /** The three ways on from the end of a round, or from a fault at its start. */
  lemma Aarch64Done(code: Code, c: Cpu, sig: U64)
    requires Placed(code) && |c.regs| == 31 && c.pc == code.sliceAt + 16 && c.regs[2] == 0
    ensures Run(Aarch64, code, c, sig, 3) == Returned(Goto(c, 8).(regs := c.regs[0 := 0]))
  {
    var d := Goto(c, 4);
    var end := Goto(d, 4).(regs := d.regs[0 := 0]);
    assert Run(Aarch64, code, end, sig, 1) == Returned(end);
    assert Run(Aarch64, code, d, sig, 2) == Returned(end);
  }

  lemma Aarch64Again(code: Code, c: Cpu, sig: U64, more: nat)
    requires Placed(code) && |c.regs| == 31 && c.pc == code.sliceAt + 16 && c.regs[2] != 0
    ensures Run(Aarch64, code, c, sig, more + 1) == Run(Aarch64, code, c.(pc := code.sliceAt + 4), sig, more)
  {
  }

  lemma Aarch64Faults(code: Code, c: Cpu, sig: U64)
    requires Placed(code) && |c.regs| == 31 && c.pc == code.sliceAt + 4 && c.regs[1] !in c.mem
    ensures Run(Aarch64, code, c, sig, 2) == Returned(Goto(c, 20).(regs := c.regs[0 := sig]))
  {
    var end := Goto(c, 20).(regs := c.regs[0 := sig]);
    var points := CrashPoints(Aarch64, code);
    assert Resumed(points[1..], c, sig) == Some(end);
    assert Resumed(points, c, sig) == Some(end);
    assert Run(Aarch64, code, end, sig, 1) == Returned(end);
  }

  /** What a copy from the start of the loop has to do. */
  ghost predicate Aarch64Copies(code: Code, c: Cpu, sig: U64, steps: nat, end: Cpu)
    requires |c.regs| == 31
  {
    && Run(Aarch64, code, c, sig, steps) == Returned(end) && OthersKept(c, end, {0, 1, 2, 3})
    && SliceRight(c.mem, end.mem, c.regs[0], c.regs[1], c.regs[2], sig, end.regs[0])
  }

  lemma {:induction false} Aarch64Copy(code: Code, c: Cpu, sig: U64) returns (steps: nat, end: Cpu)
    requires Placed(code) && |c.regs| == 31 && c.pc == code.sliceAt + 4 && c.regs[2] > 0
    requires Writable(c.mem, c.regs[0], c.regs[2])
    ensures Aarch64Copies(code, c, sig, steps, end)
    decreases c.regs[2], 1
  {
    var dst, src := c.regs[0], c.regs[1];
    PlusZero(dst);
    assert Plus(dst, 0) in c.mem;
    if src in c.mem {
      var more, d := 0, AfterRound(code, c);
      more, end := Aarch64Rest(code, c, d, sig);
      steps := more + 3;
      RoundThen(code, c, sig, more);
      SliceOneMore(c.mem, d.mem, end.mem, dst, src, c.regs[2], d.regs[0], d.regs[1], d.regs[2], sig, end.regs[0]);
    } else {
      Aarch64Faults(code, c, sig);
      steps, end := 2, Goto(c, 20).(regs := c.regs[0 := sig]);
    }
  }

  /** After a round, the copy of the rest. */
  lemma {:induction false} Aarch64Rest(code: Code, c: Cpu, d: Cpu, sig: U64) returns (steps: nat, end: Cpu)
    requires Placed(code) && |c.regs| == 31 && c.pc == code.sliceAt + 4 && c.regs[2] > 0
    requires Writable(c.mem, c.regs[0], c.regs[2]) && c.regs[1] in c.mem && d == AfterRound(code, c)
    ensures Run(Aarch64, code, d, sig, steps) == Returned(end) && OthersKept(c, end, {0, 1, 2, 3})
    ensures SliceRight(d.mem, end.mem, d.regs[0], d.regs[1], d.regs[2], sig, end.regs[0])
    decreases c.regs[2], 0
  {
    if d.regs[2] == 0 {
      Aarch64Done(code, d, sig);
      steps, end := 3, Goto(d, 8).(regs := d.regs[0 := 0]);
    } else {
      WritableRest(c.mem, c.regs[0], c.regs[2], c.mem[c.regs[1]]);
      var e := d.(pc := code.sliceAt + 4);
      steps, end := Aarch64Copy(code, e, sig);
      Aarch64Again(code, d, sig, steps);
      steps := steps + 1;
    }
  }

  lemma Aarch64Slice(code: Code, c: Cpu, sig: U64) returns (steps: nat, end: Cpu)
    requires Placed(code) && |c.regs| == 31 && c.pc == code.sliceAt
    requires Writable(c.mem, c.regs[0], c.regs[2])
    ensures Run(Aarch64, code, c, sig, steps) == Returned(end) && OthersKept(c, end, {0, 1, 2, 3})
    ensures SliceRight(c.mem, end.mem, c.regs[0], c.regs[1], c.regs[2], sig, end.regs[0])
  {
    var d := ExecuteAarch64(code, c).cpu;
    if c.regs[2] == 0 {
      end := ExecuteAarch64(code, d).cpu;
      assert Run(Aarch64, code, end, sig, 1) == Returned(end);
      assert Run(Aarch64, code, d, sig, 2) == Returned(end);
      steps := 3;
    } else {
      steps, end := Aarch64Copy(code, d, sig);
      steps := steps + 1;
    }
  }

  // ----------------------------------------------- what the callers make of it

  /** `u64` of the crate: the two result registers as a result. */
  function WordResult(value: U64, signal: U64): Result<U64, U64> {
    if signal == 0 then Success(value) else Failure(signal)
  }

  function SliceResult(signal: U64): Result<(), U64> {
    if signal == 0 then Success(()) else Failure(signal)
  }

  /** Reading a word gives the word exactly if all its bytes can be read, and otherwise the signal. */
  lemma WordResultRight(mem: Memory, a: U64, fault: U64, value: U64, signal: U64)
    requires WordRight(mem, a, fault, value, signal) && fault != 0
    ensures WordResult(value, signal) ==
      match ReadWord(mem, a) { case Some(v) => Success(v) case None => Failure(fault) }
  {
  }

  lemma {:induction false} ReadableIffBytes(mem: Memory, a: U64, n: nat)
    ensures ReadBytes(mem, a, n).Some? <==> Readable(mem, a, n) == n
    decreases n
  {
    if n > 0 && a in mem { ReadableIffBytes(mem, Plus(a, 1), n - 1); }
  }

  lemma SuccessReadsAll(before: Memory, after: Memory, dst: U64, src: U64, n: nat, fault: U64, signal: U64)
    requires SliceRight(before, after, dst, src, n, fault, signal) && fault != 0
    ensures SliceResult(signal) == if Readable(before, src, n) == n then Success(()) else Failure(fault)
  {
  }

  // ------------------------------------------------------------------ strings

  /** The index of the first NUL, or the length if there is none. */
  function FirstNul(s: seq<Byte>): (i: nat)
    ensures i <= |s| && (i < |s| ==> s[i] == 0) && forall j | 0 <= j < i :: s[j] != 0
  {
    if s == [] || s[0] == 0 then 0 else 1 + FirstNul(s[1..])
  }

  const NOT_UTF8: U64 := 228
  const NO_NUL: U64 := 229

  /**
   Reads a NUL-terminated string. Every byte of the buffer has to be readable, also
   those after the NUL.
   */
  method Str(mem: Memory, buf: array<Byte>, at: U64, fault: U64) returns (r: Result<seq<Byte>, U64>)
    modifies buf
    ensures at == 0 ==> r == Success([])
    ensures at != 0 ==>
      match ReadBytes(mem, at, buf.Length) {
        case None => r == Failure(fault)
        case Some(bytes) =>
          var n := FirstNul(bytes);
          r == (if n == |bytes| then Failure(NO_NUL)
                else if Utf8.Valid(bytes[..n]) then Success(bytes[..n]) else Failure(NOT_UTF8))
      }
  {
    if at == 0 {
      return Success([]);
    }
    var read := ReadBytes(mem, at, buf.Length);
    if read.None? {
      return Failure(fault);
    }
    var bytes := read.value;
    forall i | 0 <= i < buf.Length {
      buf[i] := bytes[i];
    }
    assert buf[..] == bytes;
    for i := 0 to buf.Length
      invariant forall j | 0 <= j < i :: buf[j] != 0
      invariant buf[..] == bytes
    {
      if buf[i] == 0 {
        var v := buf[..i];
        assert v == bytes[..i] && FirstNul(bytes) == i;
        return if Utf8.Valid(v) then Success(v) else Failure(NOT_UTF8);
      }
    }
    return Failure(NO_NUL);
  }
}
