/**
 The frame walk of kit/python_unwind over memory that may be unreadable anywhere.

 `Entries` is the chain itself, without depth limit; `Unwind` is the source's loop.
 The source says that it prevents infinite loops. It does not when it runs into a
 cycle of two or more frames that it skips, because those never advance the depth;
 `TerminatesIff` says that this is the only way.
 */
module Unwinding {
  import opened Wrappers
  import opened LittleEndian
  import opened SigRing

  const MAX_DEPTH: nat := 128
  const FRAME_SKIP_OWNER_MIN: nat := 3

  datatype Offsets = Offsets(currentFrame: U64, owner: U64, previous: U64, executable: U64, instrPtr: U64)

  /** Memory by its readable 8-byte words. */
  type Memory = map<U64, U64>

  function Address(base: U64, offset: U64): U64 {
    (base + offset) % 0x1_0000_0000_0000_0000
  }

  function Read(mem: Memory, base: U64, offset: U64): Option<U64> {
    var a := Address(base, offset);
    if a in mem then Some(mem[a]) else None
  }

  datatype Look = Stop | Skip | Take(frame: RawFrame)

  /** What the walk makes of one frame. */
  function LookAt(mem: Memory, off: Offsets, f: U64): Look {
    match Read(mem, f, off.owner)
    case None => Stop
    case Some(owner) =>
      if owner % 256 >= FRAME_SKIP_OWNER_MIN then Skip
      else
        var code, instr := Read(mem, f, off.executable), Read(mem, f, off.instrPtr);
        if code.None? || code.value == 0 || instr.None? then Stop
        else Take(RawFrame(code.value, instr.value))
  }

  // ---------------------------------------------------------------- the chain

  /** What the first `n` frames of the chain contribute; a self-link or an unreadable frame ends it. */
  function Entries(mem: Memory, off: Offsets, frame: U64, prev: U64, n: nat): seq<RawFrame>
    decreases n
  {
    if n == 0 || frame == 0 || frame == prev then []
    else
      var rest := match Read(mem, frame, off.previous)
        case None => []
        case Some(next) => Entries(mem, off, next, frame, n - 1);
      match LookAt(mem, off, frame)
      case Stop => []
      case Skip => rest
      case Take(entry) => [entry] + rest
  }

  function First(s: seq<RawFrame>, max: nat): seq<RawFrame> {
    if |s| <= max then s else s[..max]
  }

  /** `result` is the first `max` entries of the chain that starts at `frame`. */
  ghost predicate FirstOfChain(mem: Memory, off: Offsets, frame: U64, max: nat, result: seq<RawFrame>) {
    exists n: nat :: SettledAt(mem, off, frame, max, result, n)
  }

  ghost predicate SettledAt(mem: Memory, off: Offsets, frame: U64, max: nat, result: seq<RawFrame>, n: nat) {
    forall m: nat | m >= n :: First(Entries(mem, off, frame, 0, m), max) == result
  }

  /** There is only one such result. */
  lemma FirstOfChainUnique(mem: Memory, off: Offsets, frame: U64, max: nat, a: seq<RawFrame>, b: seq<RawFrame>)
    requires FirstOfChain(mem, off, frame, max, a) && FirstOfChain(mem, off, frame, max, b)
    ensures a == b
  {
    var n: nat :| SettledAt(mem, off, frame, max, a, n);
    var m: nat :| SettledAt(mem, off, frame, max, b, m);
    assert First(Entries(mem, off, frame, 0, n + m), max) == a;
  }

  // -------------------------------------------------------------- the machine

  /** The loop variables; `taken` is the depth. */
  datatype Walker = Walker(frame: U64, prev: U64, taken: nat)

  predicate Running(w: Walker, max: nat) {
    w.frame != 0 && w.frame != w.prev && w.taken < max
  }

  /** One turn of the loop; a break leaves nothing to walk. */
  function Turn(mem: Memory, off: Offsets, w: Walker): Walker {
    var next := match Read(mem, w.frame, off.previous)
      case None => 0
      case Some(g) => g;
    match LookAt(mem, off, w.frame)
    case Stop => w.(frame := 0)
    case Skip => Walker(next, w.frame, w.taken)
    case Take(_) => Walker(next, w.frame, w.taken + 1)
  }

  function After(mem: Memory, off: Offsets, w: Walker, max: nat, n: nat): Walker
    decreases n
  {
    if n == 0 || !Running(w, max) then w else After(mem, off, Turn(mem, off, w), max, n - 1)
  }

  ghost predicate Terminates(mem: Memory, off: Offsets, w: Walker, max: nat) {
    exists n: nat :: !Running(After(mem, off, w, max, n), max)
  }

  /** The frame after `n` skipped frames, if all of them link on to another frame. */
  function SkipRun(mem: Memory, off: Offsets, f: U64, n: nat): Option<U64>
    decreases n
  {
    if n == 0 then Some(f)
    else
      var next := Read(mem, f, off.previous);
      if LookAt(mem, off, f) == Skip && next.Some? && next.value != 0 && next.value != f
      then SkipRun(mem, off, next.value, n - 1) else None
  }

  ghost predicate OnSkipCycle(mem: Memory, off: Offsets, f: U64) {
    exists n: nat :: n > 0 && SkipRun(mem, off, f, n) == Some(f)
  }

  /** The walk gets, before it is done, to a frame on a cycle of skipped frames. */
  ghost predicate ReachesSkipCycle(mem: Memory, off: Offsets, w: Walker, max: nat) {
    exists n: nat ::
      var v := After(mem, off, w, max, n); Running(v, max) && OnSkipCycle(mem, off, v.frame)
  }

  // ------------------------------------------------------ stuck means forever

  lemma {:induction false} SkipRunSnoc(mem: Memory, off: Offsets, f: U64, n: nat)
    requires SkipRun(mem, off, f, n).Some?
    ensures SkipRun(mem, off, f, n + 1) == SkipRun(mem, off, SkipRun(mem, off, f, n).value, 1)
    decreases n
  {
    if n > 0 { SkipRunSnoc(mem, off, Read(mem, f, off.previous).value, n - 1); }
  }

  /** The next frame of a cycle is on the cycle too. */
  lemma CycleTurns(mem: Memory, off: Offsets, w: Walker, max: nat)
    requires Running(w, max) && OnSkipCycle(mem, off, w.frame)
    ensures Running(Turn(mem, off, w), max) && OnSkipCycle(mem, off, Turn(mem, off, w).frame)
  {
    var n: nat :| n > 0 && SkipRun(mem, off, w.frame, n) == Some(w.frame);
    var g := Read(mem, w.frame, off.previous).value;
    SkipRunSnoc(mem, off, w.frame, n);
    assert SkipRun(mem, off, w.frame, 1) == Some(g) by { assert SkipRun(mem, off, g, 0) == Some(g); }
    assert SkipRun(mem, off, w.frame, n + 1) == SkipRun(mem, off, g, n);
    assert SkipRun(mem, off, g, n) == Some(g);
  }

  lemma {:induction false} CycleForever(mem: Memory, off: Offsets, w: Walker, max: nat, n: nat)
    requires Running(w, max) && OnSkipCycle(mem, off, w.frame)
    ensures Running(After(mem, off, w, max, n), max)
    decreases n
  {
    if n > 0 {
      CycleTurns(mem, off, w, max);
      CycleForever(mem, off, Turn(mem, off, w), max, n - 1);
    }
  }

  lemma {:induction false} AfterPlus(mem: Memory, off: Offsets, w: Walker, max: nat, m: nat, n: nat)
    ensures After(mem, off, w, max, m + n) == After(mem, off, After(mem, off, w, max, m), max, n)
    decreases m
  {
    if m > 0 && Running(w, max) { AfterPlus(mem, off, Turn(mem, off, w), max, m - 1, n); }
  }

  /** Reaching a cycle of skipped frames means walking forever. */
  lemma SkipCycleNeverEnds(mem: Memory, off: Offsets, w: Walker, max: nat)
    requires ReachesSkipCycle(mem, off, w, max)
    ensures !Terminates(mem, off, w, max)
  {
    var m: nat :| var v := After(mem, off, w, max, m); Running(v, max) && OnSkipCycle(mem, off, v.frame);
    forall n: nat ensures Running(After(mem, off, w, max, n), max) {
      var v := After(mem, off, w, max, m);
      CycleForever(mem, off, v, max, n);
      AfterPlus(mem, off, w, max, m, n);
      AfterPlus(mem, off, w, max, n, m);
    }
  }

  // ------------------------------------------------- no cycle means it ends

  /** Owner words of frames, which must be readable for the walk to go on. */
  function OwnerWord(off: Offsets, f: U64): U64 {
    Address(f, off.owner)
  }

  /** The frames skipped since the last taken one, oldest first, ending just before `f`. */
  ghost predicate SkippedSoFar(mem: Memory, off: Offsets, run: seq<U64>, f: U64) {
    forall i | 0 <= i < |run| :: SkipRun(mem, off, run[i], |run| - i) == Some(f)
  }

  function OwnerWords(off: Offsets, run: seq<U64>): set<U64> {
    set i | 0 <= i < |run| :: OwnerWord(off, run[i])
  }

  lemma SkippedPush(mem: Memory, off: Offsets, run: seq<U64>, f: U64, g: U64)
    requires SkippedSoFar(mem, off, run, f)
    requires LookAt(mem, off, f) == Skip && Read(mem, f, off.previous) == Some(g) && g != 0 && g != f
    ensures SkippedSoFar(mem, off, run + [f], g)
  {
    assert SkipRun(mem, off, g, 0) == Some(g);
    assert SkipRun(mem, off, f, 1) == Some(g);
    forall i | 0 <= i < |run + [f]| ensures SkipRun(mem, off, (run + [f])[i], |run + [f]| - i) == Some(g) {
      if i < |run| { SkipRunSnoc(mem, off, run[i], |run| - i); }
    }
  }

  lemma AddressInjective(a: U64, b: U64, offset: U64)
    requires Address(a, offset) == Address(b, offset)
    ensures a == b
  {
  }

  /** A frame seen before in the run would close a cycle, so its owner word is new. */
  lemma FreshOwnerWord(mem: Memory, off: Offsets, run: seq<U64>, f: U64)
    requires SkippedSoFar(mem, off, run, f) && !OnSkipCycle(mem, off, f)
    ensures OwnerWord(off, f) !in OwnerWords(off, run)
  {
    forall i | 0 <= i < |run| ensures OwnerWord(off, f) != OwnerWord(off, run[i]) {
      assert SkipRun(mem, off, run[i], |run| - i) == Some(f);
      if OwnerWord(off, f) == OwnerWord(off, run[i]) {
        AddressInjective(f, run[i], off.owner);
        assert false;
      }
    }
  }

  lemma {:induction false} NoCycleEnds(mem: Memory, off: Offsets, w: Walker, max: nat, run: seq<U64>)
    requires !ReachesSkipCycle(mem, off, w, max)
    requires SkippedSoFar(mem, off, run, w.frame) && OwnerWords(off, run) <= mem.Keys
    ensures Terminates(mem, off, w, max)
    decreases if w.taken < max then max - w.taken else 0, mem.Keys - OwnerWords(off, run)
  {
    if !Running(w, max) {
      assert !Running(After(mem, off, w, max, 0), max);
    } else {
      assert After(mem, off, w, max, 0) == w;
      var v := Turn(mem, off, w);
      LaterReaches(mem, off, w, max);
      if !Running(v, max) {
        assert !Running(After(mem, off, v, max, 0), max);
      } else if LookAt(mem, off, w.frame) == Skip {
        FreshOwnerWord(mem, off, run, w.frame);
        SkippedPush(mem, off, run, w.frame, v.frame);
        OwnerWordsPush(off, run, w.frame);
        NoCycleEnds(mem, off, v, max, run + [w.frame]);
      } else {
        NoCycleEnds(mem, off, v, max, []);
      }
      var n: nat :| !Running(After(mem, off, v, max, n), max);
      assert After(mem, off, w, max, n + 1) == After(mem, off, v, max, n);
    }
  }

  lemma OwnerWordsPush(off: Offsets, run: seq<U64>, f: U64)
    ensures OwnerWords(off, run + [f]) == OwnerWords(off, run) + {OwnerWord(off, f)}
  {
    var longer := run + [f];
    assert longer[|run|] == f;
    forall i | 0 <= i < |run| ensures OwnerWord(off, run[i]) in OwnerWords(off, longer) {
      assert longer[i] == run[i];
    }
  }

  lemma LaterReaches(mem: Memory, off: Offsets, w: Walker, max: nat)
    requires Running(w, max) && !ReachesSkipCycle(mem, off, w, max)
    ensures !ReachesSkipCycle(mem, off, Turn(mem, off, w), max) && !OnSkipCycle(mem, off, w.frame)
  {
    var v := Turn(mem, off, w);
    assert After(mem, off, w, max, 0) == w;
    forall n: nat ensures var u := After(mem, off, v, max, n); !(Running(u, max) && OnSkipCycle(mem, off, u.frame)) {
      assert After(mem, off, w, max, n + 1) == After(mem, off, v, max, n);
    }
  }

  /** The loop ends exactly when it does not get to a cycle of skipped frames. */
  lemma TerminatesIff(mem: Memory, off: Offsets, w: Walker, max: nat)
    ensures Terminates(mem, off, w, max) <==> !ReachesSkipCycle(mem, off, w, max)
  {
    if ReachesSkipCycle(mem, off, w, max) {
      SkipCycleNeverEnds(mem, off, w, max);
    } else {
      NoCycleEnds(mem, off, w, max, []);
    }
  }

  /** Two interpreter-owned frames that point at each other. */
  lemma TwoSkippedFramesLoop()
    ensures var mem: Memory := map[100 := 1000, 1000 := 3, 1008 := 2000, 2000 := 3, 2008 := 1000];
            var off := Offsets(0, 0, 8, 16, 24);
            Read(mem, 100, off.currentFrame) == Some(1000)
            && !Terminates(mem, off, Walker(1000, 0, 0), MAX_DEPTH)
  {
    var mem: Memory := map[100 := 1000, 1000 := 3, 1008 := 2000, 2000 := 3, 2008 := 1000];
    var off := Offsets(0, 0, 8, 16, 24);
    assert LookAt(mem, off, 1000) == Skip && LookAt(mem, off, 2000) == Skip;
    assert SkipRun(mem, off, 2000, 1) == Some(1000) by { assert SkipRun(mem, off, 1000, 0) == Some(1000); }
    assert SkipRun(mem, off, 1000, 2) == Some(1000);
    assert After(mem, off, Walker(1000, 0, 0), MAX_DEPTH, 0).frame == 1000;
    SkipCycleNeverEnds(mem, off, Walker(1000, 0, 0), MAX_DEPTH);
  }

  // ------------------------------------------------------------------ the loop

  /** What one turn writes to the buffer. */
  function Entry(mem: Memory, off: Offsets, f: U64): seq<RawFrame> {
    match LookAt(mem, off, f)
    case Take(entry) => [entry]
    case _ => []
  }

  /** One turn of the loop, seen from the chain. */
  lemma EntriesTurn(mem: Memory, off: Offsets, w: Walker, max: nat, m: nat)
    requires Running(w, max)
    ensures Entries(mem, off, w.frame, w.prev, m + 1)
         == Entry(mem, off, w.frame) + Entries(mem, off, Turn(mem, off, w).frame, Turn(mem, off, w).prev, m)
  {
    var v := Turn(mem, off, w);
    assert [] + Entries(mem, off, v.frame, v.prev, m) == Entries(mem, off, v.frame, v.prev, m);
  }

  /** After `steps` turns, which wrote `taken`, the walker has the rest of the chain before it. */
  ghost predicate Follows(mem: Memory, off: Offsets, start: U64, steps: nat, taken: seq<RawFrame>, w: Walker) {
    forall m: nat :: FollowsFor(mem, off, start, steps, taken, w, m)
  }

  ghost predicate FollowsFor(mem: Memory, off: Offsets, start: U64, steps: nat, taken: seq<RawFrame>, w: Walker, m: nat) {
    Entries(mem, off, start, 0, steps + m) == taken + Entries(mem, off, w.frame, w.prev, m)
  }

  lemma FollowsTurn(mem: Memory, off: Offsets, start: U64, steps: nat, taken: seq<RawFrame>, w: Walker, max: nat)
    requires Running(w, max) && Follows(mem, off, start, steps, taken, w)
    ensures Follows(mem, off, start, steps + 1, taken + Entry(mem, off, w.frame), Turn(mem, off, w))
  {
    var later, longer, v := steps + 1, taken + Entry(mem, off, w.frame), Turn(mem, off, w);
    forall m: nat ensures FollowsFor(mem, off, start, later, longer, v, m) {
      assert FollowsFor(mem, off, start, steps, taken, w, m + 1);
      EntriesTurn(mem, off, w, max, m);
      assert steps + (m + 1) == later + m;
      var rest := Entries(mem, off, Turn(mem, off, w).frame, Turn(mem, off, w).prev, m);
      assert taken + (Entry(mem, off, w.frame) + rest) == taken + Entry(mem, off, w.frame) + rest;
    }
  }

  lemma FollowsEnds(mem: Memory, off: Offsets, start: U64, steps: nat, taken: seq<RawFrame>, w: Walker, max: nat)
    requires !Running(w, max) && Follows(mem, off, start, steps, taken, w) && w.taken == |taken| <= max
    ensures FirstOfChain(mem, off, start, max, taken)
  {
    forall m: nat | m >= steps ensures First(Entries(mem, off, start, 0, m), max) == taken {
      assert FollowsFor(mem, off, start, steps, taken, w, m - steps);
      assert steps + (m - steps) == m;
      if w.taken < max { assert Entries(mem, off, w.frame, w.prev, m - steps) == []; }
    }
    assert SettledAt(mem, off, start, max, taken, steps);
  }

  /** A skipped frame makes the set of unseen owner words smaller. */
  lemma SkipTurn(mem: Memory, off: Offsets, run: seq<U64>, f: U64)
    requires LookAt(mem, off, f) == Skip && !OnSkipCycle(mem, off, f)
    requires SkippedSoFar(mem, off, run, f) && OwnerWords(off, run) <= mem.Keys
    ensures OwnerWords(off, run + [f]) <= mem.Keys
    ensures mem.Keys - OwnerWords(off, run + [f]) < mem.Keys - OwnerWords(off, run)
    ensures var next := Read(mem, f, off.previous);
            next.Some? && next.value != 0 && next.value != f ==> SkippedSoFar(mem, off, run + [f], next.value)
  {
    FreshOwnerWord(mem, off, run, f);
    OwnerWordsPush(off, run, f);
    var next := Read(mem, f, off.previous);
    if next.Some? && next.value != 0 && next.value != f { SkippedPush(mem, off, run, f, next.value); }
    assert OwnerWord(off, f) in mem.Keys - OwnerWords(off, run);
  }

  function Min(a: nat, b: nat): nat {
    if a < b then a else b
  }

  /** `frames` is what the walk from this thread state collects with room for `room` entries. */
  ghost predicate Unwound(mem: Memory, tstate: U64, off: Offsets, room: nat, frames: seq<RawFrame>) {
    var first := Read(mem, tstate, off.currentFrame);
    if first.None? then frames == [] else FirstOfChain(mem, off, first.value, Min(room, 128), frames)
  }

  /**
   Collects the first min(buf.Length, 128) entries of the chain and leaves the rest of
   the buffer alone, whenever the walk can end at all.
   */
  method Unwind(mem: Memory, tstate: U64, off: Offsets, buf: array<RawFrame>) returns (depth: nat)
    requires var first := Read(mem, tstate, off.currentFrame);
             first.Some? ==> !ReachesSkipCycle(mem, off, Walker(first.value, 0, 0), Min(buf.Length, MAX_DEPTH))
    modifies buf
    ensures depth <= buf.Length && depth <= 128
    ensures buf[depth..] == old(buf[depth..])
    ensures Unwound(mem, tstate, off, buf.Length, buf[..depth])
  {
    var max := if buf.Length < MAX_DEPTH then buf.Length else MAX_DEPTH;
    depth := 0;
    var first := Read(mem, tstate, off.currentFrame);
    if first.None? {
      return;
    }
    var frame, prev: U64 := first.value, 0;
    ghost var w, steps, run := Walker(frame, prev, 0), 0, [];
    ghost var taken: seq<RawFrame> := [];
    while frame != 0 && frame != prev && depth < max
      invariant w == Walker(frame, prev, depth) && depth <= max && !ReachesSkipCycle(mem, off, w, max)
      invariant taken == buf[..depth] && Follows(mem, off, first.value, steps, taken, w)
      invariant frame != 0 && frame != prev ==> SkippedSoFar(mem, off, run, frame)
      invariant OwnerWords(off, run) <= mem.Keys
      invariant buf[depth..] == old(buf[depth..])
      decreases max - depth, frame != 0 && frame != prev, mem.Keys - OwnerWords(off, run)
    {
      LaterReaches(mem, off, w, max);
      FollowsTurn(mem, off, first.value, steps, taken, w, max);
      ghost var before := taken;
      w, steps, taken := Turn(mem, off, w), steps + 1, taken + Entry(mem, off, w.frame);
      var owner := Read(mem, frame, off.owner);
      if owner.None? {
        break;
      }
      if owner.value % 256 >= FRAME_SKIP_OWNER_MIN {
        SkipTurn(mem, off, run, frame);
        run := run + [frame];
        prev := frame;
        var next := Read(mem, frame, off.previous);
        if next.None? {
          break;
        }
        frame := next.value;
        continue;
      }
      var code := Read(mem, frame, off.executable);
      if code.None? || code.value == 0 {
        break;
      }
      var instr := Read(mem, frame, off.instrPtr);
      if instr.None? {
        break;
      }
      buf[depth] := RawFrame(code.value, instr.value);
      depth := depth + 1;
      assert buf[depth..] == old(buf[depth - 1..])[1..] == old(buf[depth..]);
      assert buf[..depth] == before + [RawFrame(code.value, instr.value)] == taken;
      run := [];
      prev := frame;
      var next := Read(mem, frame, off.previous);
      if next.None? {
        break;
      }
      frame := next.value;
    }
    assert taken == buf[..depth];
    FollowsEnds(mem, off, first.value, steps, taken, w, max);
  }

  // ------------------------------------------------------ a written chain

  /** A frame by its place and its words; None is a word that cannot be read. */
  datatype FrameWords = FrameWords(
    at: U64, owner: Option<U64>, executable: Option<U64>, instrPtr: Option<U64>, previous: Option<U64>)

  ghost predicate WordAt(mem: Memory, base: U64, offset: U64, word: Option<U64>) {
    var a := (base + offset) % 0x1_0000_0000_0000_0000;
    match word
    case None => a !in mem
    case Some(v) => a in mem && mem[a] == v
  }

  /** The memory holds the frame's words at the offsets. */
  ghost predicate FrameIn(mem: Memory, off: Offsets, f: FrameWords) {
    && WordAt(mem, f.at, off.owner, f.owner) && WordAt(mem, f.at, off.executable, f.executable)
    && WordAt(mem, f.at, off.instrPtr, f.instrPtr) && WordAt(mem, f.at, off.previous, f.previous)
  }

  /** Each frame links on to the next, another one; the last links to nothing or to itself. */
  ghost predicate Linked(frames: seq<FrameWords>) {
    frames != [] ==>
      && frames[0].at != 0
      && (if |frames| == 1 then frames[0].previous == None || frames[0].previous == Some(0) || frames[0].previous == Some(frames[0].at)
          else frames[0].previous == Some(frames[1].at) && frames[1].at != frames[0].at)
      && Linked(frames[1..])
  }

  /**
   The code object and instruction pointer of each frame owned by a thread, a generator or
   a frame object, up to the first frame that has no code object or a word that cannot be read.
   */
  function Collected(frames: seq<FrameWords>): seq<RawFrame> {
    if frames == [] || frames[0].owner == None then []
    else
      var owner := frames[0].owner.value % 256;
      if owner == 0 || owner == 1 || owner == 2 then
        if frames[0].executable == None || frames[0].executable == Some(0) || frames[0].instrPtr == None then []
        else [RawFrame(frames[0].executable.value, frames[0].instrPtr.value)] + Collected(frames[1..])
      else Collected(frames[1..])
  }

  ghost predicate FramesIn(mem: Memory, off: Offsets, frames: seq<FrameWords>) {
    forall i | 0 <= i < |frames| :: FrameIn(mem, off, frames[i])
  }

  function Start(frames: seq<FrameWords>): U64 {
    if frames == [] then 0 else frames[0].at
  }

  lemma ReadsWord(mem: Memory, base: U64, offset: U64, word: Option<U64>)
    requires WordAt(mem, base, offset, word)
    ensures Read(mem, base, offset) == word
  {
  }

  lemma LooksAt(mem: Memory, off: Offsets, f: FrameWords)
    requires FrameIn(mem, off, f)
    ensures Read(mem, f.at, off.previous) == f.previous
    ensures LookAt(mem, off, f.at) ==
      if f.owner == None then Stop
      else if f.owner.value % 256 > 2 then Skip
      else if f.executable == None || f.executable == Some(0) || f.instrPtr == None then Stop
      else Take(RawFrame(f.executable.value, f.instrPtr.value))
  {
    ReadsWord(mem, f.at, off.owner, f.owner);
    ReadsWord(mem, f.at, off.executable, f.executable);
    ReadsWord(mem, f.at, off.instrPtr, f.instrPtr);
    ReadsWord(mem, f.at, off.previous, f.previous);
  }

  /** The end of the chain: nothing, or a link of the last frame to itself. */
  lemma LastFrame(mem: Memory, off: Offsets, f: FrameWords, prev: U64, m: nat)
    requires FrameIn(mem, off, f) && Linked([f]) && prev != f.at && m > 0
    ensures Entries(mem, off, f.at, prev, m) == Collected([f])
  {
    LooksAt(mem, off, f);
    assert [f][1..] == [];
  }

  lemma {:induction false} EntriesCollect(mem: Memory, off: Offsets, frames: seq<FrameWords>, prev: U64, m: nat)
    requires FramesIn(mem, off, frames) && Linked(frames) && m >= |frames| && (frames != [] ==> prev != frames[0].at)
    ensures Entries(mem, off, Start(frames), prev, m) == Collected(frames)
  {
    if frames == [] {
    } else if |frames| == 1 {
      assert frames == [frames[0]];
      LastFrame(mem, off, frames[0], prev, m);
    } else {
      var rest := frames[1..];
      forall i | 0 <= i < |rest| ensures FrameIn(mem, off, rest[i]) { assert rest[i] == frames[i + 1]; }
      EntriesCollect(mem, off, rest, frames[0].at, m - 1);
      LooksAt(mem, off, frames[0]);
    }
  }

  /** A chain of frames that is in memory is collected exactly, up to the room there is. */
  lemma WrittenChainUnwinds(mem: Memory, tstate: U64, off: Offsets, chain: seq<FrameWords>, room: nat, frames: seq<RawFrame>)
    requires FramesIn(mem, off, chain) && Linked(chain) && WordAt(mem, tstate, off.currentFrame, Some(Start(chain)))
    ensures var max := if room < 128 then room else 128;
            Unwound(mem, tstate, off, room, frames) <==>
              frames == if |Collected(chain)| <= max then Collected(chain) else Collected(chain)[..max]
  {
    var max := Min(room, 128);
    ReadsWord(mem, tstate, off.currentFrame, Some(Start(chain)));
    var all := First(Collected(chain), max);
    forall m: nat | m >= |chain| ensures First(Entries(mem, off, Start(chain), 0, m), max) == all {
      EntriesCollect(mem, off, chain, 0, m);
    }
    assert SettledAt(mem, off, Start(chain), max, all, |chain|);
    if Unwound(mem, tstate, off, room, frames) { FirstOfChainUnique(mem, off, Start(chain), max, frames, all); }
  }
}
