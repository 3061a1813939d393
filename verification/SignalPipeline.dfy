/**
 The signal handler and the reader thread of kit/pysignalprof as interleaved steps.

 Handlers run on any number of threads. Each tries three shard locks, unwinds into
 the buffer of the shard it got, and commits a record to that shard's queue. One
 reader locks the shards in turn, drains their queues into the profile builder, and
 from time to time sends the profile. `Run` takes the steps in any order.

 `History` is never read by a step. It says where each record went.
 */
module SignalPipeline {
  import opened Wrappers
  import opened LittleEndian
  import opened SigRing
  import opened ProfileFormat
  import opened PprofBuilder

  const MAX_DEPTH: nat := 128

  datatype Owner = Free | Handler(tid: U32) | Reader

  datatype HandlerPc =
    | Trying(attempt: nat)
    | Holding(shard: nat)
    | Unwound(shard: nat, depth: nat)
    | Written(shard: nat)

  datatype ReaderPc = Locking(next: nat) | Draining(shard: nat) | Flushing

  /** A committed sample: the thread and the stack its handler unwound. */
  datatype Record = Record(tid: U32, stack: seq<RawFrame>)

  /** A sample the reader took, with the shard it came from. */
  datatype Taken = Taken(shard: nat, record: Record)

  /** Everything that went into one sent profile, and the names in force. */
  datatype Window = Window(taken: seq<Taken>, names: map<U64, string>, profile: Profile)

  datatype History = History(
    unwound: map<U32, seq<RawFrame>>,
    committed: seq<seq<Record>>,
    open: seq<Taken>,
    sent: seq<Window>)

  datatype State = State(
    locks: seq<Owner>,
    buffers: seq<seq<RawFrame>>,
    queues: seq<seq<seq<Byte>>>,
    handlers: map<U32, HandlerPc>,
    reader: ReaderPc,
    builder: Builder,
    names: map<U64, string>,
    history: History)

  function Repeat<T>(n: nat, x: T): (r: seq<T>)
    ensures |r| == n && forall i | 0 <= i < n :: r[i] == x
  {
    if n == 0 then [] else Repeat(n - 1, x) + [x]
  }

  function Init(n: nat): State {
    State(Repeat(n, Free), Repeat(n, Repeat(MAX_DEPTH, RawFrame(0, 0))), Repeat(n, []), map[], Locking(0),
          New(0, 15_000_000_000, 10_000_000), map[], History(map[], Repeat(n, []), [], []))
  }

  // ------------------------------------------------------------------- steps

  datatype Event =
    | Enter(tid: U32)
    | TryLock(tid: U32)
    | Unwind(tid: U32, stack: seq<RawFrame>)
    | Write(tid: U32, granted: bool)
    | Release(tid: U32)
    | ReaderLock
    | ReaderDrain(resolve: int -> string)
    | ReaderUnlock
    | ReaderFlush(due: bool, now: int)

  predicate PcShaped(n: nat, pc: HandlerPc) {
    (pc.Trying? && pc.attempt < 3)
    || ((pc.Holding? || pc.Unwound? || pc.Written?) && pc.shard < n && (pc.Unwound? ==> pc.depth <= MAX_DEPTH))
  }

  /** All sequences have one entry per shard and all program counters point at shards. */
  ghost predicate Shaped(n: nat, s: State) {
    && |s.locks| == |s.buffers| == |s.queues| == |s.history.committed| == n > 0
    && (forall k | 0 <= k < n :: |s.buffers[k]| == MAX_DEPTH)
    && (forall tid | tid in s.handlers :: PcShaped(n, s.handlers[tid]))
    && (s.reader.Locking? ==> s.reader.next < n)
    && (s.reader.Draining? ==> s.reader.shard < n)
  }

  function Exit(s: State, tid: U32): State {
    s.(handlers := s.handlers - {tid}, history := s.history.(unwound := s.history.unwound - {tid}))
  }

  /** Dropping the guard at the end of the handler. */
  function ExitAndUnlock(s: State, tid: U32, k: nat): State
    requires k < |s.locks|
  {
    Exit(s.(locks := s.locks[k := Free]), tid)
  }

  /** The shard of an attempt. */
  function ShardOf(n: nat, tid: U32, attempt: nat): (k: nat)
    requires n > 0
    ensures k < n
  {
    (tid % n + attempt) % n
  }

  /** One of the three try_lock attempts, on the shard picked by the thread id. */
  function TryLockStep(n: nat, s: State, tid: U32, attempt: nat): State
    requires |s.locks| == n > 0
  {
    var k := ShardOf(n, tid, attempt);
    if s.locks[k] == Free then
      s.(locks := s.locks[k := Handler(tid)], handlers := s.handlers[tid := Holding(k)])
    else if attempt + 1 < 3 then s.(handlers := s.handlers[tid := Trying(attempt + 1)])
    else Exit(s, tid)
  }

  /** Unwinding overwrites the front of the shard's buffer; an empty stack is dropped. */
  function UnwindStep(s: State, tid: U32, k: nat, stack: seq<RawFrame>): State
    requires k < |s.locks| && k < |s.buffers| && |stack| <= |s.buffers[k]|
  {
    var filled := s.(buffers := s.buffers[k := stack + s.buffers[k][|stack|..]]);
    if stack == [] then ExitAndUnlock(filled, tid, k)
    else filled.(handlers := s.handlers[tid := Unwound(k, |stack|)],
                 history := s.history.(unwound := s.history.unwound[tid := stack]))
  }

  function WriteStep(s: State, tid: U32, k: nat, depth: nat, granted: bool): State
    requires k < |s.queues| && k < |s.buffers| && k < |s.history.committed| && depth <= |s.buffers[k]|
  {
    var done := s.(handlers := s.handlers[tid := Written(k)]);
    if !granted then done
    else
      var stack := if tid in s.history.unwound then s.history.unwound[tid] else [];
      done.(queues := s.queues[k := s.queues[k] + [RecordBytes(tid, s.buffers[k][..depth])]],
            history := s.history.(committed := s.history.committed[k := s.history.committed[k] + [Record(tid, stack)]]))
  }

  /** The symbol cache after looking up every frame of a stack. */
  function LookUp(names: map<U64, string>, stack: seq<RawFrame>, resolve: int -> string): map<U64, string> {
    if stack == [] then names
    else
      var before := LookUp(names, stack[..|stack| - 1], resolve);
      var code := stack[|stack| - 1].codeObject;
      if code in before then before else before[code := resolve(code)]
  }

  function NameFrames(names: map<U64, string>, stack: seq<RawFrame>): seq<StackFrame> {
    if stack == [] then []
    else
      var code := stack[|stack| - 1].codeObject;
      NameFrames(names, stack[..|stack| - 1]) + [StackFrame(if code in names then names[code] else "", "", 0)]
  }

  function DrainStep(s: State, k: nat, resolve: int -> string): State
    requires k < |s.queues| && s.queues[k] != []
  {
    var rest := s.(queues := s.queues[k := s.queues[k][1..]]);
    match ParseRecord(s.queues[k][0])
    case None => rest
    case Some(record) =>
      var stack := Frames(record);
      var names := LookUp(s.names, stack, resolve);
      match AddSample(s.builder, NameFrames(names, stack), 1)
      case None => rest
      case Some(builder) =>
        rest.(names := names, builder := builder,
              history := s.history.(open := s.history.open + [Taken(k, Record(record.tid, stack))]))
  }

  /** flush_pprof and the clearing of the symbol cache. */
  function FlushStep(s: State, now: int): State {
    var (builder, profile) := Flush(s.builder, now);
    var cleared := s.(builder := builder, names := map[]);
    if profile.None? then cleared
    else cleared.(history := s.history.(open := [], sent := s.history.sent + [Window(s.history.open, s.names, profile.value)]))
  }

  /** An event that is not enabled changes nothing. */
  function Step(n: nat, s: State, e: Event): State
    requires Shaped(n, s)
  {
    match e
    case Enter(tid) =>
      if tid in s.handlers then s else s.(handlers := s.handlers[tid := Trying(0)])
    case TryLock(tid) =>
      if tid in s.handlers && s.handlers[tid].Trying? then TryLockStep(n, s, tid, s.handlers[tid].attempt) else s
    case Unwind(tid, stack) =>
      if tid in s.handlers && s.handlers[tid].Holding? && |stack| <= MAX_DEPTH
      then UnwindStep(s, tid, s.handlers[tid].shard, stack) else s
    case Write(tid, granted) =>
      if tid in s.handlers && s.handlers[tid].Unwound?
      then WriteStep(s, tid, s.handlers[tid].shard, s.handlers[tid].depth, granted) else s
    case Release(tid) =>
      if tid in s.handlers && s.handlers[tid].Written? then ExitAndUnlock(s, tid, s.handlers[tid].shard) else s
    case ReaderLock =>
      if s.reader.Locking? && s.locks[s.reader.next] == Free
      then s.(locks := s.locks[s.reader.next := Reader], reader := Draining(s.reader.next)) else s
    case ReaderDrain(resolve) =>
      if s.reader.Draining? && s.queues[s.reader.shard] != [] then DrainStep(s, s.reader.shard, resolve) else s
    case ReaderUnlock =>
      if s.reader.Draining? && s.queues[s.reader.shard] == [] then
        var k := s.reader.shard;
        s.(locks := s.locks[k := Free], reader := if k + 1 < n then Locking(k + 1) else Flushing)
      else s
    case ReaderFlush(due, now) =>
      if s.reader.Flushing? then
        var t := s.(reader := Locking(0));
        if due then FlushStep(t, now) else t
      else s
  }

  // -------------------------------------------------------------- invariants

  predicate Holds(pc: HandlerPc, k: nat) {
    (pc.Holding? || pc.Unwound? || pc.Written?) && pc.shard == k
  }

  /** The lock of a shard names exactly the one that is inside. */
  ghost predicate LocksRight(n: nat, s: State)
    requires Shaped(n, s)
  {
    && (forall tid, k | tid in s.handlers && 0 <= k < n && Holds(s.handlers[tid], k) :: s.locks[k] == Handler(tid))
    && (forall k | 0 <= k < n && s.locks[k].Handler? ::
          s.locks[k].tid in s.handlers && Holds(s.handlers[s.locks[k].tid], k))
    && (forall k | 0 <= k < n :: s.locks[k] == Reader <==> s.reader == Draining(k))
  }

  /** Between unwinding and writing the shard's buffer starts with the handler's own stack. */
  ghost predicate BuffersRight(n: nat, s: State)
    requires Shaped(n, s)
  {
    forall tid | tid in s.handlers && s.handlers[tid].Unwound? ::
      var pc := s.handlers[tid];
      && tid in s.history.unwound && s.history.unwound[tid] == s.buffers[pc.shard][..pc.depth]
      && 0 < pc.depth
  }

  /** The records taken from one shard, oldest first. */
  function TakenFrom(taken: seq<Taken>, k: nat): seq<Record> {
    if taken == [] then []
    else
      var last := taken[|taken| - 1];
      TakenFrom(taken[..|taken| - 1], k) + if last.shard == k then [last.record] else []
  }

  /** Everything the reader ever took, oldest first. */
  function AllTaken(sent: seq<Window>): seq<Taken> {
    if sent == [] then [] else AllTaken(sent[..|sent| - 1]) + sent[|sent| - 1].taken
  }

  function Drained(h: History): seq<Taken> {
    AllTaken(h.sent) + h.open
  }

  function QueueBytes(records: seq<Record>): seq<seq<Byte>> {
    if records == [] then []
    else [RecordBytes(records[0].tid, records[0].stack)] + QueueBytes(records[1..])
  }

  /** The queue holds, in order, what was committed and not yet taken. */
  ghost predicate QueueRight(s: State, k: nat)
    requires k < |s.queues| && k < |s.history.committed|
  {
    var all, taken := s.history.committed[k], TakenFrom(Drained(s.history), k);
    taken <= all && s.queues[k] == QueueBytes(all[|taken|..])
  }

  ghost predicate QueuesRight(n: nat, s: State)
    requires Shaped(n, s)
  {
    && (forall k | 0 <= k < n :: QueueRight(s, k))
    && (forall k, i | 0 <= k < n && 0 <= i < |s.history.committed[k]| ::
          0 < |s.history.committed[k][i].stack| <= MAX_DEPTH)
  }

  /** What the builder should have been told about the taken samples. */
  function LogOf(taken: seq<Taken>, names: map<U64, string>): seq<Added> {
    if taken == [] then []
    else
      LogOf(taken[..|taken| - 1], names) + [Added(NameFrames(names, taken[|taken| - 1].record.stack), 1)]
  }

  ghost predicate Named(stack: seq<RawFrame>, names: map<U64, string>) {
    forall i | 0 <= i < |stack| :: stack[i].codeObject in names
  }

  ghost predicate BuilderRight(s: State) {
    && Consistent(s.builder) && [""] <= s.builder.strings && s.builder.period == 10_000_000
    && Represents(Tables(s.builder), LogOf(s.history.open, s.names))
    && (forall i | 0 <= i < |s.history.open| :: Named(s.history.open[i].record.stack, s.names))
  }

  ghost predicate WindowRight(w: Window) {
    && Faithful(w.profile, LogOf(w.taken, w.names)) && w.profile.period == 10_000_000
    && (forall i | 0 <= i < |w.taken| :: Named(w.taken[i].record.stack, w.names))
  }

  ghost predicate SentRight(s: State) {
    forall i | 0 <= i < |s.history.sent| :: WindowRight(s.history.sent[i])
  }

  ghost predicate Inv(n: nat, s: State) {
    && Shaped(n, s)
    && LocksRight(n, s) && BuffersRight(n, s) && QueuesRight(n, s)
    && BuilderRight(s) && SentRight(s)
  }

  // ---------------------------------------------------------- locks, buffers

  predicate OfReader(e: Event) {
    e.ReaderLock? || e.ReaderDrain? || e.ReaderUnlock? || e.ReaderFlush?
  }

  lemma HandlerKeepsShape(n: nat, s: State, e: Event)
    requires Shaped(n, s) && !OfReader(e)
    ensures Shaped(n, Step(n, s, e))
  {
  }

  lemma ReaderKeepsShape(n: nat, s: State, e: Event)
    requires Shaped(n, s) && OfReader(e)
    ensures Shaped(n, Step(n, s, e))
  {
  }

  lemma ShapedKept(n: nat, s: State, e: Event)
    requires Shaped(n, s)
    ensures Shaped(n, Step(n, s, e))
  {
    if OfReader(e) { ReaderKeepsShape(n, s, e); } else { HandlerKeepsShape(n, s, e); }
  }

  lemma TryLockKeepsLocks(n: nat, s: State, tid: U32)
    requires Shaped(n, s) && LocksRight(n, s)
    requires tid in s.handlers && s.handlers[tid].Trying?
    ensures Shaped(n, Step(n, s, TryLock(tid))) && LocksRight(n, Step(n, s, TryLock(tid)))
  {
    ShapedKept(n, s, TryLock(tid));
  }

  lemma LeaveKeepsLocks(n: nat, s: State, tid: U32, k: nat)
    requires Shaped(n, s) && LocksRight(n, s) && k < n
    requires tid in s.handlers && Holds(s.handlers[tid], k)
    ensures Shaped(n, ExitAndUnlock(s, tid, k)) && LocksRight(n, ExitAndUnlock(s, tid, k))
  {
    assert s.locks[k] == Handler(tid);
  }

  /** A handler that goes on to another point inside the same shard. */
  lemma StayKeepsLocks(n: nat, s: State, t: State, tid: U32, k: nat)
    requires Shaped(n, s) && LocksRight(n, s) && Shaped(n, t)
    requires tid in s.handlers && Holds(s.handlers[tid], k)
    requires t.locks == s.locks && t.reader == s.reader
    requires tid in t.handlers && t.handlers == s.handlers[tid := t.handlers[tid]] && Holds(t.handlers[tid], k)
    ensures LocksRight(n, t)
  {
  }

  lemma LocksKept(n: nat, s: State, e: Event)
    requires Shaped(n, s) && LocksRight(n, s)
    ensures Shaped(n, Step(n, s, e)) && LocksRight(n, Step(n, s, e))
  {
    ShapedKept(n, s, e);
    var t := Step(n, s, e);
    match e
    case Enter(tid) =>
    case TryLock(tid) =>
      if tid in s.handlers && s.handlers[tid].Trying? { TryLockKeepsLocks(n, s, tid); }
    case Unwind(tid, stack) =>
      if tid in s.handlers && s.handlers[tid].Holding? && |stack| <= MAX_DEPTH {
        var k := s.handlers[tid].shard;
        if stack == [] {
          var filled := s.(buffers := s.buffers[k := stack + s.buffers[k][|stack|..]]);
          LeaveKeepsLocks(n, filled, tid, k);
        } else {
          StayKeepsLocks(n, s, t, tid, k);
        }
      }
    case Write(tid, granted) =>
      if tid in s.handlers && s.handlers[tid].Unwound? {
        StayKeepsLocks(n, s, t, tid, s.handlers[tid].shard);
      }
    case Release(tid) =>
      if tid in s.handlers && s.handlers[tid].Written? { LeaveKeepsLocks(n, s, tid, s.handlers[tid].shard); }
    case _ => ReaderKeepsLocks(n, s, e);
  }

  lemma ReaderKeepsLocks(n: nat, s: State, e: Event)
    requires Shaped(n, s) && LocksRight(n, s) && Shaped(n, Step(n, s, e)) && OfReader(e)
    ensures LocksRight(n, Step(n, s, e))
  {
    match e
    case ReaderLock => ReaderLockKeepsLocks(n, s);
    case ReaderUnlock => ReaderUnlockKeepsLocks(n, s);
    case _ => ReaderInsideKeepsLocks(n, s, e);
  }

  lemma ReaderLockKeepsLocks(n: nat, s: State)
    requires Shaped(n, s) && LocksRight(n, s) && Shaped(n, Step(n, s, ReaderLock))
    ensures LocksRight(n, Step(n, s, ReaderLock))
  {
  }

  lemma ReaderUnlockKeepsLocks(n: nat, s: State)
    requires Shaped(n, s) && LocksRight(n, s) && Shaped(n, Step(n, s, ReaderUnlock))
    ensures LocksRight(n, Step(n, s, ReaderUnlock))
  {
  }

  lemma ReaderInsideKeepsLocks(n: nat, s: State, e: Event)
    requires Shaped(n, s) && LocksRight(n, s) && Shaped(n, Step(n, s, e)) && (e.ReaderDrain? || e.ReaderFlush?)
    ensures LocksRight(n, Step(n, s, e))
  {
    var t := Step(n, s, e);
    assert t.handlers == s.handlers && t.locks == s.locks;
  }

  lemma OthersKeepBuffers(n: nat, s: State, e: Event)
    requires Shaped(n, s) && BuffersRight(n, s) && Shaped(n, Step(n, s, e)) && !e.Unwind?
    ensures BuffersRight(n, Step(n, s, e))
  {
  }

  lemma BuffersKept(n: nat, s: State, e: Event)
    requires Shaped(n, s) && LocksRight(n, s) && BuffersRight(n, s)
    ensures Shaped(n, Step(n, s, e)) && BuffersRight(n, Step(n, s, e))
  {
    ShapedKept(n, s, e);
    if !e.Unwind? { OthersKeepBuffers(n, s, e); }
    if e.Unwind? && e.tid in s.handlers && s.handlers[e.tid].Holding? && |e.stack| <= MAX_DEPTH {
      UnwindKeepsBuffers(n, s, e.tid, s.handlers[e.tid].shard, e.stack);
    }
  }

  lemma UnwindKeepsBuffers(n: nat, s: State, tid: U32, k: nat, stack: seq<RawFrame>)
    requires Shaped(n, s) && LocksRight(n, s) && BuffersRight(n, s)
    requires tid in s.handlers && s.handlers[tid] == Holding(k) && |stack| <= MAX_DEPTH && k < n
    requires Shaped(n, UnwindStep(s, tid, k, stack))
    ensures BuffersRight(n, UnwindStep(s, tid, k, stack))
  {
    var t := UnwindStep(s, tid, k, stack);
    forall u | u in t.handlers && t.handlers[u].Unwound?
      ensures var pc := t.handlers[u];
        u in t.history.unwound && t.history.unwound[u] == t.buffers[pc.shard][..pc.depth] && 0 < pc.depth
    {
      if u != tid {
        assert u in s.handlers && s.handlers[u] == t.handlers[u];
        assert Holds(s.handlers[u], s.handlers[u].shard) && Holds(s.handlers[tid], k);
        assert PcShaped(n, s.handlers[u]) && s.locks[s.handlers[u].shard] == Handler(u) && s.locks[k] == Handler(tid);
        assert t.buffers[s.handlers[u].shard] == s.buffers[s.handlers[u].shard];
      } else {
        var filled := stack + s.buffers[k][|stack|..];
        assert filled[..|stack|] == stack;
        assert t.buffers[k] == filled;
      }
    }
  }

  // ------------------------------------------------------------------ queues

  lemma {:induction false} QueueBytesPush(records: seq<Record>, r: Record)
    ensures QueueBytes(records + [r]) == QueueBytes(records) + [RecordBytes(r.tid, r.stack)]
  {
    if records != [] {
      QueueBytesPush(records[1..], r);
      assert (records + [r])[1..] == records[1..] + [r];
    }
  }

  lemma TakenFromPush(taken: seq<Taken>, t: Taken, k: nat)
    ensures TakenFrom(taken + [t], k) == TakenFrom(taken, k) + if t.shard == k then [t.record] else []
  {
    assert (taken + [t])[..|taken|] == taken;
  }

  /** One queue gets one more record at its end. */
  lemma CommitKeepsQueue(s: State, t: State, k: nat, tid: U32, stack: seq<RawFrame>)
    requires k < |s.queues| == |t.queues| && k < |s.history.committed| == |t.history.committed| && QueueRight(s, k)
    requires t.history.sent == s.history.sent && t.history.open == s.history.open
    requires t.history.committed[k] == s.history.committed[k] + [Record(tid, stack)]
    requires t.queues[k] == s.queues[k] + [RecordBytes(tid, stack)]
    ensures QueueRight(t, k)
  {
    var all, taken := s.history.committed[k], TakenFrom(Drained(s.history), k);
    QueueBytesPush(all[|taken|..], Record(tid, stack));
    assert t.history.committed[k][|taken|..] == all[|taken|..] + [Record(tid, stack)];
  }

  /** Nothing that a queue's meaning depends on has changed. */
  lemma SameQueue(s: State, t: State, k: nat)
    requires k < |s.queues| == |t.queues| && k < |s.history.committed| == |t.history.committed| && QueueRight(s, k)
    requires t.queues[k] == s.queues[k] && t.history.committed[k] == s.history.committed[k]
    requires TakenFrom(Drained(t.history), k) == TakenFrom(Drained(s.history), k)
    ensures QueueRight(t, k)
  {
  }

  lemma WriteKeepsQueues(n: nat, s: State, tid: U32)
    requires Shaped(n, s) && BuffersRight(n, s) && QueuesRight(n, s)
    requires tid in s.handlers && s.handlers[tid].Unwound?
    requires Shaped(n, Step(n, s, Write(tid, true)))
    ensures QueuesRight(n, Step(n, s, Write(tid, true)))
  {
    var pc, t := s.handlers[tid], Step(n, s, Write(tid, true));
    var stack := s.history.unwound[tid];
    assert stack == s.buffers[pc.shard][..pc.depth];
    forall k | 0 <= k < n ensures QueueRight(t, k) {
      assert QueueRight(s, k);
      if k == pc.shard {
        CommitKeepsQueue(s, t, k, tid, stack);
      } else {
        SameQueue(s, t, k);
      }
    }
    forall k, i | 0 <= k < n && 0 <= i < |t.history.committed[k]|
      ensures 0 < |t.history.committed[k][i].stack| <= MAX_DEPTH
    {
      if i < |s.history.committed[k]| {
        assert t.history.committed[k][i] == s.history.committed[k][i];
      }
    }
  }

  /** The head of a queue is the oldest record that was committed and not taken. */
  lemma HeadOfQueue(n: nat, s: State, k: nat)
    requires Shaped(n, s) && QueuesRight(n, s) && k < n && s.queues[k] != []
    ensures var all, m := s.history.committed[k], |TakenFrom(Drained(s.history), k)|;
            && m < |all| && 0 < |all[m].stack| <= MAX_DEPTH
            && s.queues[k] == [RecordBytes(all[m].tid, all[m].stack)] + QueueBytes(all[m + 1..])
  {
    assert QueueRight(s, k);
    var all, m := s.history.committed[k], |TakenFrom(Drained(s.history), k)|;
    assert all[m..][1..] == all[m + 1..];
  }

  /** What the drain step takes is that record. */
  lemma DrainTakesHead(n: nat, s: State, k: nat, resolve: int -> string)
    requires Shaped(n, s) && QueuesRight(n, s) && BuilderRight(s) && k < n && s.queues[k] != []
    requires |TakenFrom(Drained(s.history), k)| < |s.history.committed[k]|
    ensures var r := s.history.committed[k][|TakenFrom(Drained(s.history), k)|];
            var names := LookUp(s.names, r.stack, resolve);
            var b := AddSample(s.builder, NameFrames(names, r.stack), 1);
            && b.Some?
            && DrainStep(s, k, resolve) == s.(queues := s.queues[k := s.queues[k][1..]], names := names, builder := b.value,
                 history := s.history.(open := s.history.open + [Taken(k, r)]))
  {
    HeadOfQueue(n, s, k);
    var r := s.history.committed[k][|TakenFrom(Drained(s.history), k)|];
    ParseWritten(r.tid, r.stack);
    var names := LookUp(s.names, r.stack, resolve);
    AddSampleCorrect(s.builder, LogOf(s.history.open, s.names), NameFrames(names, r.stack), 1);
  }

  lemma DrainKeepsQueues(n: nat, s: State, k: nat, r: Record, t: State)
    requires Shaped(n, s) && Shaped(n, t) && QueuesRight(n, s) && k < n && s.queues[k] != []
    requires |TakenFrom(Drained(s.history), k)| < |s.history.committed[k]|
    requires r == s.history.committed[k][|TakenFrom(Drained(s.history), k)|]
    requires t.queues == s.queues[k := s.queues[k][1..]]
    requires t.history == s.history.(open := s.history.open + [Taken(k, r)])
    ensures QueuesRight(n, t)
  {
    HeadOfQueue(n, s, k);
    assert Drained(t.history) == Drained(s.history) + [Taken(k, r)];
    forall j | 0 <= j < n ensures QueueRight(t, j) {
      assert QueueRight(s, j);
      TakenFromPush(Drained(s.history), Taken(k, r), j);
      if j == k {
        DrainKeepsQueue(s, t, k, r);
      } else {
        SameQueue(s, t, j);
      }
    }
  }

  lemma DrainKeepsQueue(s: State, t: State, k: nat, r: Record)
    requires k < |s.queues| == |t.queues| && k < |s.history.committed| && QueueRight(s, k) && s.queues[k] != []
    requires t.history.committed == s.history.committed
    requires var all, taken := s.history.committed[k], TakenFrom(Drained(s.history), k);
             && |taken| < |all| && r == all[|taken|]
             && TakenFrom(Drained(t.history), k) == taken + [r]
    requires t.queues[k] == s.queues[k][1..]
    ensures QueueRight(t, k)
  {
    var all, taken := s.history.committed[k], TakenFrom(Drained(s.history), k);
    assert all[|taken|..][1..] == all[|taken| + 1..];
    assert taken + [r] <= all;
  }

  lemma DrainStepKeepsQueues(n: nat, s: State, k: nat, resolve: int -> string)
    requires Shaped(n, s) && QueuesRight(n, s) && BuilderRight(s) && k < n && s.queues[k] != []
    requires Shaped(n, DrainStep(s, k, resolve))
    ensures QueuesRight(n, DrainStep(s, k, resolve))
  {
    HeadOfQueue(n, s, k);
    DrainTakesHead(n, s, k, resolve);
    DrainKeepsQueues(n, s, k, s.history.committed[k][|TakenFrom(Drained(s.history), k)|], DrainStep(s, k, resolve));
  }

  lemma SameQueues(n: nat, s: State, t: State)
    requires Shaped(n, s) && QueuesRight(n, s) && Shaped(n, t)
    requires t.queues == s.queues && t.history.committed == s.history.committed
    requires Drained(t.history) == Drained(s.history)
    ensures QueuesRight(n, t)
  {
    forall k | 0 <= k < n ensures QueueRight(t, k) {
      assert QueueRight(s, k);
      SameQueue(s, t, k);
    }
  }

  lemma FlushStepKeepsQueues(n: nat, s: State, now: int)
    requires Shaped(n, s) && QueuesRight(n, s) && Shaped(n, FlushStep(s, now))
    ensures QueuesRight(n, FlushStep(s, now))
  {
    FlushKeepsDrained(s, now);
    SameQueues(n, s, FlushStep(s, now));
  }

  lemma QueuesKept(n: nat, s: State, e: Event)
    requires Shaped(n, s) && BuffersRight(n, s) && QueuesRight(n, s) && BuilderRight(s)
    ensures Shaped(n, Step(n, s, e)) && QueuesRight(n, Step(n, s, e))
  {
    ShapedKept(n, s, e);
    if e.Write? && e.granted && e.tid in s.handlers && s.handlers[e.tid].Unwound? {
      WriteKeepsQueues(n, s, e.tid);
    } else if e.ReaderDrain? && s.reader.Draining? && s.queues[s.reader.shard] != [] {
      DrainStepKeepsQueues(n, s, s.reader.shard, e.resolve);
    } else if e.ReaderFlush? && s.reader.Flushing? && e.due {
      SameQueues(n, s, s.(reader := Locking(0)));
      FlushStepKeepsQueues(n, s.(reader := Locking(0)), e.now);
    } else {
      OthersKeepQueues(n, s, e);
    }
  }

  lemma OthersKeepQueues(n: nat, s: State, e: Event)
    requires Shaped(n, s) && QueuesRight(n, s) && Shaped(n, Step(n, s, e))
    requires !(e.Write? && e.granted && e.tid in s.handlers && s.handlers[e.tid].Unwound?)
    requires !(e.ReaderDrain? && s.reader.Draining? && s.queues[s.reader.shard] != [])
    requires !(e.ReaderFlush? && s.reader.Flushing? && e.due)
    ensures QueuesRight(n, Step(n, s, e))
  {
    var t := Step(n, s, e);
    assert t.queues == s.queues && t.history.committed == s.history.committed;
    assert t.history.open == s.history.open && t.history.sent == s.history.sent;
    SameQueues(n, s, t);
  }

  /** Closing a window moves its records and loses none. */
  lemma FlushKeepsDrained(s: State, now: int)
    ensures Drained(FlushStep(s, now).history) == Drained(s.history)
    ensures FlushStep(s, now).queues == s.queues && FlushStep(s, now).history.committed == s.history.committed
  {
    var h, h' := s.history, FlushStep(s, now).history;
    if h'.sent != h.sent {
      assert h'.sent[..|h'.sent| - 1] == h.sent;
    }
  }

  // ----------------------------------------------------------------- builder

  lemma {:induction false} LookUpCorrect(names: map<U64, string>, stack: seq<RawFrame>, resolve: int -> string)
    ensures var after := LookUp(names, stack, resolve);
            && Named(stack, after)
            && (forall code | code in names :: code in after && after[code] == names[code])
            && (forall code | code in after && code !in names :: after[code] == resolve(code))
  {
    if stack != [] { LookUpCorrect(names, stack[..|stack| - 1], resolve); }
  }

  lemma {:induction false} NameFramesStable(names: map<U64, string>, more: map<U64, string>, stack: seq<RawFrame>)
    requires Named(stack, names) && forall code | code in names :: code in more && more[code] == names[code]
    ensures NameFrames(more, stack) == NameFrames(names, stack)
  {
    if stack != [] { NameFramesStable(names, more, stack[..|stack| - 1]); }
  }

  /** New names do not rename the samples already taken. */
  lemma {:induction false} LogStable(names: map<U64, string>, more: map<U64, string>, taken: seq<Taken>)
    requires forall i | 0 <= i < |taken| :: Named(taken[i].record.stack, names)
    requires forall code | code in names :: code in more && more[code] == names[code]
    ensures LogOf(taken, more) == LogOf(taken, names)
  {
    if taken != [] {
      var n := |taken| - 1;
      forall i | 0 <= i < n ensures Named(taken[..n][i].record.stack, names) {
        assert taken[..n][i] == taken[i];
      }
      LogStable(names, more, taken[..n]);
      NameFramesStable(names, more, taken[n].record.stack);
    }
  }

  lemma LogOfPush(taken: seq<Taken>, t: Taken, names: map<U64, string>)
    ensures LogOf(taken + [t], names) == LogOf(taken, names) + [Added(NameFrames(names, t.record.stack), 1)]
  {
    assert (taken + [t])[..|taken|] == taken;
  }

  lemma DrainKeepsBuilder(s: State, k: nat, r: Record, resolve: int -> string, t: State)
    requires BuilderRight(s)
    requires t.names == LookUp(s.names, r.stack, resolve)
    requires AddSample(s.builder, NameFrames(t.names, r.stack), 1) == Some(t.builder)
    requires t.history.open == s.history.open + [Taken(k, r)]
    ensures BuilderRight(t)
  {
    LookUpCorrect(s.names, r.stack, resolve);
    LogStable(s.names, t.names, s.history.open);
    LogOfPush(s.history.open, Taken(k, r), t.names);
    AddSampleCorrect(s.builder, LogOf(s.history.open, s.names), NameFrames(t.names, r.stack), 1);
    forall i | 0 <= i < |t.history.open| ensures Named(t.history.open[i].record.stack, t.names) {
      if i < |s.history.open| { assert Named(s.history.open[i].record.stack, s.names); }
    }
  }

  lemma {:induction false} LogOfLength(taken: seq<Taken>, names: map<U64, string>)
    ensures |LogOf(taken, names)| == |taken|
  {
    if taken != [] { LogOfLength(taken[..|taken| - 1], names); }
  }

  lemma FlushKeepsBuilder(s: State, now: int)
    requires BuilderRight(s) && SentRight(s)
    ensures BuilderRight(FlushStep(s, now)) && SentRight(FlushStep(s, now))
  {
    var log := LogOf(s.history.open, s.names);
    LogOfLength(s.history.open, s.names);
    EmptyTogether(Tables(s.builder), log);
    if s.builder.samples != [] { FlushSends(s, now, Encode(s.builder).1, FlushStep(s, now)); }
  }

  lemma EncodedWindow(s: State)
    requires BuilderRight(s)
    ensures WindowRight(Window(s.history.open, s.names, Encode(s.builder).1))
  {
    EncodeCorrect(s.builder, LogOf(s.history.open, s.names));
  }

  lemma FreshBuilder(t: State, now: int)
    requires t.builder == New(now, 15_000_000_000, 10_000_000) && t.history.open == []
    ensures BuilderRight(t)
  {
    NewCorrect(now, 15_000_000_000, 10_000_000);
  }

  lemma FlushSends(s: State, now: int, p: Profile, t: State)
    requires BuilderRight(s) && SentRight(s) && s.builder.samples != [] && p == Encode(s.builder).1 && t == FlushStep(s, now)
    ensures BuilderRight(t) && SentRight(t)
  {
    EncodedWindow(s);
    assert t.history.sent == s.history.sent + [Window(s.history.open, s.names, p)];
    FreshBuilder(t, now);
  }

  lemma DrainStepKeepsBuilder(n: nat, s: State, k: nat, resolve: int -> string)
    requires Shaped(n, s) && QueuesRight(n, s) && BuilderRight(s) && k < n && s.queues[k] != []
    requires SentRight(s)
    ensures BuilderRight(DrainStep(s, k, resolve)) && SentRight(DrainStep(s, k, resolve))
  {
    HeadOfQueue(n, s, k);
    var r := s.history.committed[k][|TakenFrom(Drained(s.history), k)|];
    DrainTakesHead(n, s, k, resolve);
    DrainKeepsBuilder(s, k, r, resolve, DrainStep(s, k, resolve));
  }

  lemma OthersKeepBuilder(n: nat, s: State, e: Event)
    requires Shaped(n, s)
    requires !(e.ReaderDrain? && s.reader.Draining? && s.queues[s.reader.shard] != [])
    requires !(e.ReaderFlush? && s.reader.Flushing? && e.due)
    ensures var t := Step(n, s, e);
            && t.builder == s.builder && t.names == s.names
            && t.history.open == s.history.open && t.history.sent == s.history.sent
  {
  }

  lemma SameBuilder(s: State, t: State)
    requires BuilderRight(s) && SentRight(s)
    requires t.builder == s.builder && t.names == s.names
    requires t.history.open == s.history.open && t.history.sent == s.history.sent
    ensures BuilderRight(t) && SentRight(t)
  {
  }

  lemma DrainEventKeepsBuilder(n: nat, s: State, resolve: int -> string)
    requires Shaped(n, s) && QueuesRight(n, s) && BuilderRight(s) && SentRight(s)
    requires s.reader.Draining? && s.queues[s.reader.shard] != []
    ensures BuilderRight(Step(n, s, ReaderDrain(resolve))) && SentRight(Step(n, s, ReaderDrain(resolve)))
  {
    DrainStepKeepsBuilder(n, s, s.reader.shard, resolve);
    assert Step(n, s, ReaderDrain(resolve)) == DrainStep(s, s.reader.shard, resolve);
  }

  lemma FlushEvent(n: nat, s: State, now: int)
    requires Shaped(n, s) && s.reader.Flushing?
    ensures Step(n, s, ReaderFlush(true, now)) == FlushStep(s.(reader := Locking(0)), now)
  {
  }

  lemma FlushEventKeepsBuilder(n: nat, s: State, now: int)
    requires Shaped(n, s) && BuilderRight(s) && SentRight(s) && s.reader.Flushing?
    ensures BuilderRight(Step(n, s, ReaderFlush(true, now))) && SentRight(Step(n, s, ReaderFlush(true, now)))
  {
    var t := s.(reader := Locking(0));
    SameBuilder(s, t);
    FlushKeepsBuilder(t, now);
    FlushEvent(n, s, now);
  }

  lemma BuilderKept(n: nat, s: State, e: Event)
    requires Shaped(n, s) && QueuesRight(n, s) && BuilderRight(s) && SentRight(s)
    ensures BuilderRight(Step(n, s, e)) && SentRight(Step(n, s, e))
  {
    if e.ReaderDrain? && s.reader.Draining? && s.queues[s.reader.shard] != [] {
      DrainEventKeepsBuilder(n, s, e.resolve);
    } else if e.ReaderFlush? && s.reader.Flushing? && e.due {
      FlushEventKeepsBuilder(n, s, e.now);
    } else {
      OthersKeepBuilder(n, s, e);
      SameBuilder(s, Step(n, s, e));
    }
  }

  // -------------------------------------------------------------------- runs

  /** Every step keeps every invariant. */
  lemma StepKeeps(n: nat, s: State, e: Event)
    requires Inv(n, s)
    ensures Inv(n, Step(n, s, e))
  {
    LocksKept(n, s, e);
    BuffersKept(n, s, e);
    QueuesKept(n, s, e);
    BuilderKept(n, s, e);
  }

  lemma InitRight(n: nat)
    requires n > 0
    ensures Inv(n, Init(n))
  {
    NewCorrect(0, 15_000_000_000, 10_000_000);
  }

  /** Any interleaving, starting from n free shards. */
  function Run(n: nat, events: seq<Event>): (s: State)
    requires n > 0
    ensures Shaped(n, s)
  {
    if events == [] then Init(n)
    else
      var t := Run(n, events[..|events| - 1]);
      ShapedKept(n, t, events[|events| - 1]);
      Step(n, t, events[|events| - 1])
  }

  lemma {:induction false} RunRight(n: nat, events: seq<Event>)
    requires n > 0
    ensures Inv(n, Run(n, events))
  {
    if events == [] {
      InitRight(n);
    } else {
      RunRight(n, events[..|events| - 1]);
      StepKeeps(n, Run(n, events[..|events| - 1]), events[|events| - 1]);
    }
  }

  // ----------------------------------------------------------- what it means

  /** Inside a shard there is one handler, or the reader, or no one. */
  lemma MutualExclusion(n: nat, events: seq<Event>, k: nat, tid: U32, other: U32)
    requires n > 0 && k < n
    ensures var s := Run(n, events);
            && (tid in s.handlers && Holds(s.handlers[tid], k) ==>
                  s.reader != Draining(k)
                  && (other in s.handlers && Holds(s.handlers[other], k) ==> other == tid))
  {
    RunRight(n, events);
    if tid in Run(n, events).handlers && Holds(Run(n, events).handlers[tid], k) {
      OneOwner(n, Run(n, events), k, tid, other);
    }
  }

  lemma OneOwner(n: nat, s: State, k: nat, tid: U32, other: U32)
    requires Shaped(n, s) && LocksRight(n, s) && k < n && tid in s.handlers && Holds(s.handlers[tid], k)
    ensures s.reader != Draining(k)
    ensures other in s.handlers && Holds(s.handlers[other], k) ==> other == tid
  {
    assert s.locks[k] == Handler(tid);
  }

  lemma {:induction false} QueueBytesAt(records: seq<Record>, i: nat)
    requires i < |records|
    ensures |QueueBytes(records)| == |records|
    ensures QueueBytes(records)[i] == RecordBytes(records[i].tid, records[i].stack)
  {
    if i > 0 {
      QueueBytesAt(records[1..], i - 1);
    } else if |records| > 1 {
      QueueBytesAt(records[1..], 0);
    }
  }

  lemma {:induction false} QueueBytesLength(records: seq<Record>)
    ensures |QueueBytes(records)| == |records|
  {
    if records != [] { QueueBytesLength(records[1..]); }
  }

  /** A handler past the lock is in one of the three shards of its own thread. */
  ghost predicate InOwnShard(n: nat, tid: U32, pc: HandlerPc)
    requires n > 0
  {
    pc.Trying? || exists attempt: nat :: attempt < 3 && pc.shard == ShardOf(n, tid, attempt)
  }

  ghost predicate OwnShards(n: nat, s: State)
    requires n > 0
  {
    forall tid | tid in s.handlers :: InOwnShard(n, tid, s.handlers[tid])
  }

  lemma OwnShardsKept(n: nat, s: State, e: Event)
    requires Shaped(n, s) && OwnShards(n, s)
    ensures OwnShards(n, Step(n, s, e))
  {
    var t := Step(n, s, e);
    forall tid | tid in t.handlers ensures InOwnShard(n, tid, t.handlers[tid]) {
      if e.TryLock? && e.tid == tid && tid in s.handlers && s.handlers[tid].Trying? {
        assert t.handlers[tid].Trying? || t.handlers[tid] == Holding(ShardOf(n, tid, s.handlers[tid].attempt));
      } else if tid in s.handlers {
        assert InOwnShard(n, tid, s.handlers[tid]);
      }
    }
  }

  /** In every interleaving a handler that got a lock is in a shard picked by its own thread id. */
  lemma {:induction false} HandlersStayInOwnShards(n: nat, events: seq<Event>)
    requires n > 0
    ensures OwnShards(n, Run(n, events))
  {
    if events != [] {
      HandlersStayInOwnShards(n, events[..|events| - 1]);
      OwnShardsKept(n, Run(n, events[..|events| - 1]), events[|events| - 1]);
    }
  }

  /** A byte frame that parses to exactly this record. */
  ghost predicate ParsesTo(bytes: seq<Byte>, r: Record) {
    var v := ParseRecord(bytes);
    v.Some? && v.value.tid == r.tid && Frames(v.value) == r.stack
  }

  lemma QueuedParses(records: seq<Record>, i: nat)
    requires i < |records| && |records[i].stack| <= MAX_DEPTH
    ensures |QueueBytes(records)| == |records| && ParsesTo(QueueBytes(records)[i], records[i])
  {
    QueueBytesAt(records, i);
    ParseWritten(records[i].tid, records[i].stack);
  }

  lemma QueueParses(all: seq<Record>, taken: seq<Record>, queue: seq<seq<Byte>>)
    requires taken <= all && queue == QueueBytes(all[|taken|..])
    requires forall i | 0 <= i < |all| :: |all[i].stack| <= MAX_DEPTH
    ensures |queue| == |all| - |taken| && forall i | 0 <= i < |queue| :: ParsesTo(queue[i], all[|taken| + i])
  {
    QueueBytesLength(all[|taken|..]);
    forall i | 0 <= i < |queue| ensures ParsesTo(queue[i], all[|taken| + i]) {
      QueuedParses(all[|taken|..], i);
    }
  }

  /**
   In order, what was committed to the shard is what the reader took from it followed by
   what is queued, and every queued frame parses to its record.
   */
  ghost predicate Accounted(s: State, k: nat)
    requires k < |s.queues| && k < |s.history.committed|
  {
    var all, taken := s.history.committed[k], TakenFrom(Drained(s.history), k);
    && taken <= all && |s.queues[k]| == |all| - |taken|
    && forall i | 0 <= i < |s.queues[k]| :: ParsesTo(s.queues[k][i], all[|taken| + i])
  }

  lemma AccountedAt(n: nat, s: State, k: nat)
    requires Shaped(n, s) && QueuesRight(n, s) && k < n
    ensures Accounted(s, k)
  {
    assert QueueRight(s, k);
    QueueParses(s.history.committed[k], TakenFrom(Drained(s.history), k), s.queues[k]);
  }

  /**
   Per shard nothing is lost, duplicated or reordered between commit and drain, and every
   queued frame parses to the stack that its own handler unwound under its own thread id.
   */
  lemma CommittedIsTakenThenQueued(n: nat, events: seq<Event>, k: nat)
    requires n > 0 && k < n
    ensures Accounted(Run(n, events), k)
  {
    RunRight(n, events);
    AccountedAt(n, Run(n, events), k);
  }

  /**
   Every profile that was sent says exactly what was taken in its window, each frame
   under the one name its code object had there, and the builder says what was taken since.
   */
  lemma ProfilesAreFaithful(n: nat, events: seq<Event>)
    requires n > 0
    ensures var s := Run(n, events);
            && Represents(Tables(s.builder), LogOf(s.history.open, s.names))
            && forall i | 0 <= i < |s.history.sent| ::
                 var w := s.history.sent[i];
                 Faithful(w.profile, LogOf(w.taken, w.names)) && forall j | 0 <= j < |w.taken| :: Named(w.taken[j].record.stack, w.names)
  {
    RunRight(n, events);
    var s := Run(n, events);
    forall i | 0 <= i < |s.history.sent|
      ensures var w := s.history.sent[i];
              Faithful(w.profile, LogOf(w.taken, w.names)) && forall j | 0 <= j < |w.taken| :: Named(w.taken[j].record.stack, w.names)
    {
      assert WindowRight(s.history.sent[i]);
    }
  }
}
