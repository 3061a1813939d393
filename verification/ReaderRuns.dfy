/**
 What whole runs of the signal profiler do, said over the events alone: which records are
 committed, that the reader visits every shard between two flushes, that every record can
 be taken, and which samples are dropped.
 */
module ReaderRuns {
  import opened LittleEndian
  import opened SigRing
  import opened SignalPipeline

  // ------------------------------------------------------------- the sweep

  /** The event ends the reader's sweep. */
  predicate EndsSweep(s: State, e: Event) {
    e.ReaderFlush? && s.reader.Flushing?
  }

  /** With the j-th event the reader gives the shard up, and its queue is empty. */
  ghost predicate GivenUpEmpty(n: nat, events: seq<Event>, k: nat, j: nat)
    requires 0 < n && k < n && j < |events|
  {
    && Run(n, events[..j]).locks[k] == Reader && Run(n, events[..j]).queues[k] == []
    && Run(n, events[..j + 1]).locks[k] != Reader
  }

  ghost predicate NoFlushSince(n: nat, events: seq<Event>, j: nat)
    requires 0 < n
  {
    forall i | j <= i < |events| :: !EndsSweep(Run(n, events[..i]), events[i])
  }

  /** Since the last flush the reader has held the shard and given it up empty. */
  ghost predicate Swept(n: nat, events: seq<Event>, k: nat)
    requires 0 < n && k < n
  {
    exists j :: 0 <= j < |events| && GivenUpEmpty(n, events, k, j) && NoFlushSince(n, events, j)
  }

  /** How many shards the reader is done with in this sweep. */
  function Done(n: nat, reader: ReaderPc): nat {
    match reader
    case Locking(next) => next
    case Draining(shard) => shard
    case Flushing => n
  }

  predicate GivesUp(s: State, e: Event)
    requires s.reader.Draining? ==> s.reader.shard < |s.queues|
  {
    e.ReaderUnlock? && s.reader.Draining? && s.queues[s.reader.shard] == []
  }

  lemma DoneKept(n: nat, s: State, e: Event)
    requires Shaped(n, s) && !EndsSweep(s, e) && !GivesUp(s, e)
    ensures Done(n, Step(n, s, e).reader) == Done(n, s.reader)
  {
  }

  lemma GivenUpPrefix(n: nat, init: seq<Event>, events: seq<Event>, k: nat, j: nat)
    requires 0 < n && k < n && init <= events && j < |init| && GivenUpEmpty(n, init, k, j)
    ensures GivenUpEmpty(n, events, k, j)
  {
    assert init[..j] == events[..j] && init[..j + 1] == events[..j + 1];
  }

  lemma NoFlushPush(n: nat, init: seq<Event>, events: seq<Event>, j: nat)
    requires 0 < n && NoFlushSince(n, init, j) && |events| == |init| + 1 && init == events[..|init|]
    requires !EndsSweep(Run(n, init), events[|init|])
    ensures NoFlushSince(n, events, j)
  {
    forall i | j <= i < |events| ensures !EndsSweep(Run(n, events[..i]), events[i]) {
      if i < |init| { assert init[..i] == events[..i] && init[i] == events[i]; }
    }
  }

  lemma SweptPush(n: nat, init: seq<Event>, events: seq<Event>, k: nat)
    requires 0 < n && k < n && |events| == |init| + 1 && init == events[..|init|]
    requires Swept(n, init, k) && !EndsSweep(Run(n, init), events[|init|])
    ensures Swept(n, events, k)
  {
    var j :| 0 <= j < |init| && GivenUpEmpty(n, init, k, j) && NoFlushSince(n, init, j);
    GivenUpPrefix(n, init, events, k, j);
    NoFlushPush(n, init, events, j);
  }

  lemma JustSwept(n: nat, events: seq<Event>, k: nat)
    requires 0 < n && k < n && events != []
    requires GivenUpEmpty(n, events, k, |events| - 1) && !EndsSweep(Run(n, events[..|events| - 1]), events[|events| - 1])
    ensures Swept(n, events, k)
  {
    assert NoFlushSince(n, events, |events| - 1);
  }

  lemma GivingUp(n: nat, s: State, k: nat)
    requires Shaped(n, s) && LocksRight(n, s) && k < n && s.reader == Draining(k) && s.queues[k] == []
    ensures s.locks[k] == Reader && Step(n, s, ReaderUnlock).locks[k] == Free
    ensures Done(n, Step(n, s, ReaderUnlock).reader) == k + 1
  {
  }

  lemma SweptStep(n: nat, init: seq<Event>, events: seq<Event>, k: nat)
    requires 0 < n && |events| == |init| + 1 && init == events[..|init|] && !EndsSweep(Run(n, init), events[|init|])
    requires k < Done(n, Run(n, events).reader) <= n && (k < Done(n, Run(n, init).reader) ==> Swept(n, init, k))
    ensures Swept(n, events, k)
  {
    var s, e := Run(n, init), events[|init|];
    RunRight(n, init);
    if GivesUp(s, e) { GivingUp(n, s, s.reader.shard); } else { DoneKept(n, s, e); }
    if k < Done(n, s.reader) {
      SweptPush(n, init, events, k);
    } else {
      assert events[..|events|] == events;
      JustSwept(n, events, k);
    }
  }

  lemma DoneBound(n: nat, events: seq<Event>)
    requires 0 < n
    ensures Done(n, Run(n, events).reader) <= n
  {
  }

  lemma SweepEnds(n: nat, s: State, e: Event)
    requires Shaped(n, s) && EndsSweep(s, e)
    ensures Done(n, Step(n, s, e).reader) == 0
  {
  }

  lemma RunStep(n: nat, init: seq<Event>, events: seq<Event>)
    requires 0 < n && |events| == |init| + 1 && init == events[..|init|]
    ensures Run(n, events) == Step(n, Run(n, init), events[|init|])
  {
  }

  lemma SweptNow(n: nat, init: seq<Event>, events: seq<Event>, k: nat)
    requires 0 < n && |events| == |init| + 1 && init == events[..|init|]
    requires k < Done(n, Run(n, events).reader) <= n && (k < Done(n, Run(n, init).reader) ==> Swept(n, init, k))
    ensures Swept(n, events, k)
  {
    RunStep(n, init, events);
    if EndsSweep(Run(n, init), events[|init|]) {
      SweepEnds(n, Run(n, init), events[|init|]);
    } else {
      SweptStep(n, init, events, k);
    }
  }

  lemma {:induction false} SweptBefore(n: nat, events: seq<Event>, k: nat)
    requires 0 < n && k < Done(n, Run(n, events).reader) <= n
    ensures Swept(n, events, k)
  {
    if events != [] {
      var init := events[..|events| - 1];
      DoneBound(n, init);
      if k < Done(n, Run(n, init).reader) { SweptBefore(n, init, k); }
      SweptNow(n, init, events, k);
    }
  }

  /** In every run, when the reader flushes it has emptied every shard since the last flush. */
  lemma FlushingHasSwept(n: nat, events: seq<Event>, k: nat)
    requires 0 < n && k < n && Run(n, events).reader.Flushing?
    ensures Swept(n, events, k)
  {
    SweptBefore(n, events, k);
  }

  // --------------------------------------------- what a sweep takes

  /** What is committed to a shard and taken from it. */
  ghost predicate Grown(h: History, g: History, k: nat)
    requires k < |h.committed| && k < |g.committed|
  {
    h.committed[k] <= g.committed[k] && TakenFrom(Drained(h), k) <= TakenFrom(Drained(g), k)
  }

  lemma TakingGrows(h: History, g: History, j: nat, r: Record, k: nat)
    requires k < |h.committed| && g == h.(open := h.open + [Taken(j, r)])
    ensures Grown(h, g, k)
  {
    assert Drained(g) == Drained(h) + [Taken(j, r)];
    TakenFromPush(Drained(h), Taken(j, r), k);
  }

  lemma DrainGrows(n: nat, s: State, resolve: int -> string, j: nat, k: nat)
    requires Shaped(n, s) && QueuesRight(n, s) && BuilderRight(s) && k < n && j < n && s.queues[j] != []
    ensures |DrainStep(s, j, resolve).history.committed| == n && Grown(s.history, DrainStep(s, j, resolve).history, k)
  {
    HeadOfQueue(n, s, j);
    var r := s.history.committed[j][|TakenFrom(Drained(s.history), j)|];
    DrainTakesHead(n, s, j, resolve);
    TakingGrows(s.history, s.history.(open := s.history.open + [Taken(j, r)]), j, r, k);
  }

  predicate Drains(s: State, e: Event)
    requires s.reader.Draining? ==> s.reader.shard < |s.queues|
  {
    e.ReaderDrain? && s.reader.Draining? && s.queues[s.reader.shard] != []
  }

  lemma DrainEvent(n: nat, s: State, e: Event)
    requires Shaped(n, s) && Drains(s, e)
    ensures Step(n, s, e) == DrainStep(s, s.reader.shard, e.resolve)
  {
  }

  lemma CommitGrows(n: nat, s: State, e: Event, k: nat)
    requires Shaped(n, s) && k < n
    requires !Drains(s, e) && !(EndsSweep(s, e) && e.due)
    ensures Shaped(n, Step(n, s, e)) && s.history.committed[k] <= Step(n, s, e).history.committed[k]
  {
    ShapedKept(n, s, e);
  }

  lemma FlushGrows(n: nat, s: State, now: int, k: nat)
    requires Shaped(n, s) && k < n
    ensures FlushStep(s, now).history.committed == s.history.committed && Grown(s.history, FlushStep(s, now).history, k)
  {
    FlushKeepsDrained(s, now);
  }

  lemma StepGrows(n: nat, s: State, e: Event, k: nat, t: State)
    requires Shaped(n, s) && QueuesRight(n, s) && BuilderRight(s) && k < n && t == Step(n, s, e) && Shaped(n, t)
    ensures Grown(s.history, t.history, k)
  {
    if Drains(s, e) {
      DrainEvent(n, s, e);
      DrainGrows(n, s, e.resolve, s.reader.shard, k);
    } else if EndsSweep(s, e) && e.due {
      FlushEvent(n, s, e.now);
      FlushGrows(n, s.(reader := Locking(0)), e.now, k);
    } else {
      OthersKeepBuilder(n, s, e);
      CommitGrows(n, s, e, k);
    }
  }

  lemma GrownTransitive(g: History, h: History, i: History, k: nat)
    requires k < |g.committed| && k < |h.committed| && k < |i.committed| && Grown(g, h, k) && Grown(h, i, k)
    ensures Grown(g, i, k)
  {
  }

  /** Records stay committed and taken. */
  lemma {:induction false} RunGrows(n: nat, events: seq<Event>, i: nat, k: nat)
    requires 0 < n && k < n && i <= |events|
    ensures Grown(Run(n, events[..i]).history, Run(n, events).history, k)
    decreases |events|
  {
    if i == |events| {
      assert events[..i] == events;
    } else {
      var init := events[..|events| - 1];
      assert init[..i] == events[..i];
      RunGrows(n, init, i, k);
      RunRight(n, init);
      RunStep(n, init, events);
      StepGrows(n, Run(n, init), events[|init|], k, Run(n, events));
      GrownTransitive(Run(n, init[..i]).history, Run(n, init).history, Run(n, events).history, k);
    }
  }

  lemma EmptyIsTaken(n: nat, events: seq<Event>, k: nat)
    requires 0 < n && k < n && Run(n, events).queues[k] == []
    ensures TakenFrom(Drained(Run(n, events).history), k) == Run(n, events).history.committed[k]
  {
    CommittedIsTakenThenQueued(n, events, k);
  }

  /** The sweep began with the i-th event: the run began there, or the event before ended a sweep. */
  ghost predicate SweepBegan(n: nat, events: seq<Event>, i: nat)
    requires 0 < n
  {
    i <= |events| && (i == 0 || EndsSweep(Run(n, events[..i - 1]), events[i - 1]))
  }

  lemma SweptAfter(n: nat, events: seq<Event>, i: nat, j: nat)
    requires 0 < n && SweepBegan(n, events, i) && NoFlushSince(n, events, j)
    ensures i <= j
  {
  }

  /** In every run, when the reader flushes it has taken all that was committed when its sweep began. */
  lemma SweepTakesAll(n: nat, events: seq<Event>, i: nat, k: nat)
    requires 0 < n && k < n && SweepBegan(n, events, i) && Run(n, events).reader.Flushing?
    ensures Run(n, events[..i]).history.committed[k] <= TakenFrom(Drained(Run(n, events).history), k)
  {
    FlushingHasSwept(n, events, k);
    var j :| 0 <= j < |events| && GivenUpEmpty(n, events, k, j) && NoFlushSince(n, events, j);
    SweptAfter(n, events, i, j);
    TakenInBetween(n, events, i, j, k);
  }

  lemma TakenInBetween(n: nat, events: seq<Event>, i: nat, j: nat, k: nat)
    requires 0 < n && k < n && i <= j <= |events| && Run(n, events[..j]).queues[k] == []
    ensures Run(n, events[..i]).history.committed[k] <= TakenFrom(Drained(Run(n, events).history), k)
  {
    EmptyIsTaken(n, events[..j], k);
    assert events[..j][..i] == events[..i];
    RunGrows(n, events[..j], i, k);
    RunGrows(n, events, j, k);
  }

  // --------------------------------------- every record can be taken

  function Busy(s: State): set<U32> {
    set tid | tid in s.handlers && !s.handlers[tid].Trying?
  }

  lemma Append(n: nat, events: seq<Event>, e: Event) returns (more: seq<Event>)
    requires 0 < n
    ensures more == events + [e] && events <= more && Run(n, more) == Step(n, Run(n, events), e)
  {
    more := events + [e];
    assert more[..|more| - 1] == events;
  }

  /** A handler past its lock can always leave: it may find no frame, or get no grant. */
  lemma HandlerCanLeave(n: nat, events: seq<Event>, tid: U32) returns (more: seq<Event>)
    requires 0 < n && tid in Busy(Run(n, events))
    ensures events <= more && Busy(Run(n, more)) == Busy(Run(n, events)) - {tid}
  {
    var s := Run(n, events);
    if s.handlers[tid].Unwound? {
      var written := Append(n, events, Write(tid, false));
      NoGrant(n, s, tid);
      more := Append(n, written, Release(tid));
      Leaves(n, Run(n, written), tid, Release(tid));
      BusyWithout(Run(n, written), Run(n, more), tid);
    } else {
      var e := if s.handlers[tid].Holding? then Unwind(tid, []) else Release(tid);
      more := Append(n, events, e);
      Leaves(n, s, tid, e);
      BusyWithout(s, Run(n, more), tid);
    }
  }

  lemma NoGrant(n: nat, s: State, tid: U32)
    requires Shaped(n, s) && tid in s.handlers && s.handlers[tid].Unwound?
    ensures Step(n, s, Write(tid, false)).handlers == s.handlers[tid := Written(s.handlers[tid].shard)]
    ensures Busy(Step(n, s, Write(tid, false))) == Busy(s)
  {
  }

  lemma Leaves(n: nat, s: State, tid: U32, e: Event)
    requires Shaped(n, s) && tid in s.handlers
    requires (e == Unwind(tid, []) && s.handlers[tid].Holding?) || (e == Release(tid) && s.handlers[tid].Written?)
    ensures Step(n, s, e).handlers == s.handlers - {tid}
  {
  }

  lemma BusyWithout(s: State, t: State, tid: U32)
    requires t.handlers == s.handlers - {tid}
    ensures Busy(t) == Busy(s) - {tid}
  {
  }

  lemma {:induction false} HandlersCanLeave(n: nat, events: seq<Event>) returns (more: seq<Event>)
    requires 0 < n
    ensures events <= more && Busy(Run(n, more)) == {}
    decreases Busy(Run(n, events))
  {
    if Busy(Run(n, events)) == {} {
      more := events;
    } else {
      var tid :| tid in Busy(Run(n, events));
      var fewer := HandlerCanLeave(n, events, tid);
      more := HandlersCanLeave(n, fewer);
    }
  }

  /** How far the reader is from the end of its sweep. */
  function ShardsLeft(n: nat, s: State): int {
    n - Done(n, s.reader)
  }

  function StepsLeft(s: State): nat {
    if s.reader.Draining? && s.reader.shard < |s.queues| then |s.queues[s.reader.shard]| else 0
  }

  lemma LockIsFree(n: nat, s: State)
    requires Shaped(n, s) && LocksRight(n, s) && Busy(s) == {} && s.reader.Locking?
    ensures s.locks[s.reader.next] == Free
  {
    forall tid | tid in s.handlers ensures s.handlers[tid].Trying? {
      assert tid !in Busy(s);
    }
  }

  ghost predicate Closer(n: nat, s: State, t: State) {
    ShardsLeft(n, t) < ShardsLeft(n, s)
    || (ShardsLeft(n, t) == ShardsLeft(n, s) && s.reader.Locking? && t.reader.Draining?)
    || (ShardsLeft(n, t) == ShardsLeft(n, s) && s.reader.Draining? && t.reader.Draining? && StepsLeft(t) < StepsLeft(s))
  }

  lemma LockingMoves(n: nat, s: State)
    requires Shaped(n, s) && s.reader.Locking? && s.locks[s.reader.next] == Free
    ensures Closer(n, s, Step(n, s, ReaderLock)) && Step(n, s, ReaderLock).handlers == s.handlers
  {
  }

  lemma DrainingMoves(n: nat, s: State, resolve: int -> string)
    requires Shaped(n, s) && s.reader.Draining? && s.queues[s.reader.shard] != []
    ensures Closer(n, s, Step(n, s, ReaderDrain(resolve))) && Step(n, s, ReaderDrain(resolve)).handlers == s.handlers
  {
    DrainEvent(n, s, ReaderDrain(resolve));
    var t := DrainStep(s, s.reader.shard, resolve);
    assert t.queues == s.queues[s.reader.shard := s.queues[s.reader.shard][1..]] && t.reader == s.reader;
  }

  lemma UnlockingMoves(n: nat, s: State)
    requires Shaped(n, s) && s.reader.Draining? && s.queues[s.reader.shard] == []
    ensures Closer(n, s, Step(n, s, ReaderUnlock)) && Step(n, s, ReaderUnlock).handlers == s.handlers
  {
  }

  lemma SameBusy(s: State, t: State)
    requires t.handlers == s.handlers
    ensures Busy(t) == Busy(s)
  {
  }

  /** With no handler in its way the reader can always go on. */
  lemma ReaderCanMove(n: nat, events: seq<Event>) returns (more: seq<Event>)
    requires 0 < n && Busy(Run(n, events)) == {} && !Run(n, events).reader.Flushing?
    ensures events <= more && Busy(Run(n, more)) == {} && Closer(n, Run(n, events), Run(n, more))
  {
    var s, e := Run(n, events), ReaderLock;
    RunRight(n, events);
    if s.reader.Locking? {
      LockIsFree(n, s);
      LockingMoves(n, s);
    } else if s.queues[s.reader.shard] != [] {
      e := ReaderDrain(x => "");
      DrainingMoves(n, s, e.resolve);
    } else {
      e := ReaderUnlock;
      UnlockingMoves(n, s);
    }
    more := Append(n, events, e);
    SameBusy(s, Run(n, more));
  }

  lemma {:induction false} ReaderCanFinish(n: nat, events: seq<Event>) returns (more: seq<Event>)
    requires 0 < n && Busy(Run(n, events)) == {}
    ensures events <= more && Busy(Run(n, more)) == {} && Run(n, more).reader.Flushing?
    decreases ShardsLeft(n, Run(n, events)), Run(n, events).reader.Locking?, StepsLeft(Run(n, events))
  {
    if Run(n, events).reader.Flushing? {
      more := events;
    } else {
      var moved := ReaderCanMove(n, events);
      DoneBound(n, moved);
      more := ReaderCanFinish(n, moved);
    }
  }

  lemma FlushMoves(n: nat, s: State)
    requires Shaped(n, s) && s.reader.Flushing?
    ensures EndsSweep(s, ReaderFlush(false, 0)) && Step(n, s, ReaderFlush(false, 0)).handlers == s.handlers
  {
  }

  /** A whole sweep can follow, and it takes what is committed to the shard by now. */
  lemma SweepCanFollow(n: nat, events: seq<Event>) returns (more: seq<Event>)
    requires 0 < n && Busy(Run(n, events)) == {} && Run(n, events).reader.Flushing?
    ensures events <= more
    ensures forall k | 0 <= k < n :: Run(n, events).history.committed[k] <= TakenFrom(Drained(Run(n, more).history), k)
  {
    var began := Append(n, events, ReaderFlush(false, 0));
    FlushMoves(n, Run(n, events));
    SameBusy(Run(n, events), Run(n, began));
    more := ReaderCanFinish(n, began);
    assert more[..|began|] == began && began[..|events|] == events == more[..|events|];
    forall k | 0 <= k < n ensures Run(n, events).history.committed[k] <= TakenFrom(Drained(Run(n, more).history), k) {
      SweepTakesAll(n, more, |began|, k);
      RunGrows(n, began, |events|, k);
    }
  }

  /** From every reachable state the run can go on so that all that is committed by now is taken. */
  lemma EveryRecordCanBeTaken(n: nat, events: seq<Event>) returns (more: seq<Event>)
    requires 0 < n
    ensures events <= more
    ensures forall k | 0 <= k < n :: Run(n, events).history.committed[k] <= TakenFrom(Drained(Run(n, more).history), k)
  {
    var left := HandlersCanLeave(n, events);
    var swept := ReaderCanFinish(n, left);
    more := SweepCanFollow(n, swept);
    assert swept[..|events|] == events;
    forall k | 0 <= k < n ensures Run(n, events).history.committed[k] <= TakenFrom(Drained(Run(n, more).history), k) {
      RunGrows(n, swept, |events|, k);
    }
  }

  // ------------------------------------------------ which samples there are

  /** The stack that the handler unwound last. */
  function LastUnwound(n: nat, events: seq<Event>, tid: U32): seq<RawFrame>
    requires 0 < n
  {
    if events == [] then []
    else
      var init, e := events[..|events| - 1], events[|events| - 1];
      var s := Run(n, init);
      if e.Unwind? && e.tid == tid && tid in s.handlers && s.handlers[tid].Holding? && |e.stack| <= MAX_DEPTH
      then e.stack else LastUnwound(n, init, tid)
  }

  /** The samples for which a handler inside the shard got a grant, in order. */
  function Granted(n: nat, events: seq<Event>, k: nat): seq<Record>
    requires 0 < n
  {
    if events == [] then []
    else
      var init, e := events[..|events| - 1], events[|events| - 1];
      var s := Run(n, init);
      Granted(n, init, k)
      + if e.Write? && e.granted && e.tid in s.handlers && s.handlers[e.tid].Unwound? && s.handlers[e.tid].shard == k
        then [Record(e.tid, LastUnwound(n, init, e.tid))] else []
  }

  ghost predicate UnwoundRight(n: nat, s: State, events: seq<Event>)
    requires 0 < n
  {
    forall tid | tid in s.handlers && s.handlers[tid].Unwound? ::
      tid in s.history.unwound && s.history.unwound[tid] == LastUnwound(n, events, tid)
  }

  ghost predicate KeepsUnwound(s: State, e: Event, t: State, tid: U32) {
    && tid in s.handlers
    && if e.Unwind? && e.tid == tid && s.handlers[tid].Holding? && |e.stack| <= MAX_DEPTH
       then tid in t.history.unwound && t.history.unwound[tid] == e.stack
       else s.handlers[tid].Unwound?
            && (tid in s.history.unwound ==> tid in t.history.unwound && t.history.unwound[tid] == s.history.unwound[tid])
  }

  lemma HandlerKeepsUnwound(n: nat, s: State, e: Event, t: State, tid: U32)
    requires Shaped(n, s) && t == Step(n, s, e) && tid in t.handlers && t.handlers[tid].Unwound? && !OfReader(e)
    ensures KeepsUnwound(s, e, t, tid)
  {
  }

  lemma ReaderKeepsUnwound(n: nat, s: State, e: Event, t: State, tid: U32)
    requires Shaped(n, s) && t == Step(n, s, e) && tid in t.handlers && t.handlers[tid].Unwound? && OfReader(e)
    ensures KeepsUnwound(s, e, t, tid)
  {
  }

  lemma {:induction false} RunUnwound(n: nat, events: seq<Event>)
    requires 0 < n
    ensures UnwoundRight(n, Run(n, events), events)
  {
    if events != [] {
      var init := events[..|events| - 1];
      RunUnwound(n, init);
      RunStep(n, init, events);
      var t := Run(n, events);
      forall tid | tid in t.handlers && t.handlers[tid].Unwound?
        ensures tid in t.history.unwound && t.history.unwound[tid] == LastUnwound(n, events, tid)
      {
        if OfReader(events[|init|]) {
          ReaderKeepsUnwound(n, Run(n, init), events[|init|], t, tid);
        } else {
          HandlerKeepsUnwound(n, Run(n, init), events[|init|], t, tid);
        }
      }
    }
  }

  lemma CommittedKept(n: nat, s: State, e: Event, t: State, k: nat)
    requires Shaped(n, s) && Shaped(n, t) && t == Step(n, s, e) && k < n
    requires forall tid | tid in s.handlers && s.handlers[tid].Unwound? :: tid in s.history.unwound
    ensures t.history.committed[k] == s.history.committed[k]
      + if e.Write? && e.granted && e.tid in s.handlers && s.handlers[e.tid].Unwound? && s.handlers[e.tid].shard == k
        then [Record(e.tid, s.history.unwound[e.tid])] else []
  {
    if Drains(s, e) { DrainEvent(n, s, e); }
  }

  /** In every run what is committed to a shard are the samples granted there, each with its handler's own stack. */
  lemma {:induction false} CommittedIsGranted(n: nat, events: seq<Event>, k: nat)
    requires 0 < n && k < n
    ensures Run(n, events).history.committed[k] == Granted(n, events, k)
  {
    if events != [] {
      var init := events[..|events| - 1];
      CommittedIsGranted(n, init, k);
      RunUnwound(n, init);
      RunStep(n, init, events);
      CommittedKept(n, Run(n, init), events[|init|], Run(n, events), k);
    }
  }

  // ------------------------------------------------ which samples are dropped

  /** With the j-th event the handler finds the shard of this attempt locked. */
  ghost predicate FindsLocked(n: nat, events: seq<Event>, tid: U32, attempt: nat, j: nat)
    requires 0 < n && j < |events|
  {
    events[j] == TryLock(tid) && Run(n, events[..j]).locks[(tid % n + attempt) % n] != Free
  }

  ghost predicate InHandlerSince(n: nat, events: seq<Event>, tid: U32, j: nat)
    requires 0 < n
  {
    forall i | j <= i < |events| :: tid in Run(n, events[..i]).handlers
  }

  /** Since it entered, the handler has found that shard locked. */
  ghost predicate FoundLocked(n: nat, events: seq<Event>, tid: U32, attempt: nat)
    requires 0 < n
  {
    exists j :: 0 <= j < |events| && FindsLocked(n, events, tid, attempt, j) && InHandlerSince(n, events, tid, j)
  }

  lemma FindsLockedPrefix(n: nat, init: seq<Event>, events: seq<Event>, tid: U32, attempt: nat, j: nat)
    requires 0 < n && init <= events && j < |init| && FindsLocked(n, init, tid, attempt, j)
    ensures FindsLocked(n, events, tid, attempt, j)
  {
    assert init[..j] == events[..j];
  }

  lemma InHandlerPush(n: nat, init: seq<Event>, events: seq<Event>, tid: U32, j: nat)
    requires 0 < n && InHandlerSince(n, init, tid, j) && |events| == |init| + 1 && init == events[..|init|]
    requires tid in Run(n, init).handlers
    ensures InHandlerSince(n, events, tid, j)
  {
    forall i | j <= i < |events| ensures tid in Run(n, events[..i]).handlers {
      if i < |init| { assert init[..i] == events[..i]; }
    }
  }

  lemma FoundLockedPush(n: nat, init: seq<Event>, events: seq<Event>, tid: U32, attempt: nat)
    requires 0 < n && |events| == |init| + 1 && init == events[..|init|]
    requires FoundLocked(n, init, tid, attempt) && tid in Run(n, init).handlers
    ensures FoundLocked(n, events, tid, attempt)
  {
    var j :| 0 <= j < |init| && FindsLocked(n, init, tid, attempt, j) && InHandlerSince(n, init, tid, j);
    FindsLockedPrefix(n, init, events, tid, attempt, j);
    InHandlerPush(n, init, events, tid, j);
  }

  lemma JustFoundLocked(n: nat, init: seq<Event>, events: seq<Event>, tid: U32, attempt: nat)
    requires 0 < n && |events| == |init| + 1 && init == events[..|init|]
    requires FindsLocked(n, events, tid, attempt, |init|) && tid in Run(n, init).handlers
    ensures FoundLocked(n, events, tid, attempt)
  {
    assert InHandlerSince(n, events, tid, |init|);
  }

  /** How a handler comes to try for the a-th time. */
  lemma TryingStep(n: nat, s: State, e: Event, tid: U32)
    requires Shaped(n, s) && tid in Step(n, s, e).handlers && Step(n, s, e).handlers[tid].Trying?
    ensures var a := Step(n, s, e).handlers[tid].attempt;
            || (a == 0 && tid !in s.handlers)
            || (tid in s.handlers && s.handlers[tid] == Trying(a))
            || (e == TryLock(tid) && tid in s.handlers && a > 0 && s.handlers[tid] == Trying(a - 1)
                && s.locks[(tid % n + (a - 1)) % n] != Free)
  {
    if !OfReader(e) { HandlerTrying(n, s, e, tid); }
  }

  lemma HandlerTrying(n: nat, s: State, e: Event, tid: U32)
    requires Shaped(n, s) && tid in Step(n, s, e).handlers && Step(n, s, e).handlers[tid].Trying? && !OfReader(e)
    ensures var a := Step(n, s, e).handlers[tid].attempt;
            || (a == 0 && tid !in s.handlers)
            || (tid in s.handlers && s.handlers[tid] == Trying(a))
            || (e == TryLock(tid) && tid in s.handlers && a > 0 && s.handlers[tid] == Trying(a - 1)
                && s.locks[(tid % n + (a - 1)) % n] != Free)
  {
  }

  /** A handler that tries again has found the shards of its earlier attempts locked. */
  lemma {:induction false} TriedBefore(n: nat, events: seq<Event>, tid: U32, attempt: nat)
    requires 0 < n && tid in Run(n, events).handlers && Run(n, events).handlers[tid].Trying?
    requires attempt < Run(n, events).handlers[tid].attempt
    ensures FoundLocked(n, events, tid, attempt)
  {
    if events != [] {
      var init := events[..|events| - 1];
      var s, e := Run(n, init), events[|init|];
      RunStep(n, init, events);
      TryingStep(n, s, e, tid);
      if s.handlers[tid].attempt == attempt {
        JustFoundLocked(n, init, events, tid, attempt);
      } else {
        TriedBefore(n, init, tid, attempt);
        FoundLockedPush(n, init, events, tid, attempt);
      }
    }
  }

  predicate Leaving(n: nat, s: State, e: Event, tid: U32)
    requires Shaped(n, s)
  {
    tid in s.handlers && tid !in Step(n, s, e).handlers
  }

  lemma LeavingStep(n: nat, s: State, e: Event, tid: U32)
    requires Shaped(n, s) && Leaving(n, s, e, tid)
    ensures || (e == TryLock(tid) && s.handlers[tid] == Trying(2) && s.locks[(tid % n + 2) % n] != Free)
            || (e == Unwind(tid, []) && s.handlers[tid].Holding?)
            || (e == Release(tid) && s.handlers[tid].Written?)
  {
    assert tid in s.handlers ==> PcShaped(n, s.handlers[tid]);
  }

  /**
   In every run a handler leaves because it has found its three shards locked, because its
   stack is empty, or after it has asked for a grant: no other sample is dropped.
   */
  lemma WhyHandlersLeave(n: nat, events: seq<Event>, e: Event, tid: U32)
    requires 0 < n && Leaving(n, Run(n, events), e, tid)
    ensures || (forall attempt: nat | attempt < 3 :: FoundLocked(n, events + [e], tid, attempt))
            || (e == Unwind(tid, []) && Run(n, events).handlers[tid].Holding?)
            || (e == Release(tid) && Run(n, events).handlers[tid].Written?)
  {
    LeavingStep(n, Run(n, events), e, tid);
    if e.TryLock? {
      var more := events + [e];
      assert events == more[..|events|];
      forall attempt: nat | attempt < 3 ensures FoundLocked(n, more, tid, attempt) {
        if attempt < 2 {
          TriedBefore(n, events, tid, attempt);
          FoundLockedPush(n, events, more, tid, attempt);
        } else {
          JustFoundLocked(n, events, more, tid, attempt);
        }
      }
    }
  }

  lemma GetsLock(n: nat, s: State, tid: U32, a: nat)
    requires Shaped(n, s) && tid in s.handlers && s.handlers[tid] == Trying(a) && s.locks[(tid % n + a) % n] == Free
    ensures var t := Step(n, s, TryLock(tid)); tid in t.handlers && t.handlers[tid] == Holding((tid % n + a) % n)
  {
  }

  /** In every run a handler that gets a lock gets the first of its three shards that it finds free. */
  lemma FirstFreeShard(n: nat, events: seq<Event>, tid: U32, a: nat)
    requires 0 < n && tid in Run(n, events).handlers && Run(n, events).handlers[tid] == Trying(a)
    requires Run(n, events).locks[(tid % n + a) % n] == Free
    ensures var t := Run(n, events + [TryLock(tid)]); tid in t.handlers && t.handlers[tid] == Holding((tid % n + a) % n)
    ensures forall attempt: nat | attempt < a :: FoundLocked(n, events, tid, attempt)
  {
    var more := Append(n, events, TryLock(tid));
    GetsLock(n, Run(n, events), tid, a);
    forall attempt: nat | attempt < a ensures FoundLocked(n, events, tid, attempt) {
      TriedBefore(n, events, tid, attempt);
    }
  }
}
