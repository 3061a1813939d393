/**
 What the profiles say that the reader sends, said over the events: when each window
 began, how often each stack was taken in it, and where its names come from.
 */
module ReaderWindows {
  import opened Wrappers
  import opened LittleEndian
  import opened ProfileFormat
  import PprofBuilder
  import I64
  import opened SigRing
  import opened SignalPipeline
  import opened ReaderRuns

  // ---------------------------------------------------------------- window times

  /** A flush that is due, and the window has samples. */
  predicate Sends(s: State, e: Event) {
    EndsSweep(s, e) && e.due && s.history.open != []
  }

  /** The first window begins at 0, every other at the last earlier flush that sent something. */
  function StartsOf(n: nat, events: seq<Event>): PprofBuilder.Starts
    requires 0 < n
  {
    if events == [] then PprofBuilder.Starts(0, [])
    else
      var init, last := events[..|events| - 1], events[|events| - 1];
      var before := StartsOf(n, init);
      if Sends(Run(n, init), last) then PprofBuilder.Starts(last.now, before.closed + [before.open]) else before
  }

  ghost predicate Timed(s: State, starts: PprofBuilder.Starts) {
    && s.builder.timeNanos == starts.open && s.builder.durationNanos == 15_000_000_000
    && |s.history.sent| == |starts.closed|
    && forall k | 0 <= k < |starts.closed| :: TimedWindow(s.history.sent[k].profile, starts.closed[k])
  }

  predicate TimedWindow(p: Profile, start: int) {
    p.timeNanos == start && p.durationNanos == 15_000_000_000
  }

  lemma DrainTimed(n: nat, s: State, starts: PprofBuilder.Starts, j: nat, resolve: int -> string)
    requires Shaped(n, s) && QueuesRight(n, s) && BuilderRight(s) && j < n && s.queues[j] != [] && Timed(s, starts)
    ensures Timed(DrainStep(s, j, resolve), starts)
  {
    HeadOfQueue(n, s, j);
    DrainTakesHead(n, s, j, resolve);
    var r := s.history.committed[j][|TakenFrom(Drained(s.history), j)|];
    var names := LookUp(s.names, r.stack, resolve);
    PprofBuilder.AddSampleCorrect(s.builder, LogOf(s.history.open, s.names), NameFrames(names, r.stack), 1);
  }

  lemma FlushTimed(s: State, starts: PprofBuilder.Starts, now: int)
    requires BuilderRight(s) && Timed(s, starts)
    ensures Timed(FlushStep(s, now), if s.history.open != [] then PprofBuilder.Starts(now, starts.closed + [starts.open]) else starts)
  {
    var log := LogOf(s.history.open, s.names);
    LogOfLength(s.history.open, s.names);
    PprofBuilder.EmptyTogether(PprofBuilder.Tables(s.builder), log);
    if s.history.open != [] { PprofBuilder.EncodeCorrect(s.builder, log); }
  }

  lemma StepTimed(n: nat, s: State, starts: PprofBuilder.Starts, e: Event)
    requires Shaped(n, s) && QueuesRight(n, s) && BuilderRight(s) && Timed(s, starts)
    ensures Timed(Step(n, s, e), if Sends(s, e) then PprofBuilder.Starts(e.now, starts.closed + [starts.open]) else starts)
  {
    if Drains(s, e) {
      DrainEvent(n, s, e);
      DrainTimed(n, s, starts, s.reader.shard, e.resolve);
    } else if EndsSweep(s, e) && e.due {
      FlushEvent(n, s, e.now);
      FlushTimed(s.(reader := Locking(0)), starts, e.now);
    } else {
      OthersKeepBuilder(n, s, e);
    }
  }

  /** In every run each profile that is sent says when its window began, and that it lasts fifteen seconds. */
  lemma {:induction false} RunTimed(n: nat, events: seq<Event>)
    requires 0 < n
    ensures Timed(Run(n, events), StartsOf(n, events))
  {
    if events != [] {
      var init := events[..|events| - 1];
      RunTimed(n, init);
      RunRight(n, init);
      RunStep(n, init, events);
      StepTimed(n, Run(n, init), StartsOf(n, init), events[|init|]);
    }
  }

  // -------------------------------------------------------------------- names

  /** The event closes the window, and the names are forgotten. */
  predicate Forgets(s: State, e: Event) {
    EndsSweep(s, e) && e.due
  }

  ghost predicate SameWindowSince(n: nat, events: seq<Event>, j: nat)
    requires 0 < n
  {
    forall i | j <= i < |events| :: !Forgets(Run(n, events[..i]), events[i])
  }

  /** With the j-th event the reader looked the code object up and got this name. */
  predicate LooksUp(e: Event, code: U64, name: string) {
    e.ReaderDrain? && e.resolve(code) == name
  }

  /** The reader got this name for the code object since the window was opened. */
  ghost predicate Resolved(n: nat, events: seq<Event>, code: U64, name: string)
    requires 0 < n
  {
    exists j :: 0 <= j < |events| && LooksUp(events[j], code, name) && SameWindowSince(n, events, j)
  }

  lemma SameWindowPush(n: nat, init: seq<Event>, events: seq<Event>, j: nat)
    requires 0 < n && SameWindowSince(n, init, j) && |events| == |init| + 1 && init == events[..|init|]
    requires !Forgets(Run(n, init), events[|init|])
    ensures SameWindowSince(n, events, j)
  {
    forall i | j <= i < |events| ensures !Forgets(Run(n, events[..i]), events[i]) {
      if i < |init| { assert init[..i] == events[..i] && init[i] == events[i]; }
    }
  }

  lemma ResolvedPush(n: nat, init: seq<Event>, events: seq<Event>, code: U64, name: string)
    requires 0 < n && |events| == |init| + 1 && init == events[..|init|] && Resolved(n, init, code, name)
    requires !Forgets(Run(n, init), events[|init|])
    ensures Resolved(n, events, code, name)
  {
    var j :| 0 <= j < |init| && LooksUp(init[j], code, name) && SameWindowSince(n, init, j);
    assert events[j] == init[j];
    SameWindowPush(n, init, events, j);
  }

  lemma JustResolved(n: nat, init: seq<Event>, events: seq<Event>, code: U64, name: string)
    requires 0 < n && |events| == |init| + 1 && init == events[..|init|]
    requires LooksUp(events[|init|], code, name)
    ensures Resolved(n, events, code, name)
  {
    SameWindowHere(n, init, events);
  }

  lemma SameWindowHere(n: nat, init: seq<Event>, events: seq<Event>)
    requires 0 < n && |events| == |init| + 1 && init == events[..|init|] && events[|init|].ReaderDrain?
    ensures SameWindowSince(n, events, |init|)
  {
  }

  lemma FlushForgets(n: nat, s: State, e: Event)
    requires Shaped(n, s) && Forgets(s, e)
    ensures Step(n, s, e).names == map[]
  {
    FlushEvent(n, s, e.now);
  }

  /** A step only adds names that it has looked up, and closing the window forgets all. */
  lemma NamesStep(n: nat, s: State, e: Event, code: U64)
    requires Shaped(n, s)
    ensures Forgets(s, e) ==> Step(n, s, e).names == map[]
    ensures code in Step(n, s, e).names ==>
      (code in s.names && Step(n, s, e).names[code] == s.names[code]) || LooksUp(e, code, Step(n, s, e).names[code])
  {
    if Drains(s, e) {
      DrainEvent(n, s, e);
      DrainNames(s, s.reader.shard, e.resolve);
    } else if Forgets(s, e) {
      FlushForgets(n, s, e);
    } else {
      OthersKeepBuilder(n, s, e);
    }
  }

  lemma DrainNames(s: State, j: nat, resolve: int -> string)
    requires j < |s.queues| && s.queues[j] != []
    ensures var after := DrainStep(s, j, resolve).names;
            forall code | code in after :: (code in s.names && after[code] == s.names[code]) || after[code] == resolve(code)
  {
    var parsed := ParseRecord(s.queues[j][0]);
    if parsed.Some? { LookUpCorrect(s.names, Frames(parsed.value), resolve); }
  }

  /** In every run each name in the cache is what the reader got for that code object since the last due flush. */
  lemma {:induction false} NamesAreResolved(n: nat, events: seq<Event>, code: U64)
    requires 0 < n && code in Run(n, events).names
    ensures Resolved(n, events, code, Run(n, events).names[code])
  {
    if events != [] {
      var init := events[..|events| - 1];
      var s, e := Run(n, init), events[|init|];
      RunStep(n, init, events);
      NamesStep(n, s, e, code);
      if code in s.names && Run(n, events).names[code] == s.names[code] {
        NamesAreResolved(n, init, code);
        ResolvedPush(n, init, events, code, s.names[code]);
      } else {
        JustResolved(n, init, events, code, Run(n, events).names[code]);
      }
    }
  }

  /** The window was closed with the f-th event, with the names and the samples of that moment. */
  ghost predicate ClosedAt(n: nat, events: seq<Event>, w: Window, f: nat)
    requires 0 < n && f < |events|
  {
    var s := Run(n, events[..f]);
    Sends(s, events[f]) && w.taken == s.history.open && w.names == s.names
  }

  ghost predicate Closed(n: nat, events: seq<Event>, w: Window)
    requires 0 < n
  {
    exists f :: 0 <= f < |events| && ClosedAt(n, events, w, f)
  }

  lemma ClosedPush(n: nat, init: seq<Event>, events: seq<Event>, w: Window)
    requires 0 < n && |events| == |init| + 1 && init == events[..|init|]
    requires Closed(n, init, w) || ClosedAt(n, events, w, |init|)
    ensures Closed(n, events, w)
  {
    if Closed(n, init, w) {
      var f :| 0 <= f < |init| && ClosedAt(n, init, w, f);
      assert init[..f] == events[..f] && init[f] == events[f];
      assert ClosedAt(n, events, w, f);
    }
  }

  /** In every run each window that was sent was closed by a due flush, with what had been taken and named by then. */
  lemma {:induction false} WindowsClosed(n: nat, events: seq<Event>, i: nat)
    requires 0 < n && i < |Run(n, events).history.sent|
    ensures Closed(n, events, Run(n, events).history.sent[i])
  {
    if events != [] {
      var init := events[..|events| - 1];
      RunStep(n, init, events);
      RunRight(n, init);
      SentStep(n, Run(n, init), events[|init|]);
      if i < |Run(n, init).history.sent| { WindowsClosed(n, init, i); }
      ClosedPush(n, init, events, Run(n, events).history.sent[i]);
    }
  }

  lemma SentStep(n: nat, s: State, e: Event)
    requires Shaped(n, s) && BuilderRight(s) && QueuesRight(n, s)
    ensures var before, after := s.history.sent, Step(n, s, e).history.sent;
            && before <= after && |after| == |before| + (if Sends(s, e) then 1 else 0)
            && (Sends(s, e) ==> after[|before|].taken == s.history.open && after[|before|].names == s.names)
  {
    if Drains(s, e) {
      DrainEvent(n, s, e);
    } else if EndsSweep(s, e) && e.due {
      FlushEvent(n, s, e.now);
      LogOfLength(s.history.open, s.names);
      PprofBuilder.EmptyTogether(PprofBuilder.Tables(s.builder), LogOf(s.history.open, s.names));
    } else {
      OthersKeepBuilder(n, s, e);
    }
  }

  // --------------------------------------------------------------- what is counted

  /** The frames are those of the stack: each code object under its name, without file or line. */
  ghost predicate Spells(names: map<U64, string>, stack: seq<RawFrame>, frames: seq<Frame>) {
    |frames| == |stack|
    && forall i | 0 <= i < |stack| :: stack[i].codeObject in names && frames[i] == Frame(names[stack[i].codeObject], "", 0, 0)
  }

  /** How often the reader took a stack with these frames. */
  ghost function TimesTaken(taken: seq<Taken>, names: map<U64, string>, frames: seq<Frame>): nat {
    if taken == [] then 0
    else
      TimesTaken(taken[..|taken| - 1], names, frames)
      + if Spells(names, taken[|taken| - 1].record.stack, frames) then 1 else 0
  }

  lemma {:induction false} NameFramesSpell(names: map<U64, string>, stack: seq<RawFrame>)
    requires Named(stack, names)
    ensures Spells(names, stack, PprofBuilder.FramesMeaning(NameFrames(names, stack)))
  {
    if stack != [] {
      var m := |stack| - 1;
      NameFramesSpell(names, stack[..m]);
      var frames := NameFrames(names, stack);
      assert frames == NameFrames(names, stack[..m]) + [PprofBuilder.StackFrame(names[stack[m].codeObject], "", 0)];
      assert frames[..|frames| - 1] == NameFrames(names, stack[..m]);
    }
  }

  lemma SpellsOnce(names: map<U64, string>, stack: seq<RawFrame>, frames: seq<Frame>, other: seq<Frame>)
    requires Spells(names, stack, frames)
    ensures Spells(names, stack, other) <==> other == frames
  {
  }

  lemma {:induction false} TotalIsTimes(taken: seq<Taken>, names: map<U64, string>, frames: seq<Frame>)
    requires forall i | 0 <= i < |taken| :: Named(taken[i].record.stack, names)
    ensures PprofBuilder.Total(LogOf(taken, names), frames) == TimesTaken(taken, names, frames)
  {
    if taken != [] {
      var init, last := taken[..|taken| - 1], taken[|taken| - 1];
      TotalIsTimes(init, names, frames);
      NameFramesSpell(names, last.record.stack);
      SpellsOnce(names, last.record.stack, PprofBuilder.FramesMeaning(NameFrames(names, last.record.stack)), frames);
      PprofBuilder.TotalPush(LogOf(init, names), PprofBuilder.Added(NameFrames(names, last.record.stack), 1), frames);
    }
  }

  /** A sample's value is ten milliseconds, in nanoseconds, for each time that its stack was taken. */
  ghost predicate ValueRight(w: Window, k: nat)
    requires k < |w.profile.samples|
  {
    var stack := PprofBuilder.StackOf(w.profile, k);
    && stack.Some? && w.profile.samples[k].labels == []
    && w.profile.samples[k].values == [I64.Wrap(10_000_000 * TimesTaken(w.taken, w.names, stack.value))]
  }

  /** Some sample has the frames of the stack. */
  ghost predicate HasSample(w: Window, stack: seq<RawFrame>) {
    exists k: nat :: k < |w.profile.samples| && SampleSpells(w, k, stack)
  }

  ghost predicate SampleSpells(w: Window, k: nat, stack: seq<RawFrame>)
    requires k < |w.profile.samples|
  {
    PprofBuilder.StackOf(w.profile, k).Some? && Spells(w.names, stack, PprofBuilder.StackOf(w.profile, k).value)
  }

  lemma WindowValue(w: Window, k: nat)
    requires WindowRight(w) && k < |w.profile.samples|
    ensures ValueRight(w, k)
  {
    var log := LogOf(w.taken, w.names);
    assert PprofBuilder.SampleRight(w.profile, log, k);
    TotalIsTimes(w.taken, w.names, PprofBuilder.StackOf(w.profile, k).value);
  }

  lemma {:induction false} LogOfAt(taken: seq<Taken>, names: map<U64, string>, j: nat)
    requires j < |taken|
    ensures |LogOf(taken, names)| == |taken| && LogOf(taken, names)[j].frames == NameFrames(names, taken[j].record.stack)
  {
    LogOfLength(taken, names);
    LogOfLength(taken[..|taken| - 1], names);
    if j < |taken| - 1 { LogOfAt(taken[..|taken| - 1], names, j); }
  }

  lemma WindowHasSample(w: Window, j: nat)
    requires WindowRight(w) && j < |w.taken|
    ensures HasSample(w, w.taken[j].record.stack)
  {
    var log, stack := LogOf(w.taken, w.names), w.taken[j].record.stack;
    LogOfAt(w.taken, w.names, j);
    NameFramesSpell(w.names, stack);
    assert PprofBuilder.Covered(w.profile, log[j].frames);
    var k :| 0 <= k < |w.profile.samples| && PprofBuilder.StackOf(w.profile, k) == Some(PprofBuilder.FramesMeaning(log[j].frames));
    assert SampleSpells(w, k, stack);
  }

  /** In every run each profile that is sent counts, per stack, how often it was taken in the window. */
  lemma SentCounts(n: nat, events: seq<Event>, i: nat)
    requires 0 < n && i < |Run(n, events).history.sent|
    ensures var w := Run(n, events).history.sent[i];
            && (forall k: nat | k < |w.profile.samples| :: ValueRight(w, k))
            && (forall j | 0 <= j < |w.taken| :: HasSample(w, w.taken[j].record.stack))
  {
    RunRight(n, events);
    var w := Run(n, events).history.sent[i];
    assert WindowRight(w);
    forall k: nat | k < |w.profile.samples| ensures ValueRight(w, k) { WindowValue(w, k); }
    forall j | 0 <= j < |w.taken| ensures HasSample(w, w.taken[j].record.stack) { WindowHasSample(w, j); }
  }
}
