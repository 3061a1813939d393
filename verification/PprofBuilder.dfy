/**
 The incremental encoder of kit/pprof_enc: samples are merged while they arrive,
 locations are keyed by their function alone, and the builder is reused after
 each flush.

 `Builder` is the state as a value and the functions on it are what the methods of
 the class `ProfileBuilder` compute. `Represents` says what the tables must mean for
 a log of added samples.
 */
module PprofBuilder {
  import opened Wrappers
  import opened ProfileFormat
  import opened Interning
  import I64

  datatype StackFrame = StackFrame(functionName: string, filename: string, firstLine: int)

  /** (name index, filename index, start line) */
  type FunctionKey = (int, int, int)

  datatype Builder = Builder(
    strings: seq<string>,
    stringIndex: map<string, int>,
    functions: seq<Function>,
    functionIndex: map<FunctionKey, int>,
    locations: seq<Location>,
    locationIndex: map<int, int>,
    samples: seq<Sample>,
    sampleIndex: map<seq<int>, int>,
    timeNanos: int,
    durationNanos: int,
    period: int)

  // -------------------------------------------------------------- operations

  function New(timeNanos: int, durationNanos: int, period: int): Builder {
    Builder([""], map["" := 0], [], map[], [], map[], [], map[], timeNanos, durationNanos, period)
  }

  function Intern(b: Builder, s: string): (Builder, int) {
    if s in b.stringIndex then (b, b.stringIndex[s])
    else
      var index := |b.strings|;
      (b.(strings := b.strings + [s], stringIndex := b.stringIndex[s := index]), index)
  }

  function InternFunction(b: Builder, frame: StackFrame): (Builder, int) {
    var (b1, name) := Intern(b, frame.functionName);
    var (b2, filename) := Intern(b1, frame.filename);
    InternKey(b2, (name, filename, frame.firstLine))
  }

  function InternKey(b: Builder, key: FunctionKey): (Builder, int) {
    if key in b.functionIndex then (b, b.functionIndex[key])
    else
      var id := |b.functions| + 1;
      (b.(functions := b.functions + [Function(id, key.0, 0, key.1, key.2)],
          functionIndex := b.functionIndex[key := id]), id)
  }

  function InternLocation(b: Builder, functionId: int, line: int): (Builder, int) {
    if functionId in b.locationIndex then (b, b.locationIndex[functionId])
    else
      var id := |b.locations| + 1;
      (b.(locations := b.locations + [Location(id, 0, 0, [Line(functionId, line)], false)],
          locationIndex := b.locationIndex[functionId := id]), id)
  }

  function InternFrame(b: Builder, frame: StackFrame): (Builder, int) {
    var (b1, functionId) := InternFunction(b, frame);
    InternLocation(b1, functionId, frame.firstLine)
  }

  function InternFrames(b: Builder, frames: seq<StackFrame>): (Builder, seq<int>) {
    if frames == [] then (b, [])
    else
      var (b1, ids) := InternFrames(b, frames[..|frames| - 1]);
      var (b2, id) := InternFrame(b1, frames[|frames| - 1]);
      (b2, ids + [id])
  }

  /** None is the out-of-bounds panic of `self.samples[idx]`. */
  function AddSample(b: Builder, frames: seq<StackFrame>, count: int): Option<Builder> {
    var (b1, ids) := InternFrames(b, frames);
    PutSample(b1, ids, I64.Wrap(count * b.period))
  }

  function PutSample(b: Builder, ids: seq<int>, value: int): Option<Builder> {
    if ids in b.sampleIndex then
      var index := b.sampleIndex[ids];
      if 0 <= index < |b.samples| && |b.samples[index].values| > 0 then
        var s := b.samples[index];
        var merged := s.(values := s.values[0 := I64.Wrap(s.values[0] + value)]);
        Some(b.(samples := b.samples[index := merged]))
      else None
    else
      Some(b.(samples := b.samples + [Sample(ids, [value], [])],
              sampleIndex := b.sampleIndex[ids := |b.samples|]))
  }

  /** The profile that the tables make up right now. */
  function Tables(b: Builder): Profile {
    Profile([], b.samples, b.locations, b.functions, b.strings, b.timeNanos, b.durationNanos, None, b.period)
  }

  /** Encoding moves the tables out and leaves every index as it was. */
  function Encode(b: Builder): (Builder, Profile) {
    var (b1, cpu) := Intern(b, "cpu");
    var (b2, nanoseconds) := Intern(b1, "nanoseconds");
    var kind := ValueType(cpu, nanoseconds);
    (b2.(samples := [], locations := [], functions := [], strings := []),
     Tables(b2).(sampleTypes := [kind], periodType := Some(kind)))
  }

  function Reset(b: Builder, timeNanos: int, durationNanos: int): Builder {
    New(timeNanos, durationNanos, b.period)
  }

  // ----------------------------------------------------------- what it means

  function FrameMeaning(f: StackFrame): Frame {
    Frame(f.functionName, f.filename, f.firstLine, f.firstLine)
  }

  function FramesMeaning(frames: seq<StackFrame>): (r: seq<Frame>)
    ensures |r| == |frames|
  {
    if frames == [] then []
    else FramesMeaning(frames[..|frames| - 1]) + [FrameMeaning(frames[|frames| - 1])]
  }

  /** One call of `add_sample`. */
  datatype Added = Added(frames: seq<StackFrame>, count: int)

  /** How often a stack was added. */
  function Total(log: seq<Added>, stack: seq<Frame>): int {
    if log == [] then 0
    else
      var last := log[|log| - 1];
      Total(log[..|log| - 1], stack) + if FramesMeaning(last.frames) == stack then last.count else 0
  }

  function StackOf(p: Profile, i: nat): Option<seq<Frame>>
    requires i < |p.samples|
  {
    ResolveStack(p, p.samples[i].locationIds)
  }

  /** The i-th sample is readable and its one value is the period times the stack's total. */
  ghost predicate SampleRight(p: Profile, log: seq<Added>, i: nat)
    requires i < |p.samples|
  {
    var stack := StackOf(p, i);
    && stack.Some?
    && p.samples[i].values == [I64.Wrap(p.period * Total(log, stack.value))]
    && p.samples[i].labels == []
  }

  ghost predicate Covered(p: Profile, frames: seq<StackFrame>) {
    exists i :: 0 <= i < |p.samples| && StackOf(p, i) == Some(FramesMeaning(frames))
  }

  ghost predicate Logged(log: seq<Added>, stack: seq<Frame>) {
    exists k :: 0 <= k < |log| && FramesMeaning(log[k].frames) == stack
  }

  /** The profile says exactly what the log says: one sample per stack that was added. */
  ghost predicate Represents(p: Profile, log: seq<Added>) {
    && (forall i | 0 <= i < |p.samples| :: SampleRight(p, log, i) && Logged(log, StackOf(p, i).value))
    && (forall i, j | 0 <= i < j < |p.samples| :: StackOf(p, i) != StackOf(p, j))
    && (forall k | 0 <= k < |log| :: Covered(p, log[k].frames))
  }

  // --------------------------------------------------------------- invariant

  function FunctionKeys(fs: seq<Function>): (r: seq<FunctionKey>)
    ensures |r| == |fs|
  {
    if fs == [] then []
    else
      var last := fs[|fs| - 1];
      FunctionKeys(fs[..|fs| - 1]) + [(last.name, last.filename, last.startLine)]
  }

  function LocationKeys(ls: seq<Location>): (r: seq<int>)
    ensures |r| == |ls|
  {
    if ls == [] then []
    else
      var last := ls[|ls| - 1];
      LocationKeys(ls[..|ls| - 1]) + [if |last.lines| == 1 then last.lines[0].functionId else 0]
  }

  function SampleKeys(samples: seq<Sample>): (r: seq<seq<int>>)
    ensures |r| == |samples|
  {
    if samples == [] then []
    else SampleKeys(samples[..|samples| - 1]) + [samples[|samples| - 1].locationIds]
  }

  ghost predicate LinkedFunctions(fs: seq<Function>, strings: nat) {
    fs == [] ||
    var last := fs[|fs| - 1];
    && LinkedFunctions(fs[..|fs| - 1], strings)
    && 0 <= last.name < strings && 0 <= last.filename < strings
    && last.id == |fs|
  }

  /** A location repeats the start line of its function, which is why the function alone can key it. */
  ghost predicate LinkedLocations(ls: seq<Location>, fs: seq<Function>) {
    ls == [] ||
    var last := ls[|ls| - 1];
    && LinkedLocations(ls[..|ls| - 1], fs)
    && |last.lines| == 1 && 1 <= last.lines[0].functionId <= |fs|
    && last.lines[0].line == fs[last.lines[0].functionId - 1].startLine
    && last.id == |ls|
  }

  ghost predicate Consistent(b: Builder) {
    && LinkedFunctions(b.functions, |b.strings|)
    && LinkedLocations(b.locations, b.functions)
    && Indexes(b.stringIndex, b.strings, 0)
    && Indexes(b.functionIndex, FunctionKeys(b.functions), 1)
    && Indexes(b.locationIndex, LocationKeys(b.locations), 1)
    && Indexes(b.sampleIndex, SampleKeys(b.samples), 0)
  }

  /** Interning only appends to the tables. */
  ghost predicate Grows(b: Builder, c: Builder) {
    && Extends(Tables(b), Tables(c))
    && c.samples == b.samples && c.sampleIndex == b.sampleIndex
    && c.period == b.period && c.timeNanos == b.timeNanos && c.durationNanos == b.durationNanos
  }

  lemma GrowsTransitive(a: Builder, b: Builder, c: Builder)
    requires Grows(a, b) && Grows(b, c)
    ensures Grows(a, c)
  {
  }

  lemma {:induction false} LinkedFunctionsMore(fs: seq<Function>, m: nat, n: nat)
    requires LinkedFunctions(fs, m) && m <= n
    ensures LinkedFunctions(fs, n)
  {
    if fs != [] { LinkedFunctionsMore(fs[..|fs| - 1], m, n); }
  }

  lemma {:induction false} LinkedLocationsMore(ls: seq<Location>, fs: seq<Function>, gs: seq<Function>)
    requires LinkedLocations(ls, fs) && fs <= gs
    ensures LinkedLocations(ls, gs)
  {
    if ls != [] { LinkedLocationsMore(ls[..|ls| - 1], fs, gs); }
  }

  lemma {:induction false} LinkedFunctionsAt(fs: seq<Function>, strings: nat)
    requires LinkedFunctions(fs, strings)
    ensures forall i | 0 <= i < |fs| ::
      && fs[i].id == i + 1 && 0 <= fs[i].name < strings && 0 <= fs[i].filename < strings
      && FunctionKeys(fs)[i] == (fs[i].name, fs[i].filename, fs[i].startLine)
  {
    if fs != [] { LinkedFunctionsAt(fs[..|fs| - 1], strings); }
  }

  lemma {:induction false} LinkedLocationsAt(ls: seq<Location>, fs: seq<Function>)
    requires LinkedLocations(ls, fs)
    ensures forall i | 0 <= i < |ls| ::
      && ls[i].id == i + 1 && |ls[i].lines| == 1
      && 1 <= ls[i].lines[0].functionId <= |fs|
      && LocationKeys(ls)[i] == ls[i].lines[0].functionId
      && ls[i].lines[0].line == fs[ls[i].lines[0].functionId - 1].startLine
  {
    if ls != [] { LinkedLocationsAt(ls[..|ls| - 1], fs); }
  }

  lemma FunctionAt(fs: seq<Function>, strings: nat, i: nat)
    requires LinkedFunctions(fs, strings) && i < |fs|
    ensures FindFunction(fs, i + 1) == Some(fs[i])
    ensures 0 <= fs[i].name < strings && 0 <= fs[i].filename < strings
    ensures FunctionKeys(fs)[i] == (fs[i].name, fs[i].filename, fs[i].startLine)
  {
    LinkedFunctionsAt(fs, strings);
    FindFunctionAt(fs, 1, i);
  }

  lemma LocationAt(ls: seq<Location>, fs: seq<Function>, i: nat, f: int)
    requires LinkedLocations(ls, fs) && i < |ls| && f == LocationKeys(ls)[i]
    ensures FindLocation(ls, i + 1) == Some(ls[i])
    ensures 1 <= f <= |fs| && ls[i].lines == [Line(f, fs[f - 1].startLine)]
  {
    LinkedLocationsAt(ls, fs);
    FindLocationAt(ls, 1, i);
    var l := ls[i].lines[0];
    assert ls[i].lines == [l] && l.functionId == f && l == Line(f, fs[f - 1].startLine);
  }

  /** What a reader gets for a location whose function and function key we know. */
  lemma ResolveKeys(b: Builder, id: int, functionId: int, key: FunctionKey)
    requires LinkedFunctions(b.functions, |b.strings|) && LinkedLocations(b.locations, b.functions)
    requires 1 <= id <= |b.locations| && LocationKeys(b.locations)[id - 1] == functionId
    requires 1 <= functionId <= |b.functions| && FunctionKeys(b.functions)[functionId - 1] == key
    ensures 0 <= key.0 < |b.strings| && 0 <= key.1 < |b.strings|
    ensures ResolveLocation(Tables(b), id) == Some(Frame(b.strings[key.0], b.strings[key.1], key.2, key.2))
  {
    LocationAt(b.locations, b.functions, id - 1, functionId);
    FunctionAt(b.functions, |b.strings|, functionId - 1);
    var l, f := b.locations[id - 1], b.functions[functionId - 1];
    assert l.lines[0] == Line(functionId, f.startLine);
    assert ResolveLine(Tables(b), l.lines[0]) == Some(Frame(b.strings[key.0], b.strings[key.1], key.2, key.2));
  }

  lemma LocationKeyRange(b: Builder, id: int)
    requires LinkedLocations(b.locations, b.functions) && 1 <= id <= |b.locations|
    ensures 1 <= LocationKeys(b.locations)[id - 1] <= |b.functions|
  {
    LocationAt(b.locations, b.functions, id - 1, LocationKeys(b.locations)[id - 1]);
  }

  lemma {:induction false} FindLocationRange(ls: seq<Location>, base: int, id: int)
    requires forall j | 0 <= j < |ls| :: ls[j].id == base + j
    ensures FindLocation(ls, id).Some? ==> base <= id < base + |ls|
  {
    if ls != [] && ls[0].id != id {
      forall j | 0 <= j < |ls[1..]| ensures ls[1..][j].id == base + 1 + j {
        assert ls[1..][j] == ls[j + 1];
      }
      FindLocationRange(ls[1..], base + 1, id);
    }
  }

  lemma LocationRange(b: Builder, id: int)
    requires Consistent(b) && ResolveLocation(Tables(b), id).Some?
    ensures 1 <= id <= |b.locations|
  {
    LinkedLocationsAt(b.locations, b.functions);
    FindLocationRange(b.locations, 1, id);
  }

  lemma SameSpelling(b: Builder, key: FunctionKey, other: FunctionKey)
    requires Consistent(b)
    requires StringAt(Tables(b), key.0).Some? && StringAt(Tables(b), key.0) == StringAt(Tables(b), other.0)
    requires StringAt(Tables(b), key.1).Some? && StringAt(Tables(b), key.1) == StringAt(Tables(b), other.1)
    requires key.2 == other.2
    ensures key == other
  {
    DistinctAt(b.strings, key.0, other.0);
    DistinctAt(b.strings, key.1, other.1);
  }

  /** No two locations mean the same frame. */
  lemma ResolveInjective(b: Builder, i: int, j: int)
    requires Consistent(b)
    requires ResolveLocation(Tables(b), i).Some? && ResolveLocation(Tables(b), i) == ResolveLocation(Tables(b), j)
    ensures i == j
  {
    LocationRange(b, i);
    LocationRange(b, j);
    LocationKeyRange(b, i);
    LocationKeyRange(b, j);
    var f, g := LocationKeys(b.locations)[i - 1], LocationKeys(b.locations)[j - 1];
    var key, other := FunctionKeys(b.functions)[f - 1], FunctionKeys(b.functions)[g - 1];
    ResolveKeys(b, i, f, key);
    ResolveKeys(b, j, g, other);
    SameSpelling(b, key, other);
    DistinctAt(FunctionKeys(b.functions), f - 1, g - 1);
    DistinctAt(LocationKeys(b.locations), i - 1, j - 1);
  }

  /** Equal stacks are equal location sequences. */
  lemma {:induction false} StackInjective(b: Builder, ids: seq<int>, jds: seq<int>)
    requires Consistent(b)
    requires ResolveStack(Tables(b), ids).Some? && ResolveStack(Tables(b), ids) == ResolveStack(Tables(b), jds)
    ensures ids == jds
  {
    assert |ids| == |ResolveStack(Tables(b), ids).value| == |jds|;
    if ids != [] {
      var n := |ids| - 1;
      var x, y := ResolveStack(Tables(b), ids).value, ResolveStack(Tables(b), jds).value;
      assert x[..n] == y[..n] && x[n] == y[n];
      StackInjective(b, ids[..n], jds[..n]);
      ResolveInjective(b, ids[n], jds[n]);
      assert ids == ids[..n] + [ids[n]] && jds == jds[..n] + [jds[n]];
    }
  }

  // ------------------------------------------------- what each operation keeps

  lemma NewCorrect(timeNanos: int, durationNanos: int, period: int)
    ensures Consistent(New(timeNanos, durationNanos, period))
    ensures Represents(Tables(New(timeNanos, durationNanos, period)), [])
  {
    assert Numbering([""], 0) == map["" := 0] by { assert [""][..0] == []; }
    assert Distinct([""]) by { assert [""][..0] == []; }
  }

  lemma InternCorrect(b: Builder, s: string)
    requires Consistent(b)
    ensures var (c, index) := Intern(b, s);
            && Consistent(c) && Grows(b, c) && StringAt(Tables(c), index) == Some(s)
            && c == b.(strings := c.strings, stringIndex := c.stringIndex)
  {
    Lookup(b.stringIndex, b.strings, 0, s);
    if s !in b.stringIndex {
      IndexesPush(b.stringIndex, b.strings, 0, s);
      LinkedFunctionsMore(b.functions, |b.strings|, |b.strings| + 1);
    }
  }

  lemma FunctionPushed(b: Builder, key: FunctionKey)
    requires Consistent(b) && key !in FunctionKeys(b.functions)
    requires 0 <= key.0 < |b.strings| && 0 <= key.1 < |b.strings|
    ensures var id := |b.functions| + 1; var fs := b.functions + [Function(id, key.0, 0, key.1, key.2)];
            && Consistent(b.(functions := fs, functionIndex := b.functionIndex[key := id]))
            && FunctionKeys(fs) == FunctionKeys(b.functions) + [key]
  {
    var fs := b.functions + [Function(|b.functions| + 1, key.0, 0, key.1, key.2)];
    assert fs[..|b.functions|] == b.functions;
    IndexesPush(b.functionIndex, FunctionKeys(b.functions), 1, key);
    LinkedLocationsMore(b.locations, b.functions, fs);
  }

  lemma LocationPushed(b: Builder, functionId: int, line: int)
    requires Consistent(b) && functionId !in LocationKeys(b.locations)
    requires 1 <= functionId <= |b.functions| && b.functions[functionId - 1].startLine == line
    ensures var id := |b.locations| + 1; var ls := b.locations + [Location(id, 0, 0, [Line(functionId, line)], false)];
            && Consistent(b.(locations := ls, locationIndex := b.locationIndex[functionId := id]))
            && LocationKeys(ls) == LocationKeys(b.locations) + [functionId]
  {
    var ls := b.locations + [Location(|b.locations| + 1, 0, 0, [Line(functionId, line)], false)];
    assert ls[..|b.locations|] == b.locations;
    IndexesPush(b.locationIndex, LocationKeys(b.locations), 1, functionId);
  }

  /** The key under which a frame's function is found spells the frame. */
  ghost predicate KeySpells(b: Builder, key: FunctionKey, frame: StackFrame) {
    StringAt(Tables(b), key.0) == Some(frame.functionName)
    && StringAt(Tables(b), key.1) == Some(frame.filename)
    && key.2 == frame.firstLine
  }

  lemma InternKeyGrows(b: Builder, key: FunctionKey)
    ensures Grows(b, InternKey(b, key).0) && InternKey(b, key).0.strings == b.strings
  {
  }

  lemma InternKeyCorrect(b: Builder, key: FunctionKey)
    requires Consistent(b) && 0 <= key.0 < |b.strings| && 0 <= key.1 < |b.strings|
    ensures var (c, id) := InternKey(b, key);
            && Consistent(c)
            && 1 <= id <= |c.functions| && FunctionKeys(c.functions)[id - 1] == key
  {
    Lookup(b.functionIndex, FunctionKeys(b.functions), 1, key);
    if key !in b.functionIndex { FunctionPushed(b, key); }
  }

  lemma SpelledKey(b: Builder, b2: Builder, key: FunctionKey, frame: StackFrame, c: Builder, id: int)
    requires Consistent(b2) && Grows(b, b2) && KeySpells(b2, key, frame) && (c, id) == InternKey(b2, key)
    ensures Consistent(c) && Grows(b, c)
    ensures 1 <= id <= |c.functions| && KeySpells(c, FunctionKeys(c.functions)[id - 1], frame)
  {
    InternKeyCorrect(b2, key);
    InternKeyGrows(b2, key);
    GrowsTransitive(b, b2, c);
    SpellsKept(b2, c, key, FunctionKeys(c.functions)[id - 1], frame);
  }

  lemma SpellsKept(b: Builder, c: Builder, key: FunctionKey, other: FunctionKey, frame: StackFrame)
    requires KeySpells(b, key, frame) && c.strings == b.strings && other == key
    ensures KeySpells(c, other, frame)
  {
  }

  lemma InternFunctionCorrect(b: Builder, frame: StackFrame, c: Builder, id: int)
    requires Consistent(b) && (c, id) == InternFunction(b, frame)
    ensures Consistent(c) && Grows(b, c)
    ensures 1 <= id <= |c.functions| && KeySpells(c, FunctionKeys(c.functions)[id - 1], frame)
  {
    var (b1, name) := Intern(b, frame.functionName);
    InternCorrect(b, frame.functionName);
    var (b2, filename) := Intern(b1, frame.filename);
    InternCorrect(b1, frame.filename);
    assert StringAt(Tables(b2), name) == Some(frame.functionName);
    GrowsTransitive(b, b1, b2);
    SpelledKey(b, b2, (name, filename, frame.firstLine), frame, c, id);
  }

  lemma ResolveSpelled(b: Builder, c: Builder, id: int, functionId: int, key: FunctionKey, frame: StackFrame)
    requires Consistent(c) && c.functions == b.functions && c.strings == b.strings
    requires 1 <= id <= |c.locations| && LocationKeys(c.locations)[id - 1] == functionId
    requires 1 <= functionId <= |b.functions| && FunctionKeys(b.functions)[functionId - 1] == key
    requires KeySpells(b, key, frame)
    ensures ResolveLocation(Tables(c), id) == Some(FrameMeaning(frame))
  {
    assert FunctionKeys(c.functions)[functionId - 1] == key;
    ResolveKeys(c, id, functionId, key);
  }

  lemma InternLocationGrows(b: Builder, functionId: int, line: int)
    ensures var c := InternLocation(b, functionId, line).0;
            Grows(b, c) && c.functions == b.functions && c.strings == b.strings
  {
  }

  lemma InternLocationKeeps(b: Builder, functionId: int, line: int, c: Builder, id: int)
    requires Consistent(b)
    requires 1 <= functionId <= |b.functions| && FunctionKeys(b.functions)[functionId - 1].2 == line
    requires (c, id) == InternLocation(b, functionId, line)
    ensures Consistent(c)
    ensures 1 <= id <= |c.locations| && LocationKeys(c.locations)[id - 1] == functionId
  {
    Lookup(b.locationIndex, LocationKeys(b.locations), 1, functionId);
    if functionId in b.locationIndex {
      assert c == b;
    } else {
      NewLocation(b, functionId, line, c, id);
    }
  }

  lemma NewLocation(b: Builder, functionId: int, line: int, c: Builder, id: int)
    requires Consistent(b) && functionId !in LocationKeys(b.locations) && functionId !in b.locationIndex
    requires 1 <= functionId <= |b.functions| && FunctionKeys(b.functions)[functionId - 1].2 == line
    requires (c, id) == InternLocation(b, functionId, line)
    ensures Consistent(c) && id == |c.locations| > 0 && LocationKeys(c.locations)[id - 1] == functionId
  {
    FunctionAt(b.functions, |b.strings|, functionId - 1);
    LocationPushed(b, functionId, line);
    LastLocationKey(c.locations, LocationKeys(b.locations), functionId);
  }

  lemma LastLocationKey(ls: seq<Location>, keys: seq<int>, functionId: int)
    requires LocationKeys(ls) == keys + [functionId]
    ensures |ls| == |keys| + 1 && LocationKeys(ls)[|ls| - 1] == functionId
  {
  }

  lemma InternFrameCorrect(b: Builder, frame: StackFrame)
    requires Consistent(b)
    ensures var (c, id) := InternFrame(b, frame);
            Consistent(c) && Grows(b, c) && ResolveLocation(Tables(c), id) == Some(FrameMeaning(frame))
  {
    var (b1, functionId) := InternFunction(b, frame);
    InternFunctionCorrect(b, frame, b1, functionId);
    var key := FunctionKeys(b1.functions)[functionId - 1];
    var (c, id) := InternLocation(b1, functionId, frame.firstLine);
    InternLocationGrows(b1, functionId, frame.firstLine);
    InternLocationKeeps(b1, functionId, frame.firstLine, c, id);
    ResolveSpelled(b1, c, id, functionId, key, frame);
    GrowsTransitive(b, b1, c);
  }

  lemma {:induction false} InternFramesCorrect(b: Builder, frames: seq<StackFrame>)
    requires Consistent(b)
    ensures var (c, ids) := InternFrames(b, frames);
            Consistent(c) && Grows(b, c) && ResolveStack(Tables(c), ids) == Some(FramesMeaning(frames))
  {
    if frames != [] {
      var n := |frames| - 1;
      InternFramesCorrect(b, frames[..n]);
      var (b1, ids) := InternFrames(b, frames[..n]);
      InternFrameCorrect(b1, frames[n]);
      var (b2, id) := InternFrame(b1, frames[n]);
      GrowsTransitive(b, b1, b2);
      ResolveStackExtend(Tables(b1), Tables(b2), ids);
      ResolveStackPush(Tables(b2), ids, id);
    }
  }

  /** Longer tables say the same about the same log. */
  lemma RepresentsGrows(b: Builder, c: Builder, log: seq<Added>)
    requires Represents(Tables(b), log) && Grows(b, c)
    ensures Represents(Tables(c), log)
  {
    var p, q := Tables(b), Tables(c);
    forall i | 0 <= i < |p.samples| ensures StackOf(q, i) == StackOf(p, i) {
      assert SampleRight(p, log, i);
      ResolveStackExtend(p, q, p.samples[i].locationIds);
    }
    forall k | 0 <= k < |log| ensures Covered(q, log[k].frames) {
      var i :| 0 <= i < |p.samples| && StackOf(p, i) == Some(FramesMeaning(log[k].frames));
      assert StackOf(q, i) == StackOf(p, i);
    }
    forall i | 0 <= i < |q.samples| ensures SampleRight(q, log, i) && Logged(log, StackOf(q, i).value) {
      assert SampleRight(p, log, i) && StackOf(q, i) == StackOf(p, i);
    }
  }

  lemma {:induction false} TotalUnlogged(log: seq<Added>, stack: seq<Frame>)
    requires !Logged(log, stack)
    ensures Total(log, stack) == 0
  {
    if log != [] {
      var n := |log| - 1;
      assert FramesMeaning(log[n].frames) != stack;
      assert !Logged(log[..n], stack) by {
        forall k | 0 <= k < n ensures FramesMeaning(log[..n][k].frames) != stack {
          assert log[..n][k] == log[k];
        }
      }
      TotalUnlogged(log[..n], stack);
    }
  }

  lemma TotalPush(log: seq<Added>, a: Added, stack: seq<Frame>)
    ensures Total(log + [a], stack) == Total(log, stack) + if FramesMeaning(a.frames) == stack then a.count else 0
  {
    assert (log + [a])[..|log|] == log;
  }

  lemma LoggedPush(log: seq<Added>, a: Added, stack: seq<Frame>)
    requires Logged(log, stack) || FramesMeaning(a.frames) == stack
    ensures Logged(log + [a], stack)
  {
    if Logged(log, stack) {
      var k :| 0 <= k < |log| && FramesMeaning(log[k].frames) == stack;
      assert (log + [a])[k] == log[k];
    } else {
      assert (log + [a])[|log|] == a;
    }
  }

  /** The merged value is the period times the new total. */
  lemma MergedValue(period: int, total: int, count: int)
    ensures I64.Wrap(I64.Wrap(period * total) + I64.Wrap(count * period)) == I64.Wrap(period * (total + count))
  {
    I64.WrapSum(period * total, count * period);
    assert period * total + count * period == period * (total + count);
  }

  lemma {:induction false} SampleKeysAt(samples: seq<Sample>)
    ensures forall i | 0 <= i < |samples| :: SampleKeys(samples)[i] == samples[i].locationIds
  {
    if samples != [] { SampleKeysAt(samples[..|samples| - 1]); }
  }

  lemma {:induction false} SampleKeysUpdate(samples: seq<Sample>, i: nat, s: Sample)
    requires i < |samples| && s.locationIds == samples[i].locationIds
    ensures SampleKeys(samples[i := s]) == SampleKeys(samples)
  {
    var n := |samples| - 1;
    if i < n {
      SampleKeysUpdate(samples[..n], i, s);
      assert samples[i := s][..n] == samples[..n][i := s];
    } else {
      assert samples[i := s][..n] == samples[..n];
    }
  }

  /** A stack reads the same whatever the samples are. */
  lemma StacksIgnoreSamples(p: Profile, samples: seq<Sample>, ids: seq<int>)
    requires ResolveStack(p, ids).Some?
    ensures ResolveStack(p.(samples := samples), ids) == ResolveStack(p, ids)
  {
    ResolveStackExtend(p, p.(samples := samples), ids);
  }

  lemma SampleRightPush(p: Profile, q: Profile, log: seq<Added>, a: Added, i: nat)
    requires i < |p.samples| && i < |q.samples| && SampleRight(p, log, i) && Logged(log, StackOf(p, i).value)
    requires StackOf(q, i) == StackOf(p, i) && q.period == p.period && q.samples[i].labels == []
    requires q.samples[i].values ==
      if StackOf(p, i).value == FramesMeaning(a.frames)
      then [I64.Wrap(p.samples[i].values[0] + I64.Wrap(a.count * p.period))] else p.samples[i].values
    ensures SampleRight(q, log + [a], i) && Logged(log + [a], StackOf(q, i).value)
  {
    var stack := StackOf(p, i).value;
    TotalPush(log, a, stack);
    LoggedPush(log, a, stack);
    MergedValue(p.period, Total(log, stack), a.count);
  }

  /** Replacing or appending samples leaves the stacks of the others alone. */
  lemma StacksKept(p: Profile, q: Profile, log: seq<Added>)
    requires forall j | 0 <= j < |p.samples| :: SampleRight(p, log, j)
    requires q == p.(samples := q.samples) && |p.samples| <= |q.samples|
    requires forall j | 0 <= j < |p.samples| :: q.samples[j].locationIds == p.samples[j].locationIds
    ensures forall j | 0 <= j < |p.samples| :: StackOf(q, j) == StackOf(p, j)
  {
    forall j | 0 <= j < |p.samples| ensures StackOf(q, j) == StackOf(p, j) {
      assert SampleRight(p, log, j);
      StacksIgnoreSamples(p, q.samples, p.samples[j].locationIds);
    }
  }

  lemma MergedMeans(p: Profile, q: Profile, log: seq<Added>, a: Added, i: nat)
    requires Represents(p, log) && i < |p.samples| && StackOf(p, i) == Some(FramesMeaning(a.frames))
    requires q == p.(samples := q.samples) && |q.samples| == |p.samples|
    requires forall j | 0 <= j < |p.samples| && j != i :: q.samples[j] == p.samples[j]
    requires var s := p.samples[i];
             q.samples[i] == s.(values := [I64.Wrap(s.values[0] + I64.Wrap(a.count * p.period))])
    ensures Represents(q, log + [a])
  {
    StacksKept(p, q, log);
    forall j | 0 <= j < |q.samples| ensures SampleRight(q, log + [a], j) && Logged(log + [a], StackOf(q, j).value) {
      assert SampleRight(p, log, j) && StackOf(q, j) == StackOf(p, j);
      if j != i { assert StackOf(p, j) != StackOf(p, i); }
      SampleRightPush(p, q, log, a, j);
    }
    CoveredPush(p, q, log, a, i);
  }

  lemma MergedRight(b: Builder, log: seq<Added>, a: Added, ids: seq<int>, c: Builder, i: nat)
    requires Consistent(b) && Represents(Tables(b), log) && i < |b.samples|
    requires ResolveStack(Tables(b), ids) == Some(FramesMeaning(a.frames))
    requires b.samples[i].locationIds == ids && |b.samples[i].values| == 1
    requires var s := b.samples[i];
             c == b.(samples := b.samples[i := s.(values := [I64.Wrap(s.values[0] + I64.Wrap(a.count * b.period))])])
    ensures Consistent(c) && Represents(Tables(c), log + [a])
  {
    SampleKeysUpdate(b.samples, i, c.samples[i]);
    MergedMeans(Tables(b), Tables(c), log, a, i);
  }

  lemma CoveredPush(p: Profile, q: Profile, log: seq<Added>, a: Added, i: nat)
    requires forall k | 0 <= k < |log| :: Covered(p, log[k].frames)
    requires |p.samples| <= |q.samples| && forall j | 0 <= j < |p.samples| :: StackOf(q, j) == StackOf(p, j)
    requires i < |q.samples| && StackOf(q, i) == Some(FramesMeaning(a.frames))
    ensures forall k | 0 <= k < |log + [a]| :: Covered(q, (log + [a])[k].frames)
  {
    forall k | 0 <= k < |log + [a]| ensures Covered(q, (log + [a])[k].frames) {
      if k < |log| {
        assert Covered(p, log[k].frames);
        var j :| 0 <= j < |p.samples| && StackOf(p, j) == Some(FramesMeaning(log[k].frames));
        assert StackOf(q, j) == StackOf(p, j);
      }
    }
  }

  /** A location sequence that is no sample's yet is a stack that is no sample's yet. */
  lemma AppendedStack(b: Builder, log: seq<Added>, frames: seq<StackFrame>, ids: seq<int>, j: nat)
    requires Consistent(b) && j < |b.samples| && SampleRight(Tables(b), log, j)
    requires ResolveStack(Tables(b), ids) == Some(FramesMeaning(frames)) && ids !in b.sampleIndex
    ensures StackOf(Tables(b), j) != Some(FramesMeaning(frames))
  {
    Lookup(b.sampleIndex, SampleKeys(b.samples), 0, ids);
    SampleKeysAt(b.samples);
    assert b.samples[j].locationIds in SampleKeys(b.samples);
    if StackOf(Tables(b), j) == Some(FramesMeaning(frames)) {
      StackInjective(b, b.samples[j].locationIds, ids);
      assert false;
    }
  }

  lemma AppendedConsistent(b: Builder, ids: seq<int>, s: Sample)
    requires Consistent(b) && ids !in b.sampleIndex && s.locationIds == ids
    ensures Consistent(b.(samples := b.samples + [s], sampleIndex := b.sampleIndex[ids := |b.samples|]))
  {
    Lookup(b.sampleIndex, SampleKeys(b.samples), 0, ids);
    IndexesPush(b.sampleIndex, SampleKeys(b.samples), 0, ids);
    assert (b.samples + [s])[..|b.samples|] == b.samples;
  }

  lemma LastRight(q: Profile, log: seq<Added>, a: Added, n: nat)
    requires n < |q.samples| && StackOf(q, n) == Some(FramesMeaning(a.frames)) && !Logged(log, FramesMeaning(a.frames))
    requires q.samples[n].values == [I64.Wrap(a.count * q.period)] && q.samples[n].labels == []
    ensures SampleRight(q, log + [a], n) && Logged(log + [a], StackOf(q, n).value)
  {
    var stack := FramesMeaning(a.frames);
    TotalUnlogged(log, stack);
    TotalPush(log, a, stack);
    LoggedPush(log, a, stack);
    FirstValue(q.period, Total(log + [a], stack), a.count);
  }

  lemma FirstValue(period: int, total: int, count: int)
    requires total == count
    ensures I64.Wrap(count * period) == I64.Wrap(period * total)
  {
    assert count * period == period * total;
  }

  lemma AppendedEach(p: Profile, q: Profile, log: seq<Added>, a: Added, j: nat)
    requires Represents(p, log) && !Logged(log, FramesMeaning(a.frames)) && j <= |p.samples| < |q.samples|
    requires q.period == p.period && (j < |p.samples| ==> q.samples[j] == p.samples[j] && StackOf(q, j) == StackOf(p, j))
    requires j == |p.samples| ==> StackOf(q, j) == Some(FramesMeaning(a.frames))
    requires j == |p.samples| ==> q.samples[j].values == [I64.Wrap(a.count * q.period)] && q.samples[j].labels == []
    ensures SampleRight(q, log + [a], j) && Logged(log + [a], StackOf(q, j).value)
  {
    if j < |p.samples| {
      assert SampleRight(p, log, j) && Logged(log, StackOf(p, j).value);
      SampleRightPush(p, q, log, a, j);
    } else {
      LastRight(q, log, a, j);
    }
  }

  lemma AppendedDistinct(p: Profile, q: Profile, stack: seq<Frame>)
    requires forall i, j | 0 <= i < j < |p.samples| :: StackOf(p, i) != StackOf(p, j)
    requires |q.samples| == |p.samples| + 1 && StackOf(q, |p.samples|) == Some(stack)
    requires forall j | 0 <= j < |p.samples| :: StackOf(q, j) == StackOf(p, j) && StackOf(p, j) != Some(stack)
    ensures forall i, j | 0 <= i < j < |q.samples| :: StackOf(q, i) != StackOf(q, j)
  {
  }

  lemma AppendedStacks(p: Profile, q: Profile, log: seq<Added>, ids: seq<int>, stack: seq<Frame>, s: Sample)
    requires forall j | 0 <= j < |p.samples| :: SampleRight(p, log, j)
    requires ResolveStack(p, ids) == Some(stack) && s.locationIds == ids && q == p.(samples := p.samples + [s])
    ensures forall j | 0 <= j < |p.samples| :: StackOf(q, j) == StackOf(p, j)
    ensures StackOf(q, |p.samples|) == Some(stack)
  {
    StacksKept(p, q, log);
    StacksIgnoreSamples(p, q.samples, ids);
  }

  lemma AppendedMeans(p: Profile, q: Profile, log: seq<Added>, a: Added, ids: seq<int>)
    requires Represents(p, log)
    requires forall j | 0 <= j < |p.samples| :: StackOf(p, j) != Some(FramesMeaning(a.frames))
    requires ResolveStack(p, ids) == Some(FramesMeaning(a.frames))
    requires q == p.(samples := p.samples + [Sample(ids, [I64.Wrap(a.count * p.period)], [])])
    ensures Represents(q, log + [a])
  {
    var n, stack := |p.samples|, FramesMeaning(a.frames);
    AppendedStacks(p, q, log, ids, stack, q.samples[n]);
    NewIsUnlogged(p, log, a);
    forall j | 0 <= j < |q.samples| ensures SampleRight(q, log + [a], j) && Logged(log + [a], StackOf(q, j).value) {
      AppendedEach(p, q, log, a, j);
    }
    AppendedDistinct(p, q, stack);
    CoveredPush(p, q, log, a, n);
  }

  lemma AppendedRight(b: Builder, log: seq<Added>, a: Added, ids: seq<int>, c: Builder)
    requires Consistent(b) && Represents(Tables(b), log)
    requires ResolveStack(Tables(b), ids) == Some(FramesMeaning(a.frames)) && ids !in b.sampleIndex
    requires c == b.(samples := b.samples + [Sample(ids, [I64.Wrap(a.count * b.period)], [])],
                     sampleIndex := b.sampleIndex[ids := |b.samples|])
    ensures Consistent(c) && Represents(Tables(c), log + [a])
  {
    AppendedConsistent(b, ids, c.samples[|b.samples|]);
    var p := Tables(b);
    forall j | 0 <= j < |p.samples| ensures StackOf(p, j) != Some(FramesMeaning(a.frames)) {
      assert SampleRight(p, log, j);
      AppendedStack(b, log, a.frames, ids, j);
    }
    AppendedMeans(p, Tables(c), log, a, ids);
  }

  lemma NewIsUnlogged(p: Profile, log: seq<Added>, a: Added)
    requires Represents(p, log)
    requires forall j | 0 <= j < |p.samples| :: StackOf(p, j) != Some(FramesMeaning(a.frames))
    ensures !Logged(log, FramesMeaning(a.frames))
  {
    forall k | 0 <= k < |log| ensures FramesMeaning(log[k].frames) != FramesMeaning(a.frames) {
      assert Covered(p, log[k].frames);
    }
  }

  /** The two cases of putting a sample, with the value it puts. */
  lemma PutMerged(b: Builder, ids: seq<int>, value: int, i: nat)
    requires ids in b.sampleIndex && b.sampleIndex[ids] == i && i < |b.samples| && |b.samples[i].values| == 1
    ensures var s := b.samples[i];
            PutSample(b, ids, value) == Some(b.(samples := b.samples[i := s.(values := [I64.Wrap(s.values[0] + value)])]))
  {
    var v := I64.Wrap(b.samples[i].values[0] + value);
    assert b.samples[i].values[0 := v] == [v];
  }

  lemma KnownSample(b: Builder, log: seq<Added>, ids: seq<int>)
    requires Consistent(b) && Represents(Tables(b), log) && ids in b.sampleIndex
    ensures var i := b.sampleIndex[ids];
            0 <= i < |b.samples| && b.samples[i].locationIds == ids && |b.samples[i].values| == 1
  {
    Lookup(b.sampleIndex, SampleKeys(b.samples), 0, ids);
    SampleKeysAt(b.samples);
    assert SampleRight(Tables(b), log, b.sampleIndex[ids]);
  }

  ghost predicate PutRight(put: Option<Builder>, log: seq<Added>) {
    put.Some? && Consistent(put.value) && Represents(Tables(put.value), log)
  }

  lemma PutSampleCorrect(b: Builder, log: seq<Added>, a: Added, ids: seq<int>)
    requires Consistent(b) && Represents(Tables(b), log) && ResolveStack(Tables(b), ids) == Some(FramesMeaning(a.frames))
    ensures PutRight(PutSample(b, ids, I64.Wrap(a.count * b.period)), log + [a])
  {
    var value := I64.Wrap(a.count * b.period);
    if ids in b.sampleIndex {
      KnownSample(b, log, ids);
      var i := b.sampleIndex[ids];
      var s := b.samples[i];
      var c := b.(samples := b.samples[i := s.(values := [I64.Wrap(s.values[0] + value)])]);
      PutMerged(b, ids, value, i);
      MergedRight(b, log, a, ids, c, i);
    } else {
      var c := b.(samples := b.samples + [Sample(ids, [value], [])], sampleIndex := b.sampleIndex[ids := |b.samples|]);
      AppendedRight(b, log, a, ids, c);
    }
  }

  lemma PutSampleFrame(b: Builder, ids: seq<int>, value: int)
    requires PutSample(b, ids, value).Some?
    ensures var c := PutSample(b, ids, value).value;
            c == b.(samples := c.samples, sampleIndex := c.sampleIndex) && c.samples != []
  {
  }

  /** Adding a sample never fails and keeps the tables equal in meaning to the log. */
  lemma AddSampleCorrect(b: Builder, log: seq<Added>, frames: seq<StackFrame>, count: int)
    requires Consistent(b) && Represents(Tables(b), log)
    ensures AddSample(b, frames, count).Some?
    ensures var c := AddSample(b, frames, count).value;
            && Consistent(c) && Represents(Tables(c), log + [Added(frames, count)])
            && c.period == b.period && c.timeNanos == b.timeNanos && c.durationNanos == b.durationNanos
            && c.samples != [] && b.strings <= c.strings
  {
    InternFramesCorrect(b, frames);
    var (b1, ids) := InternFrames(b, frames);
    RepresentsGrows(b, b1, log);
    PutSampleCorrect(b1, log, Added(frames, count), ids);
    PutSampleFrame(b1, ids, I64.Wrap(count * b.period));
  }

  // -------------------------------------------------------------------- runs

  /** What the reader does every fifteen seconds: encode, send, reset; an empty builder is left alone. */
  function Flush(b: Builder, now: int): (Builder, Option<Profile>) {
    if b.samples == [] then (b, None)
    else
      var (b1, p) := Encode(b);
      (Reset(b1, now, 15_000_000_000), Some(p))
  }

  /** A sent profile is well formed and says what the log says. */
  ghost predicate Faithful(p: Profile, log: seq<Added>) {
    && Represents(p, log)
    && p.strings != [] && p.strings[0] == "" && Distinct(p.strings) && NumberedIds(p)
    && |p.sampleTypes| == 1 && p.periodType == Some(p.sampleTypes[0])
    && StringAt(p, p.sampleTypes[0].kind) == Some("cpu")
    && StringAt(p, p.sampleTypes[0].unit) == Some("nanoseconds")
  }

  lemma EncodeCorrect(b: Builder, log: seq<Added>)
    requires Consistent(b) && Represents(Tables(b), log) && [""] <= b.strings
    ensures Faithful(Encode(b).1, log)
    ensures var p := Encode(b).1;
            p.period == b.period && p.timeNanos == b.timeNanos && p.durationNanos == b.durationNanos
  {
    var (b1, cpu) := Intern(b, "cpu");
    InternCorrect(b, "cpu");
    RepresentsGrows(b, b1, log);
    var (b2, nanoseconds) := Intern(b1, "nanoseconds");
    InternCorrect(b1, "nanoseconds");
    RepresentsGrows(b1, b2, log);
    EncodedFaithful(b2, log, Encode(b).1, cpu, nanoseconds);
  }

  lemma EncodedFaithful(b: Builder, log: seq<Added>, p: Profile, cpu: int, nanoseconds: int)
    requires Consistent(b) && Represents(Tables(b), log) && [""] <= b.strings
    requires StringAt(Tables(b), cpu) == Some("cpu") && StringAt(Tables(b), nanoseconds) == Some("nanoseconds")
    requires var kind := ValueType(cpu, nanoseconds); p == Tables(b).(sampleTypes := [kind], periodType := Some(kind))
    ensures Faithful(p, log)
  {
    RepresentsHeader(Tables(b), p, log);
    LinkedFunctionsAt(b.functions, |b.strings|);
    LinkedLocationsAt(b.locations, b.functions);
  }

  lemma RepresentsHeader(p: Profile, q: Profile, log: seq<Added>)
    requires Represents(p, log)
    requires q == p.(sampleTypes := q.sampleTypes, periodType := q.periodType)
    ensures Represents(q, log)
  {
    forall i | 0 <= i < |p.samples| ensures StackOf(q, i) == StackOf(p, i) {
      assert SampleRight(p, log, i);
      ResolveStackExtend(p, q, p.samples[i].locationIds);
    }
    forall i | 0 <= i < |q.samples| ensures SampleRight(q, log, i) && Logged(log, StackOf(q, i).value) {
      assert SampleRight(p, log, i) && StackOf(q, i) == StackOf(p, i);
    }
    forall k | 0 <= k < |log| ensures Covered(q, log[k].frames) {
      assert Covered(p, log[k].frames);
      var i :| 0 <= i < |p.samples| && StackOf(p, i) == Some(FramesMeaning(log[k].frames));
      assert StackOf(q, i) == StackOf(p, i);
    }
  }

  datatype Event = Add(frames: seq<StackFrame>, count: int) | FlushAt(now: int)

  /** The builder with everything it has sent so far; None after a panic. */
  datatype Sender = Sender(builder: Builder, sent: seq<Profile>)

  function Run(period: int, events: seq<Event>): Option<Sender> {
    if events == [] then Some(Sender(New(0, 15_000_000_000, period), []))
    else
      var before := Run(period, events[..|events| - 1]);
      if before.None? then None else Step(before.value, events[|events| - 1])
  }

  function Step(s: Sender, e: Event): Option<Sender> {
    match e
    case Add(frames, count) =>
      var b := AddSample(s.builder, frames, count);
      if b.Some? then Some(s.(builder := b.value)) else None
    case FlushAt(now) =>
      var (b, p) := Flush(s.builder, now);
      Some(Sender(b, if p.Some? then s.sent + [p.value] else s.sent))
  }

  /** The samples since the last flush, and those of each window that was sent. */
  datatype Windows = Windows(open: seq<Added>, closed: seq<seq<Added>>)

  function WindowsOf(events: seq<Event>): Windows {
    if events == [] then Windows([], [])
    else
      var w := WindowsOf(events[..|events| - 1]);
      match events[|events| - 1]
      case Add(frames, count) => w.(open := w.open + [Added(frames, count)])
      case FlushAt(_) => if w.open == [] then w else Windows([], w.closed + [w.open])
  }

  ghost predicate Tracks(s: Sender, w: Windows, period: int) {
    && Consistent(s.builder) && s.builder.period == period && [""] <= s.builder.strings
    && Represents(Tables(s.builder), w.open)
    && AllFaithful(s.sent, w.closed, period)
  }

  /** There are samples exactly when something was added. */
  lemma EmptyTogether(p: Profile, log: seq<Added>)
    requires Represents(p, log)
    ensures p.samples == [] <==> log == []
  {
    if p.samples != [] { assert SampleRight(p, log, 0) && Logged(log, StackOf(p, 0).value); }
    if log != [] { assert Covered(p, log[0].frames); }
  }

  lemma FlushTracks(s: Sender, w: Windows, period: int, now: int)
    requires Tracks(s, w, period)
    ensures Step(s, FlushAt(now)).Some?
    ensures Tracks(Step(s, FlushAt(now)).value,
                   if w.open == [] then w else Windows([], w.closed + [w.open]), period)
  {
    var b := s.builder;
    EmptyTogether(Tables(s.builder), w.open);
    if w.open != [] {
      EncodeCorrect(s.builder, w.open);
      NewCorrect(now, 15_000_000_000, period);
      SentMore(s.sent, w.closed, period, Encode(s.builder).1, w.open);
    }
  }

  ghost predicate AllFaithful(sent: seq<Profile>, logs: seq<seq<Added>>, period: int) {
    |sent| == |logs| && forall k | 0 <= k < |sent| :: sent[k].period == period && Faithful(sent[k], logs[k])
  }

  lemma SentMore(sent: seq<Profile>, logs: seq<seq<Added>>, period: int, p: Profile, log: seq<Added>)
    requires AllFaithful(sent, logs, period) && p.period == period && Faithful(p, log)
    ensures AllFaithful(sent + [p], logs + [log], period)
  {
  }

  /**
   Over every run of added samples and flushes nothing panics, each profile that was
   sent says exactly what was added in its window, and the builder says what was
   added since.
   */
  lemma {:induction false} RunFaithful(period: int, events: seq<Event>)
    ensures Run(period, events).Some?
    ensures Tracks(Run(period, events).value, WindowsOf(events), period)
  {
    if events == [] {
      NewCorrect(0, 15_000_000_000, period);
    } else {
      var n := |events| - 1;
      RunFaithful(period, events[..n]);
      var s, w := Run(period, events[..n]).value, WindowsOf(events[..n]);
      match events[n]
      case Add(frames, count) => AddSampleCorrect(s.builder, w.open, frames, count);
      case FlushAt(now) => FlushTracks(s, w, period, now);
    }
  }

  /** Two stacks share a sample exactly when they are equal frame by frame. */
  lemma SampleOfStack(p: Profile, log: seq<Added>, i: nat, j: nat)
    requires Represents(p, log) && i < |p.samples| && j < |p.samples|
    ensures i == j <==> StackOf(p, i) == StackOf(p, j)
    ensures -I64.TWO63 <= p.period * Total(log, StackOf(p, i).value) < I64.TWO63
        ==> p.samples[i].values == [p.period * Total(log, StackOf(p, i).value)]
  {
    assert SampleRight(p, log, i);
  }

  ghost predicate NonNegative(log: seq<Added>) {
    forall k | 0 <= k < |log| :: log[k].count >= 0
  }

  lemma {:induction false} TotalGrows(log: seq<Added>, n: nat, stack: seq<Frame>)
    requires NonNegative(log) && n <= |log|
    ensures 0 <= Total(log[..n], stack) <= Total(log, stack)
  {
    if n < |log| {
      var init := log[..|log| - 1];
      assert init[..n] == log[..n];
      TotalGrows(init, n, stack);
    } else {
      assert log[..n] == log;
      TotalNonNegative(log, stack);
    }
  }

  lemma {:induction false} TotalNonNegative(log: seq<Added>, stack: seq<Frame>)
    requires NonNegative(log)
    ensures 0 <= Total(log, stack)
  {
    if log != [] { TotalNonNegative(log[..|log| - 1], stack); }
  }

  lemma Fits(x: int)
    requires 0 <= x < I64.TWO63
    ensures I64.Wrap(x) == x
  {
  }

  lemma Scaled(period: int, x: int, y: int)
    requires 0 <= period && 0 <= x <= y
    ensures 0 <= period * x <= period * y
  {
  }

  lemma NoWrap(period: int, before: int, count: int, total: int)
    requires 0 <= period && 0 <= before && 0 <= count && before + count <= total && period * total < I64.TWO63
    ensures I64.Wrap(count * period) == count * period
    ensures I64.Wrap(period * before + count * period) == period * before + count * period == period * (before + count)
  {
    Scaled(period, before, before + count);
    Scaled(period, count, before + count);
    Scaled(period, before + count, total);
    var sum, addend := period * (before + count), count * period;
    assert period * before + addend == sum;
    Fits(addend);
    Fits(sum);
  }

  /**
   With counts that are not negative, no product and no sum on the way leaves 64 bits if
   the stack's last value does not: neither of the two operations of the n-th call wraps.
   */
  lemma NothingWraps(log: seq<Added>, period: int, n: nat, stack: seq<Frame>, before: int, added: int)
    requires NonNegative(log) && 0 <= period && n < |log| && period * Total(log, stack) < I64.TWO63
    requires stack == FramesMeaning(log[n].frames) && before == Total(log[..n], stack) && added == log[n].count
    ensures I64.Wrap(added * period) == added * period
    ensures I64.Wrap(period * before + added * period) == period * before + added * period
    ensures Total(log[..n + 1], stack) == before + added
  {
    assert log[..n + 1] == log[..n] + [log[n]];
    TotalPush(log[..n], log[n], stack);
    TotalGrows(log, n, stack);
    TotalGrows(log, n + 1, stack);
    var total := Total(log, stack);
    assert 0 <= before && before + added <= total;
    NoWrap(period, before, added, total);
  }

  /** Neither the product nor the sum of this call leaves 64 bits. */
  ghost predicate AddsWithoutWrap(b: Builder, frames: seq<StackFrame>, count: int) {
    var (b1, ids) := InternFrames(b, frames);
    && I64.Wrap(count * b.period) == count * b.period
    && (ids in b1.sampleIndex ==> SumFits(b1, b1.sampleIndex[ids], count * b.period))
  }

  ghost predicate SumFits(b: Builder, i: int, value: int) {
    && 0 <= i < |b.samples| && |b.samples[i].values| == 1
    && I64.Wrap(b.samples[i].values[0] + value) == b.samples[i].values[0] + value
  }

  /** What a call adds to is the wrapped value of the stack's total so far. */
  lemma StoredValue(b: Builder, log: seq<Added>, frames: seq<StackFrame>, b1: Builder, ids: seq<int>)
    requires Consistent(b) && Represents(Tables(b), log) && (b1, ids) == InternFrames(b, frames) && ids in b1.sampleIndex
    ensures var i := b1.sampleIndex[ids];
            0 <= i < |b1.samples| && b1.samples[i].values == [I64.Wrap(b.period * Total(log, FramesMeaning(frames)))]
  {
    InternFramesCorrect(b, frames);
    RepresentsGrows(b, b1, log);
    KnownSample(b1, log, ids);
    assert SampleRight(Tables(b1), log, b1.sampleIndex[ids]);
  }

  lemma CallNeverWraps(b: Builder, log: seq<Added>, n: nat, stack: seq<Frame>, frames: seq<StackFrame>, count: int)
    requires Consistent(b) && n < |log| && Represents(Tables(b), log[..n]) && log[n] == Added(frames, count)
    requires NonNegative(log) && 0 <= b.period && stack == FramesMeaning(frames) && b.period * Total(log, stack) < I64.TWO63
    ensures AddsWithoutWrap(b, frames, count)
  {
    var (b1, ids) := InternFrames(b, frames);
    var before := Total(log[..n], stack);
    NothingWraps(log, b.period, n, stack, before, count);
    if ids in b1.sampleIndex {
      StoredValue(b, log[..n], frames, b1, ids);
      BeforeFits(log, b.period, n, stack);
    }
  }

  lemma BeforeFits(log: seq<Added>, period: int, n: nat, stack: seq<Frame>)
    requires NonNegative(log) && 0 <= period && n <= |log| && period * Total(log, stack) < I64.TWO63
    ensures I64.Wrap(period * Total(log[..n], stack)) == period * Total(log[..n], stack)
  {
    TotalGrows(log, n, stack);
    Scaled(period, Total(log[..n], stack), Total(log, stack));
    Fits(period * Total(log[..n], stack));
  }

  ghost predicate NoFlushFrom(events: seq<Event>, k: nat) {
    forall i | k <= i < |events| :: events[i].Add?
  }

  /** Without a flush the window goes on. */
  lemma {:induction false} WindowGoesOn(events: seq<Event>, k: nat)
    requires k < |events| && NoFlushFrom(events, k)
    ensures WindowsOf(events[..k]).open + [Added(events[k].frames, events[k].count)] <= WindowsOf(events).open
  {
    var n := |events| - 1;
    if k < n {
      assert events[..n][..k] == events[..k];
      WindowGoesOn(events[..n], k);
    }
  }

  /**
   With counts that are not negative, no call in a window wraps if the last value of its
   stack in that window is within 64 bits.
   */
  lemma RunNeverWraps(period: int, events: seq<Event>, k: nat, stack: seq<Frame>)
    requires k < |events| && NoFlushFrom(events, k) && stack == FramesMeaning(events[k].frames)
    requires NonNegative(WindowsOf(events).open) && 0 <= period && period * Total(WindowsOf(events).open, stack) < I64.TWO63
    ensures Run(period, events[..k]).Some?
    ensures AddsWithoutWrap(Run(period, events[..k]).value.builder, events[k].frames, events[k].count)
  {
    RunFaithful(period, events[..k]);
    WindowGoesOn(events, k);
    var before, log := WindowsOf(events[..k]).open, WindowsOf(events).open;
    assert log[..|before|] == before;
    CallNeverWraps(Run(period, events[..k]).value.builder, log, |before|, stack, events[k].frames, events[k].count);
  }

  // ---------------------------------------------------------------- window times

  /** When the open window began, and when each window began that was sent. */
  datatype Starts = Starts(open: int, closed: seq<int>)

  /** The first window begins at 0, every other at the last earlier flush that sent something. */
  function StartsOf(events: seq<Event>): Starts {
    if events == [] then Starts(0, [])
    else
      var init, last := events[..|events| - 1], events[|events| - 1];
      var before := StartsOf(init);
      if last.FlushAt? && WindowsOf(init).open != [] then Starts(last.now, before.closed + [before.open]) else before
  }

  ghost predicate Timed(s: Sender, starts: Starts) {
    && s.builder.timeNanos == starts.open && s.builder.durationNanos == 15_000_000_000
    && |s.sent| == |starts.closed|
    && forall k | 0 <= k < |s.sent| :: s.sent[k].timeNanos == starts.closed[k] && s.sent[k].durationNanos == 15_000_000_000
  }

  lemma FlushTimed(s: Sender, starts: Starts, log: seq<Added>, now: int, t: Sender)
    requires Consistent(s.builder) && [""] <= s.builder.strings && Represents(Tables(s.builder), log)
    requires Timed(s, starts) && Step(s, FlushAt(now)) == Some(t)
    ensures Timed(t, if log != [] then Starts(now, starts.closed + [starts.open]) else starts)
  {
    EmptyTogether(Tables(s.builder), log);
    if log != [] { EncodeCorrect(s.builder, log); }
  }

  lemma AddTimed(s: Sender, starts: Starts, log: seq<Added>, e: Event, t: Sender)
    requires e.Add? && Consistent(s.builder) && Represents(Tables(s.builder), log)
    requires Timed(s, starts) && Step(s, e) == Some(t)
    ensures Timed(t, starts)
  {
    AddSampleCorrect(s.builder, log, e.frames, e.count);
  }

  /** In every run each sent profile says when its window began, and that it lasts fifteen seconds. */
  lemma {:induction false} RunTimed(period: int, events: seq<Event>)
    ensures Run(period, events).Some? && Timed(Run(period, events).value, StartsOf(events))
  {
    RunFaithful(period, events);
    if events != [] {
      var init, e := events[..|events| - 1], events[|events| - 1];
      RunTimed(period, init);
      RunFaithful(period, init);
      var s, t, log := Run(period, init).value, Run(period, events).value, WindowsOf(init).open;
      if e.Add? { AddTimed(s, StartsOf(init), log, e, t); } else { FlushTimed(s, StartsOf(init), log, e.now, t); }
    }
  }
}
