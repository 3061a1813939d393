/**
 Why the incremental encoder has to be reset after encoding: the tables are moved out,
 but every index stays, the sample index included.
 */
module PprofReset {
  import opened ProfileFormat
  import opened Interning
  import opened PprofBuilder
  import opened Wrappers
  import I64

  /** Every index entry of `b` is one of `c`, whatever the tables hold. */
  ghost predicate KeepsIndexes(b: Builder, c: Builder) {
    && (forall k | k in b.stringIndex :: k in c.stringIndex && c.stringIndex[k] == b.stringIndex[k])
    && (forall k | k in b.functionIndex :: k in c.functionIndex && c.functionIndex[k] == b.functionIndex[k])
    && (forall k | k in b.locationIndex :: k in c.locationIndex && c.locationIndex[k] == b.locationIndex[k])
  }

  /** The indexes lead from the frame to this location without adding anything. */
  ghost predicate Hit(b: Builder, frame: StackFrame, id: int) {
    && frame.functionName in b.stringIndex && frame.filename in b.stringIndex
    && var key := (b.stringIndex[frame.functionName], b.stringIndex[frame.filename], frame.firstLine);
       key in b.functionIndex && b.functionIndex[key] in b.locationIndex
       && b.locationIndex[b.functionIndex[key]] == id
  }

  lemma HitInterns(b: Builder, c: Builder, frame: StackFrame, id: int)
    requires Hit(b, frame, id) && KeepsIndexes(b, c)
    ensures InternFrame(c, frame) == (c, id)
  {
  }

  /** The indexes lead from the parts of a key to its location. */
  lemma KeyHits(b: Builder, frame: StackFrame, functionId: int, key: FunctionKey)
    requires frame.functionName in b.stringIndex && b.stringIndex[frame.functionName] == key.0
    requires frame.filename in b.stringIndex && b.stringIndex[frame.filename] == key.1
    requires key.2 == frame.firstLine && key in b.functionIndex && b.functionIndex[key] == functionId
    requires functionId in b.locationIndex
    ensures Hit(b, frame, b.locationIndex[functionId])
  {
    assert key == (b.stringIndex[frame.functionName], b.stringIndex[frame.filename], frame.firstLine);
  }

  /** The one location that means a frame is the one that the indexes lead to. */
  lemma ResolvedHits(b: Builder, frame: StackFrame, id: int)
    requires Consistent(b) && ResolveLocation(Tables(b), id) == Some(FrameMeaning(frame))
    ensures Hit(b, frame, id)
  {
    LocationRange(b, id);
    LocationKeyRange(b, id);
    var functionId := LocationKeys(b.locations)[id - 1];
    var key := FunctionKeys(b.functions)[functionId - 1];
    ResolveKeys(b, id, functionId, key);
    Found(b.stringIndex, b.strings, 0, key.0);
    Found(b.stringIndex, b.strings, 0, key.1);
    Found(b.functionIndex, FunctionKeys(b.functions), 1, functionId - 1);
    Found(b.locationIndex, LocationKeys(b.locations), 1, id - 1);
    KeyHits(b, frame, functionId, key);
  }

  lemma LastResolved(p: Profile, ids: seq<int>, init: seq<Frame>, last: Frame)
    requires ResolveStack(p, ids) == Some(init + [last])
    ensures |ids| == |init| + 1
    ensures ResolveStack(p, ids[..|init|]) == Some(init) && ResolveLocation(p, ids[|init|]) == Some(last)
  {
    var n, stack := |init|, init + [last];
    assert |ids| == |stack|;
    assert stack[..n] == init && stack[n] == last;
    var read := ResolveStack(p, ids[..n]).value + [ResolveLocation(p, ids[n]).value];
    assert read == stack && read[..n] == ResolveStack(p, ids[..n]).value && read[n] == ResolveLocation(p, ids[n]).value;
  }

  ghost predicate StackHit(b: Builder, frames: seq<StackFrame>, ids: seq<int>) {
    |ids| == |frames|
    && (frames != [] ==>
          && StackHit(b, frames[..|frames| - 1], ids[..|frames| - 1])
          && Hit(b, frames[|frames| - 1], ids[|frames| - 1]))
  }

  lemma {:induction false} ResolvedStackHits(b: Builder, frames: seq<StackFrame>, ids: seq<int>)
    requires Consistent(b) && ResolveStack(Tables(b), ids) == Some(FramesMeaning(frames))
    ensures StackHit(b, frames, ids)
  {
    if frames != [] {
      var n := |frames| - 1;
      LastResolved(Tables(b), ids, FramesMeaning(frames[..n]), FrameMeaning(frames[n]));
      ResolvedStackHits(b, frames[..n], ids[..n]);
      ResolvedHits(b, frames[n], ids[n]);
    }
  }

  lemma InternFramesPush(c: Builder, frames: seq<StackFrame>, ids: seq<int>)
    requires |ids| == |frames| > 0 && InternFrames(c, frames[..|frames| - 1]) == (c, ids[..|frames| - 1])
    requires InternFrame(c, frames[|frames| - 1]) == (c, ids[|frames| - 1])
    ensures InternFrames(c, frames) == (c, ids)
  {
    assert ids == ids[..|frames| - 1] + [ids[|frames| - 1]];
  }

  lemma {:induction false} StackHitInterns(b: Builder, c: Builder, frames: seq<StackFrame>, ids: seq<int>)
    requires StackHit(b, frames, ids) && KeepsIndexes(b, c)
    ensures InternFrames(c, frames) == (c, ids)
  {
    if frames != [] {
      var n := |frames| - 1;
      StackHitInterns(b, c, frames[..n], ids[..n]);
      HitInterns(b, c, frames[n], ids[n]);
      InternFramesPush(c, frames, ids);
    }
  }

  /** A stack that the tables hold is found again under the same ids, whatever became of the tables. */
  lemma InternFramesAgain(b: Builder, frames: seq<StackFrame>, ids: seq<int>, c: Builder)
    requires Consistent(b) && ResolveStack(Tables(b), ids) == Some(FramesMeaning(frames)) && KeepsIndexes(b, c)
    ensures InternFrames(c, frames) == (c, ids)
  {
    ResolvedStackHits(b, frames, ids);
    StackHitInterns(b, c, frames, ids);
  }

  lemma EncodeKeepsIndexes(b: Builder)
    ensures KeepsIndexes(b, Encode(b).0) && Encode(b).0.sampleIndex == b.sampleIndex && Encode(b).0.samples == []
  {
  }

  lemma LoggedIds(b: Builder, log: seq<Added>, stack: seq<Frame>) returns (ids: seq<int>)
    requires Represents(Tables(b), log) && Logged(log, stack)
    ensures ids in SampleKeys(b.samples) && ResolveStack(Tables(b), ids) == Some(stack)
  {
    var k :| 0 <= k < |log| && FramesMeaning(log[k].frames) == stack;
    assert Covered(Tables(b), log[k].frames);
    var i :| 0 <= i < |b.samples| && StackOf(Tables(b), i) == Some(stack);
    SampleKeysAt(b.samples);
    ids := b.samples[i].locationIds;
    assert ids == SampleKeys(b.samples)[i];
  }

  lemma IndexedPanics(b: Builder, ids: seq<int>, value: int)
    requires ids in b.sampleIndex && b.samples == []
    ensures PutSample(b, ids, value).None?
  {
  }

  /** Without the reset every stack of the encoded profile panics when it is added again. */
  lemma LoggedStacksPanic(b: Builder, log: seq<Added>, frames: seq<StackFrame>, count: int)
    requires Consistent(b) && Represents(Tables(b), log) && Logged(log, FramesMeaning(frames))
    ensures AddSample(Encode(b).0, frames, count).None?
  {
    var c := Encode(b).0;
    var ids := LoggedIds(b, log, FramesMeaning(frames));
    EncodeKeepsIndexes(b);
    InternFramesAgain(b, frames, ids, c);
    Lookup(b.sampleIndex, SampleKeys(b.samples), 0, ids);
    IndexedPanics(c, ids, I64.Wrap(count * c.period));
  }

  lemma NoIndexNoPanic(b: Builder, ids: seq<int>, value: int)
    requires b.sampleIndex == map[]
    ensures PutSample(b, ids, value).Some?
  {
  }

  lemma {:induction false} InternFramesKeepsSamples(b: Builder, frames: seq<StackFrame>)
    ensures InternFrames(b, frames).0.sampleIndex == b.sampleIndex && InternFrames(b, frames).0.samples == b.samples
  {
    if frames != [] { InternFramesKeepsSamples(b, frames[..|frames| - 1]); }
  }

  /** Without the reset no stack panics exactly if the builder had no sample. */
  lemma ResetIsNeeded(b: Builder, log: seq<Added>)
    requires Consistent(b) && Represents(Tables(b), log)
    ensures (forall frames, count :: AddSample(Encode(b).0, frames, count).Some?) <==> b.samples == []
  {
    EmptyTogether(Tables(b), log);
    if b.samples == [] {
      assert b.sampleIndex == map[];
      forall frames, count ensures AddSample(Encode(b).0, frames, count).Some? {
        EncodeKeepsIndexes(b);
        InternFramesKeepsSamples(Encode(b).0, frames);
        NoIndexNoPanic(InternFrames(Encode(b).0, frames).0, InternFrames(Encode(b).0, frames).1, I64.Wrap(count * b.period));
      }
    } else {
      assert Logged(log, FramesMeaning(log[0].frames));
      LoggedStacksPanic(b, log, log[0].frames, 1);
    }
  }

  /** In an emptied table a new name gets the number of the empty string. */
  lemma NewNameTakesZero(c: Builder, name: string)
    requires name !in c.stringIndex && c.strings == [] && "" in c.stringIndex && c.stringIndex[""] == 0
    requires (0, 0, 0) !in c.functionIndex && c.functions == [] && 1 in c.locationIndex
    ensures InternFrame(c, StackFrame(name, "", 0)).1 == c.locationIndex[1]
  {
  }

  lemma SingleFrame(b: Builder, frame: StackFrame)
    ensures InternFrames(b, [frame]) == (InternFrame(b, frame).0, [InternFrame(b, frame).1])
  {
    var frames := [frame];
    assert frames[..|frames| - 1] == [];
    var id := InternFrame(b, frame).1;
    assert [] + [id] == [id];
  }

  lemma FirstStack(frame: StackFrame)
    requires frame == StackFrame("a", "", 0)
    ensures var (b, id) := InternFrame(New(0, 0, 1), frame);
            && id == 1 && b.stringIndex == map["" := 0, "a" := 1] && b.functionIndex == map[(1, 0, 0) := 1]
            && b.locationIndex == map[1 := 1] && b.sampleIndex == map[]
  {
    var b := New(0, 0, 1);
    assert "a" !in b.stringIndex by { assert "a"[0] == 'a'; }
    var (b1, _) := Intern(b, "a");
    assert b1.stringIndex == map["" := 0, "a" := 1] && Intern(b1, "") == (b1, 0);
    var (b2, functionId) := InternKey(b1, (1, 0, 0));
    assert InternFunction(b, frame) == (b2, functionId) && functionId == 1;
    assert b2.functionIndex == map[(1, 0, 0) := 1];
    assert InternLocation(b2, 1, 0).0.locationIndex == map[1 := 1];
  }

  lemma EncodedIndexes(b: Builder)
    requires b.stringIndex == map["" := 0, "a" := 1]
    ensures var c := Encode(b).0;
            && c.strings == [] && c.functions == [] && c.samples == [] && c.sampleIndex == b.sampleIndex
            && c.functionIndex == b.functionIndex && c.locationIndex == b.locationIndex
            && c.stringIndex.Keys == {"", "a", "cpu", "nanoseconds"} && c.stringIndex[""] == 0
  {
  }

  /** A stack that was never added can panic as well, because its string gets a number that is taken. */
  lemma NewStackCanPanic(count: int)
    ensures var b := AddSample(New(0, 0, 1), [StackFrame("a", "", 0)], 1);
            b.Some? && AddSample(Encode(b.value).0, [StackFrame("b", "", 0)], count).None?
  {
    var first, second := StackFrame("a", "", 0), StackFrame("b", "", 0);
    FirstStack(first);
    SingleFrame(New(0, 0, 1), first);
    var b := AddSample(New(0, 0, 1), [first], 1).value;
    EncodedIndexes(b);
    var c := Encode(b).0;
    assert "b" !in {"", "a", "cpu", "nanoseconds"} by { assert "b"[0] != "a"[0] && |"b"| != |"cpu"| && |"b"| != |"nanoseconds"|; }
    NewNameTakesZero(c, "b");
    SingleFrame(c, second);
    IndexedPanics(InternFrame(c, second).0, [1], I64.Wrap(count * c.period));
  }

  // ------------------------------------- an empty builder that is encoded and not reset

  /** The strings that the index goes on to number although the table is empty. */
  predicate Kept(s: string) {
    s == "" || s == "cpu" || s == "nanoseconds"
  }

  predicate KeptFrame(f: StackFrame) {
    Kept(f.functionName) || Kept(f.filename)
  }

  predicate NoneKept(frames: seq<StackFrame>) {
    forall i | 0 <= i < |frames| :: !KeptFrame(frames[i])
  }

  /** The index numbers the strings of the table, and the kept ones as if they were there. */
  ghost predicate IndexSkewed(b: Builder) {
    && (forall i | 0 <= i < |b.strings| :: !Kept(b.strings[i]))
    && (forall s | s in b.stringIndex :: 0 <= b.stringIndex[s] < |b.strings| + 3
          && (!Kept(s) ==> StringAt(Tables(b), b.stringIndex[s]) == Some(s)))
    && "" in b.stringIndex && "cpu" in b.stringIndex && "nanoseconds" in b.stringIndex
  }

  ghost predicate Skewed(b: Builder) {
    && LinkedFunctions(b.functions, |b.strings| + 3)
    && LinkedLocations(b.locations, b.functions)
    && Indexes(b.functionIndex, FunctionKeys(b.functions), 1)
    && Indexes(b.locationIndex, LocationKeys(b.locations), 1)
    && IndexSkewed(b)
  }

  /** The number reads back as the string unless the string is a kept one. */
  ghost predicate NumberOk(b: Builder, index: int, s: string) {
    0 <= index < |b.strings| + 3 && (StringAt(Tables(b), index) == Some(s) <==> !Kept(s))
  }

  lemma SkewedIntern(b: Builder, s: string, c: Builder, index: int)
    requires IndexSkewed(b) && (c, index) == Intern(b, s)
    ensures IndexSkewed(c) && NumberOk(c, index, s)
  {
  }

  ghost predicate Longer(b: Builder, c: Builder) {
    b.strings <= c.strings && b.functions <= c.functions && b.locations <= c.locations
  }

  lemma NewFunctionSkewed(b: Builder, key: FunctionKey, f: Function, fs: seq<Function>, index: map<FunctionKey, int>)
    requires Skewed(b) && key !in b.functionIndex
    requires 0 <= key.0 < |b.strings| + 3 && 0 <= key.1 < |b.strings| + 3
    requires f == Function(|b.functions| + 1, key.0, 0, key.1, key.2) && fs == b.functions + [f]
    requires index == b.functionIndex[key := |fs|]
    ensures Skewed(b.(functions := fs, functionIndex := index))
  {
    assert fs[..|b.functions|] == b.functions;
    Lookup(b.functionIndex, FunctionKeys(b.functions), 1, key);
    IndexesPush(b.functionIndex, FunctionKeys(b.functions), 1, key);
    LinkedLocationsMore(b.locations, b.functions, fs);
  }

  ghost predicate HasFunction(c: Builder, id: int, key: FunctionKey) {
    1 <= id <= |c.functions| && (c.functions[id - 1].name, c.functions[id - 1].filename, c.functions[id - 1].startLine) == key
  }

  lemma KnownFunctionSkewed(b: Builder, key: FunctionKey)
    requires Skewed(b) && key in b.functionIndex
    ensures HasFunction(b, b.functionIndex[key], key)
  {
    Lookup(b.functionIndex, FunctionKeys(b.functions), 1, key);
    FunctionAt(b.functions, |b.strings| + 3, b.functionIndex[key] - 1);
  }

  lemma SkewedKey(b: Builder, key: FunctionKey, c: Builder, id: int)
    requires Skewed(b) && (c, id) == InternKey(b, key)
    requires 0 <= key.0 < |b.strings| + 3 && 0 <= key.1 < |b.strings| + 3
    ensures Skewed(c) && Longer(b, c) && c.strings == b.strings && HasFunction(c, id, key)
  {
    if key in b.functionIndex {
      KnownFunctionSkewed(b, key);
    } else {
      NewFunctionSkewed(b, key, c.functions[|b.functions|], c.functions, c.functionIndex);
    }
  }

  lemma NewLocationSkewed(b: Builder, functionId: int, l: Location, ls: seq<Location>, index: map<int, int>)
    requires Skewed(b) && functionId !in b.locationIndex && 1 <= functionId <= |b.functions|
    requires l == Location(|b.locations| + 1, 0, 0, [Line(functionId, b.functions[functionId - 1].startLine)], false)
    requires ls == b.locations + [l] && index == b.locationIndex[functionId := |ls|]
    ensures Skewed(b.(locations := ls, locationIndex := index))
  {
    assert ls[..|b.locations|] == b.locations;
    Lookup(b.locationIndex, LocationKeys(b.locations), 1, functionId);
    IndexesPush(b.locationIndex, LocationKeys(b.locations), 1, functionId);
  }

  ghost predicate HasLocation(c: Builder, id: int, line: Line) {
    1 <= id <= |c.locations| && c.locations[id - 1].lines == [line]
  }

  lemma KnownLocationSkewed(b: Builder, functionId: int)
    requires Skewed(b) && functionId in b.locationIndex && 1 <= functionId <= |b.functions|
    ensures HasLocation(b, b.locationIndex[functionId], Line(functionId, b.functions[functionId - 1].startLine))
  {
    Lookup(b.locationIndex, LocationKeys(b.locations), 1, functionId);
    LocationAt(b.locations, b.functions, b.locationIndex[functionId] - 1, functionId);
  }

  lemma SkewedLocation(b: Builder, functionId: int, line: int, c: Builder, id: int)
    requires Skewed(b) && (c, id) == InternLocation(b, functionId, line)
    requires 1 <= functionId <= |b.functions| && b.functions[functionId - 1].startLine == line
    ensures Skewed(c) && Longer(b, c) && c.strings == b.strings && c.functions == b.functions
    ensures HasLocation(c, id, Line(functionId, line))
  {
    if functionId in b.locationIndex {
      KnownLocationSkewed(b, functionId);
    } else {
      NewLocationSkewed(b, functionId, c.locations[|b.locations|], c.locations, c.locationIndex);
    }
  }

  /** The location's line and function are the frame's, up to the numbers of the kept strings. */
  ghost predicate FrameAt(b: Builder, frame: StackFrame, id: int) {
    && 1 <= id <= |b.locations| && |b.locations[id - 1].lines| == 1
    && FunctionOf(b, frame, b.locations[id - 1].lines[0])
  }

  ghost predicate FunctionOf(b: Builder, frame: StackFrame, line: Line) {
    && 1 <= line.functionId <= |b.functions|
    && var g := b.functions[line.functionId - 1];
       && line.line == g.startLine == frame.firstLine
       && NumberOk(b, g.name, frame.functionName) && NumberOk(b, g.filename, frame.filename)
  }

  lemma NumberGrows(b: Builder, c: Builder, index: int, s: string)
    requires NumberOk(b, index, s) && IndexSkewed(c) && b.strings <= c.strings
    ensures NumberOk(c, index, s)
  {
  }

  lemma FrameAtGrows(b: Builder, c: Builder, frame: StackFrame, id: int)
    requires FrameAt(b, frame, id) && IndexSkewed(c) && Longer(b, c)
    ensures FrameAt(c, frame, id)
  {
    var g := b.functions[b.locations[id - 1].lines[0].functionId - 1];
    NumberGrows(b, c, g.name, frame.functionName);
    NumberGrows(b, c, g.filename, frame.filename);
  }

  /** A reader gets the frame back exactly if none of its strings is a kept one. */
  lemma FrameReadsIff(b: Builder, frame: StackFrame, id: int)
    requires Skewed(b) && FrameAt(b, frame, id)
    ensures ResolveLocation(Tables(b), id) == Some(FrameMeaning(frame)) <==> !KeptFrame(frame)
  {
    LinkedLocationsAt(b.locations, b.functions);
    FindLocationAt(b.locations, 1, id - 1);
    FunctionAt(b.functions, |b.strings| + 3, b.locations[id - 1].lines[0].functionId - 1);
  }

  lemma SkewedStrings(b: Builder, s: string, c: Builder, index: int)
    requires Skewed(b) && (c, index) == Intern(b, s)
    ensures Skewed(c) && Longer(b, c) && NumberOk(c, index, s)
  {
    SkewedIntern(b, s, c, index);
    LinkedFunctionsMore(b.functions, |b.strings| + 3, |c.strings| + 3);
  }

  lemma SkewedNames(b: Builder, frame: StackFrame, b1: Builder, name: int, b2: Builder, filename: int)
    requires Skewed(b) && (b1, name) == Intern(b, frame.functionName) && (b2, filename) == Intern(b1, frame.filename)
    ensures Skewed(b2) && Longer(b, b2) && NumberOk(b2, name, frame.functionName) && NumberOk(b2, filename, frame.filename)
  {
    SkewedStrings(b, frame.functionName, b1, name);
    SkewedStrings(b1, frame.filename, b2, filename);
    NumberGrows(b1, b2, name, frame.functionName);
  }

  lemma LongerTransitive(a: Builder, b: Builder, c: Builder)
    requires Longer(a, b) && Longer(b, c)
    ensures Longer(a, c)
  {
  }

  lemma FrameAtFrom(b: Builder, c: Builder, frame: StackFrame, key: FunctionKey, functionId: int, id: int)
    requires HasFunction(c, functionId, key) && HasLocation(c, id, Line(functionId, frame.firstLine))
    requires c.strings == b.strings && key.2 == frame.firstLine
    requires NumberOk(b, key.0, frame.functionName) && NumberOk(b, key.1, frame.filename)
    ensures FrameAt(c, frame, id)
  {
  }

  lemma SkewedTables(b: Builder, frame: StackFrame, key: FunctionKey, b1: Builder, functionId: int, c: Builder, id: int)
    requires Skewed(b) && key.2 == frame.firstLine
    requires NumberOk(b, key.0, frame.functionName) && NumberOk(b, key.1, frame.filename)
    requires (b1, functionId) == InternKey(b, key) && (c, id) == InternLocation(b1, functionId, frame.firstLine)
    ensures Skewed(c) && Longer(b, c) && FrameAt(c, frame, id)
  {
    SkewedKey(b, key, b1, functionId);
    SkewedLocation(b1, functionId, frame.firstLine, c, id);
    FrameAtFrom(b, c, frame, key, functionId, id);
    LongerTransitive(b, b1, c);
  }

  lemma SkewedFrame(b: Builder, frame: StackFrame, c: Builder, id: int)
    requires Skewed(b) && (c, id) == InternFrame(b, frame)
    ensures Skewed(c) && Longer(b, c) && FrameAt(c, frame, id)
  {
    var (b1, name) := Intern(b, frame.functionName);
    var (b2, filename) := Intern(b1, frame.filename);
    SkewedNames(b, frame, b1, name, b2, filename);
    var (b3, functionId) := InternKey(b2, (name, filename, frame.firstLine));
    SkewedTables(b2, frame, (name, filename, frame.firstLine), b3, functionId, c, id);
  }

  ghost predicate StackAt(b: Builder, frames: seq<StackFrame>, ids: seq<int>) {
    |ids| == |frames|
    && (frames != [] ==>
          && StackAt(b, frames[..|frames| - 1], ids[..|frames| - 1])
          && FrameAt(b, frames[|frames| - 1], ids[|frames| - 1]))
  }

  lemma {:induction false} StackAtGrows(b: Builder, c: Builder, frames: seq<StackFrame>, ids: seq<int>)
    requires StackAt(b, frames, ids) && IndexSkewed(c) && Longer(b, c)
    ensures StackAt(c, frames, ids)
  {
    if frames != [] {
      var n := |frames| - 1;
      StackAtGrows(b, c, frames[..n], ids[..n]);
      FrameAtGrows(b, c, frames[n], ids[n]);
    }
  }

  lemma StackAtPush(b: Builder, c: Builder, frames: seq<StackFrame>, ids: seq<int>, id: int)
    requires frames != [] && StackAt(b, frames[..|frames| - 1], ids) && FrameAt(c, frames[|frames| - 1], id)
    requires IndexSkewed(c) && Longer(b, c)
    ensures StackAt(c, frames, ids + [id])
  {
    StackAtGrows(b, c, frames[..|frames| - 1], ids);
    assert (ids + [id])[..|frames| - 1] == ids;
  }

  lemma {:induction false} SkewedFrames(b: Builder, frames: seq<StackFrame>)
    requires Skewed(b)
    ensures var (c, ids) := InternFrames(b, frames); Skewed(c) && StackAt(c, frames, ids)
  {
    if frames != [] {
      var n := |frames| - 1;
      SkewedFrames(b, frames[..n]);
      var (b1, ids) := InternFrames(b, frames[..n]);
      var (c, id) := InternFrame(b1, frames[n]);
      SkewedFrame(b1, frames[n], c, id);
      StackAtPush(b1, c, frames, ids, id);
    }
  }

  lemma ResolvesIff(p: Profile, ids: seq<int>, init: seq<Frame>, last: Frame)
    requires |ids| == |init| + 1
    ensures ResolveStack(p, ids) == Some(init + [last])
       <==> ResolveStack(p, ids[..|init|]) == Some(init) && ResolveLocation(p, ids[|init|]) == Some(last)
  {
    if ResolveStack(p, ids) == Some(init + [last]) { LastResolved(p, ids, init, last); }
  }

  lemma NoneKeptPush(frames: seq<StackFrame>)
    requires frames != []
    ensures NoneKept(frames) <==> NoneKept(frames[..|frames| - 1]) && !KeptFrame(frames[|frames| - 1])
  {
    var n := |frames| - 1;
    forall i | 0 <= i < |frames| ensures i < n ==> frames[..n][i] == frames[i] {
    }
  }

  /** A reader gets the stack back exactly if no name and no file name in it is a kept one. */
  lemma {:induction false} StackReadsIff(b: Builder, frames: seq<StackFrame>, ids: seq<int>)
    requires Skewed(b) && StackAt(b, frames, ids)
    ensures ResolveStack(Tables(b), ids) == Some(FramesMeaning(frames)) <==> NoneKept(frames)
  {
    if frames != [] {
      var n := |frames| - 1;
      StackReadsIff(b, frames[..n], ids[..n]);
      FrameReadsIff(b, frames[n], ids[n]);
      NoneKeptPush(frames);
      ResolvesIff(Tables(b), ids, FramesMeaning(frames[..n]), FrameMeaning(frames[n]));
    }
  }

  lemma EncodedEmpty(timeNanos: int, durationNanos: int, period: int)
    ensures var c := Encode(New(timeNanos, durationNanos, period)).0;
            Skewed(c) && c.samples == [] && c.sampleIndex == map[] && c.period == period
  {
    var c := Encode(New(timeNanos, durationNanos, period)).0;
    assert "cpu" != "" && "nanoseconds" != "" && |"nanoseconds"| != |"cpu"|;
    assert c.stringIndex == map["" := 0, "cpu" := 1, "nanoseconds" := 2];
  }

  lemma FirstSample(c: Builder, frames: seq<StackFrame>, count: int, b: Builder, ids: seq<int>)
    requires c.samples == [] && c.sampleIndex == map[] && (b, ids) == InternFrames(c, frames)
    ensures AddSample(c, frames, count) == Some(b.(samples := [Sample(ids, [I64.Wrap(count * c.period)], [])], sampleIndex := map[ids := 0]))
  {
    InternFramesKeepsSamples(c, frames);
    assert b.samples == [] && b.sampleIndex == map[];
    var sample := Sample(ids, [I64.Wrap(count * c.period)], []);
    assert [] + [sample] == [sample];
    assert b.sampleIndex[ids := 0] == map[ids := 0];
  }

  /** The one sample of a builder means the stack whose frames its locations are, or it does not. */
  lemma OnlySampleReadsIff(b: Builder, frames: seq<StackFrame>, ids: seq<int>, d: Builder)
    requires Skewed(b) && StackAt(b, frames, ids)
    requires d == b.(samples := d.samples, sampleIndex := d.sampleIndex) && |d.samples| > 0 && d.samples[0].locationIds == ids
    ensures StackOf(Tables(d), 0) == Some(FramesMeaning(frames)) <==> NoneKept(frames)
  {
    assert Skewed(d);
    StackAtGrows(b, d, frames, ids);
    StackReadsIff(d, frames, ids);
  }

  /**
   An empty builder that was encoded and not reset takes every stack, but the new sample
   means the stack exactly if no name in it is a string that the index has kept.
   */
  lemma EmptyNeedsResetToo(b: Builder, frames: seq<StackFrame>, count: int, c: Builder)
    requires b == New(b.timeNanos, b.durationNanos, b.period) && c == Encode(b).0
    ensures AddSample(c, frames, count).Some? && |AddSample(c, frames, count).value.samples| == 1
    ensures StackOf(Tables(AddSample(c, frames, count).value), 0) == Some(FramesMeaning(frames))
       <==> NoneKept(frames)
  {
    EncodedEmpty(b.timeNanos, b.durationNanos, b.period);
    var (c1, ids) := InternFrames(c, frames);
    FirstSample(c, frames, count, c1, ids);
    SkewedFrames(c, frames);
    OnlySampleReadsIff(c1, frames, ids, AddSample(c, frames, count).value);
  }

  /** The file names that the signal profiler's reader passes are all empty. */
  lemma EmptyFilenameIsMisread(b: Builder, frames: seq<StackFrame>, count: int, c: Builder)
    requires b == New(b.timeNanos, b.durationNanos, b.period) && c == Encode(b).0
    requires frames != [] && frames[0].filename == ""
    ensures AddSample(c, frames, count).Some?
    ensures StackOf(Tables(AddSample(c, frames, count).value), 0) != Some(FramesMeaning(frames))
  {
    EmptyNeedsResetToo(b, frames, count, c);
    assert KeptFrame(frames[0]);
  }

  lemma OneMisread(c: Builder, frame: StackFrame, b: Builder, id: int)
    requires c == Encode(New(0, 0, 1)).0 && frame == StackFrame("a", "", 0) && (b, id) == InternFrame(c, frame)
    ensures id == 1 && b.strings == ["a"] && b.functions == [Function(1, 0, 0, 0, 0)]
    ensures b.locations == [Location(1, 0, 0, [Line(1, 0)], false)]
  {
    assert "a" !in c.stringIndex by { assert |"a"| == 1 && "a"[0] == 'a'; }
    var (b1, name) := Intern(c, "a");
    assert b1.strings == ["a"] && name == 0 && Intern(b1, "") == (b1, 0);
  }

  lemma MisreadLocation(p: Profile)
    requires p.strings == ["a"] && p.functions == [Function(1, 0, 0, 0, 0)]
    requires p.locations == [Location(1, 0, 0, [Line(1, 0)], false)]
    ensures ResolveLocation(p, 1) == Some(Frame("a", "a", 0, 0))
  {
    assert FindFunction(p.functions, 1) == Some(p.functions[0]);
    assert ResolveLine(p, Line(1, 0)) == Some(Frame("a", "a", 0, 0));
  }

  /** For instance the function "a" gets itself as its file. */
  lemma EmptyFilenameIsFirstString()
    ensures var d := AddSample(Encode(New(0, 0, 1)).0, [StackFrame("a", "", 0)], 1);
            d.Some? && |d.value.samples| == 1 && StackOf(Tables(d.value), 0) == Some([Frame("a", "a", 0, 0)])
  {
    var c, frame := Encode(New(0, 0, 1)).0, StackFrame("a", "", 0);
    EncodedEmpty(0, 0, 1);
    var (b, id) := InternFrame(c, frame);
    OneMisread(c, frame, b, id);
    SingleFrame(c, frame);
    FirstSample(c, [frame], 1, b, [id]);
    MisreadLocation(Tables(AddSample(c, [frame], 1).value));
    OneLocation(Tables(AddSample(c, [frame], 1).value), 1);
  }

  lemma OneLocation(p: Profile, id: int)
    requires ResolveLocation(p, id).Some?
    ensures ResolveStack(p, [id]) == Some([ResolveLocation(p, id).value])
  {
    var none: seq<int>, empty: seq<Frame> := [], [];
    assert ResolveStack(p, none) == Some(empty);
    ResolveStackPush(p, none, id);
    assert none + [id] == [id] && empty + [ResolveLocation(p, id).value] == [ResolveLocation(p, id).value];
  }
}
