/** The two structs of kit/pprof_enc as objects, each method tied to its function on `Builder`. */
module PprofBuilderObjects {
  import opened ProfileFormat
  import opened PprofBuilder
  import opened Wrappers
  import I64

  class StringTable {
    var strings: seq<string>
    var index: map<string, int>

    constructor ()
      ensures strings == [""] && index == map["" := 0]
    {
      strings, index := [], map[];
      new;
      var _ := Intern("");
    }

    method Intern(s: string) returns (id: int)
      modifies this
      ensures s in old(index) ==> id == old(index)[s] && unchanged(this)
      ensures s !in old(index) ==>
        id == |old(strings)| && strings == old(strings) + [s] && index == old(index)[s := id]
    {
      if s in index {
        return index[s];
      }
      id := |strings|;
      strings := strings + [s];
      index := index[s := id];
    }
  }

  class ProfileBuilder {
    var st: StringTable
    var functions: seq<Function>
    var functionIndex: map<FunctionKey, int>
    var locations: seq<Location>
    var locationIndex: map<int, int>
    var samples: seq<Sample>
    var sampleIndex: map<seq<int>, int>
    var timeNanos: int
    var durationNanos: int
    const period: int

    function Model(): Builder
      reads this, st
    {
      Builder(st.strings, st.index, functions, functionIndex, locations, locationIndex,
              samples, sampleIndex, timeNanos, durationNanos, period)
    }

    constructor (timeNanos: int, durationNanos: int, period: int)
      ensures Model() == New(timeNanos, durationNanos, period)
      ensures fresh(st)
    {
      this.timeNanos, this.durationNanos, this.period := timeNanos, durationNanos, period;
      functions, functionIndex, locations, locationIndex := [], map[], [], map[];
      samples, sampleIndex := [], map[];
      st := new StringTable();
    }

    method InternFunction(frame: StackFrame) returns (id: int)
      modifies this, st
      ensures st == old(st) && (Model(), id) == PprofBuilder.InternFunction(old(Model()), frame)
    {
      var name := st.Intern(frame.functionName);
      assert (Model(), name) == PprofBuilder.Intern(old(Model()), frame.functionName);
      var filename := st.Intern(frame.filename);
      var key := (name, filename, frame.firstLine);
      if key in functionIndex {
        return functionIndex[key];
      }
      id := |functions| + 1;
      functions := functions + [Function(id, name, 0, filename, frame.firstLine)];
      functionIndex := functionIndex[key := id];
    }

    method InternLocation(functionId: int, line: int) returns (id: int)
      modifies this
      ensures st == old(st) && (Model(), id) == PprofBuilder.InternLocation(old(Model()), functionId, line)
    {
      if functionId in locationIndex {
        return locationIndex[functionId];
      }
      id := |locations| + 1;
      locations := locations + [Location(id, 0, 0, [Line(functionId, line)], false)];
      locationIndex := locationIndex[functionId := id];
    }

    method InternFrames(frames: seq<StackFrame>) returns (ids: seq<int>)
      modifies this, st
      ensures st == old(st) && (Model(), ids) == PprofBuilder.InternFrames(old(Model()), frames)
    {
      ids := [];
      for i := 0 to |frames|
        invariant st == old(st) && (Model(), ids) == PprofBuilder.InternFrames(old(Model()), frames[..i])
      {
        var functionId := InternFunction(frames[i]);
        var id := InternLocation(functionId, frames[i].firstLine);
        ids := ids + [id];
        assert frames[..i + 1][..i] == frames[..i];
      }
      assert frames[..|frames|] == frames;
    }

    /** Indexing `samples` out of bounds panics, so the caller owes a state in which it does not. */
    method AddSample(frames: seq<StackFrame>, count: int)
      requires PprofBuilder.AddSample(Model(), frames, count).Some?
      modifies this, st
      ensures st == old(st) && Some(Model()) == PprofBuilder.AddSample(old(Model()), frames, count)
    {
      var locationIds := InternFrames(frames);
      var value := I64.Wrap(count * period);
      if locationIds in sampleIndex {
        var i := sampleIndex[locationIds];
        var s := samples[i];
        samples := samples[i := s.(values := s.values[0 := I64.Wrap(s.values[0] + value)])];
      } else {
        var i := |samples|;
        samples := samples + [Sample(locationIds, [value], [])];
        sampleIndex := sampleIndex[locationIds := i];
      }
    }

    method Encode() returns (p: Profile)
      modifies this, st
      ensures st == old(st) && (Model(), p) == PprofBuilder.Encode(old(Model()))
    {
      var cpu := st.Intern("cpu");
      assert (Model(), cpu) == PprofBuilder.Intern(old(Model()), "cpu");
      var nanoseconds := st.Intern("nanoseconds");
      var kind := ValueType(cpu, nanoseconds);
      p := Profile([kind], samples, locations, functions, st.strings, timeNanos, durationNanos, Some(kind), period);
      samples, locations, functions := [], [], [];
      st.strings := [];
    }

    method Reset(timeNanos: int, durationNanos: int)
      modifies this
      ensures Model() == PprofBuilder.Reset(old(Model()), timeNanos, durationNanos) && fresh(st)
    {
      st := new StringTable();
      functions, locations, samples := [], [], [];
      functionIndex, locationIndex, sampleIndex := map[], map[], map[];
      this.timeNanos, this.durationNanos := timeNanos, durationNanos;
    }
  }

  /** flush_pprof: nothing is sent from an empty builder. */
  method FlushPprof(builder: ProfileBuilder, nowNanos: int) returns (sent: Option<Profile>)
    modifies builder, builder.st
    ensures (builder.Model(), sent) == Flush(old(builder.Model()), nowNanos)
  {
    if builder.samples == [] {
      return None;
    }
    var p := builder.Encode();
    builder.Reset(nowNanos, 15_000_000_000);
    sent := Some(p);
  }
}
