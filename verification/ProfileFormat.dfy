/**
 The profile.proto tables, and what a reader of a profile gets back from them.

 A reader looks locations and functions up by their id and strings by their
 position; `Resolve...` is that reader. It knows nothing about how a profile was
 built, so a profile means the right thing exactly when resolving it gives the
 stacks that went in.
 */
module ProfileFormat {
  import opened Wrappers

  datatype ValueType = ValueType(kind: int, unit: int)
  datatype Label = Label(key: int, str: int, num: int, numUnit: int)
  datatype Sample = Sample(locationIds: seq<int>, values: seq<int>, labels: seq<Label>)
  datatype Line = Line(functionId: int, line: int)
  datatype Location = Location(id: int, mappingId: int, address: int, lines: seq<Line>, isFolded: bool)
  datatype Function = Function(id: int, name: int, systemName: int, filename: int, startLine: int)

  datatype Profile = Profile(
    sampleTypes: seq<ValueType>,
    samples: seq<Sample>,
    locations: seq<Location>,
    functions: seq<Function>,
    strings: seq<string>,
    timeNanos: int,
    durationNanos: int,
    periodType: Option<ValueType>,
    period: int)

  // ---------------------------------------------------------------- reading

  /** What one location stands for. */
  datatype Frame = Frame(name: string, filename: string, line: int, startLine: int)

  /** What one sample stands for: a stack, leaf first, its values and its labels. */
  datatype Meaning = Meaning(frames: seq<Frame>, values: seq<int>, labels: multiset<(string, string)>)

  function StringAt(p: Profile, i: int): Option<string> {
    if 0 <= i < |p.strings| then Some(p.strings[i]) else None
  }

  function FindFunction(fs: seq<Function>, id: int): Option<Function> {
    if fs == [] then None
    else if fs[0].id == id then Some(fs[0])
    else FindFunction(fs[1..], id)
  }

  function FindLocation(ls: seq<Location>, id: int): Option<Location> {
    if ls == [] then None
    else if ls[0].id == id then Some(ls[0])
    else FindLocation(ls[1..], id)
  }

  function ResolveLine(p: Profile, l: Line): Option<Frame> {
    match FindFunction(p.functions, l.functionId)
    case None => None
    case Some(f) =>
      var name, filename := StringAt(p, f.name), StringAt(p, f.filename);
      if name.Some? && filename.Some? then Some(Frame(name.value, filename.value, l.line, f.startLine))
      else None
  }

  function ResolveLocation(p: Profile, id: int): Option<Frame> {
    match FindLocation(p.locations, id)
    case None => None
    case Some(l) => if |l.lines| == 1 then ResolveLine(p, l.lines[0]) else None
  }

  function ResolveStack(p: Profile, ids: seq<int>): (r: Option<seq<Frame>>)
    ensures r.Some? ==> |r.value| == |ids|
  {
    if ids == [] then Some([])
    else
      var init, last := ResolveStack(p, ids[..|ids| - 1]), ResolveLocation(p, ids[|ids| - 1]);
      if init.Some? && last.Some? then Some(init.value + [last.value]) else None
  }

  function ResolveLabels(p: Profile, labels: seq<Label>): Option<multiset<(string, string)>> {
    if labels == [] then Some(multiset{})
    else
      var last := labels[|labels| - 1];
      var init := ResolveLabels(p, labels[..|labels| - 1]);
      var key, value := StringAt(p, last.key), StringAt(p, last.str);
      if init.Some? && key.Some? && value.Some? then Some(init.value + multiset{(key.value, value.value)})
      else None
  }

  function ResolveSample(p: Profile, s: Sample): Option<Meaning> {
    var frames, labels := ResolveStack(p, s.locationIds), ResolveLabels(p, s.labels);
    if frames.Some? && labels.Some? then Some(Meaning(frames.value, s.values, labels.value)) else None
  }

  function ResolveSamples(p: Profile, samples: seq<Sample>): (r: Option<seq<Meaning>>)
    ensures r.Some? ==> |r.value| == |samples|
  {
    if samples == [] then Some([])
    else
      var init, last := ResolveSamples(p, samples[..|samples| - 1]), ResolveSample(p, samples[|samples| - 1]);
      if init.Some? && last.Some? then Some(init.value + [last.value]) else None
  }

  /** What the whole profile says: one meaning per sample, in order. */
  function Resolve(p: Profile): Option<seq<Meaning>> {
    ResolveSamples(p, p.samples)
  }

  // ---------------------------------------------- tables that only get longer

  /** Everything that is in the tables of `p` is at the same place in those of `q`. */
  ghost predicate Extends(p: Profile, q: Profile) {
    p.strings <= q.strings && p.functions <= q.functions && p.locations <= q.locations
  }

  /** Ids count up from one, so they are nonzero and no two entries share one. */
  ghost predicate NumberedIds(p: Profile) {
    && (forall i | 0 <= i < |p.functions| :: p.functions[i].id == i + 1)
    && (forall i | 0 <= i < |p.locations| :: p.locations[i].id == i + 1)
  }

  lemma {:induction false} FindFunctionExtend(fs: seq<Function>, gs: seq<Function>, id: int)
    requires fs <= gs && FindFunction(fs, id).Some?
    ensures FindFunction(gs, id) == FindFunction(fs, id)
  {
    assert fs[0] == gs[0];
    if fs[0].id != id {
      FindFunctionExtend(fs[1..], gs[1..], id);
    }
  }

  lemma {:induction false} FindLocationExtend(ls: seq<Location>, ms: seq<Location>, id: int)
    requires ls <= ms && FindLocation(ls, id).Some?
    ensures FindLocation(ms, id) == FindLocation(ls, id)
  {
    assert ls[0] == ms[0];
    if ls[0].id != id {
      FindLocationExtend(ls[1..], ms[1..], id);
    }
  }

  lemma {:induction false} FindFunctionAt(fs: seq<Function>, base: int, i: nat)
    requires i < |fs| && forall j | 0 <= j < |fs| :: fs[j].id == base + j
    ensures FindFunction(fs, base + i) == Some(fs[i])
  {
    if i > 0 {
      assert fs[0].id == base;
      forall j | 0 <= j < |fs[1..]| ensures fs[1..][j].id == base + 1 + j {
        assert fs[1..][j] == fs[j + 1];
      }
      FindFunctionAt(fs[1..], base + 1, i - 1);
    }
  }

  lemma {:induction false} FindLocationAt(ls: seq<Location>, base: int, i: nat)
    requires i < |ls| && forall j | 0 <= j < |ls| :: ls[j].id == base + j
    ensures FindLocation(ls, base + i) == Some(ls[i])
  {
    if i > 0 {
      assert ls[0].id == base;
      forall j | 0 <= j < |ls[1..]| ensures ls[1..][j].id == base + 1 + j {
        assert ls[1..][j] == ls[j + 1];
      }
      FindLocationAt(ls[1..], base + 1, i - 1);
    }
  }

  lemma ResolveLocationExtend(p: Profile, q: Profile, id: int)
    requires Extends(p, q) && ResolveLocation(p, id).Some?
    ensures ResolveLocation(q, id) == ResolveLocation(p, id)
  {
    FindLocationExtend(p.locations, q.locations, id);
    FindFunctionExtend(p.functions, q.functions, FindLocation(p.locations, id).value.lines[0].functionId);
  }

  lemma {:induction false} ResolveStackExtend(p: Profile, q: Profile, ids: seq<int>)
    requires Extends(p, q) && ResolveStack(p, ids).Some?
    ensures ResolveStack(q, ids) == ResolveStack(p, ids)
  {
    if ids != [] {
      ResolveStackExtend(p, q, ids[..|ids| - 1]);
      ResolveLocationExtend(p, q, ids[|ids| - 1]);
    }
  }

  lemma {:induction false} ResolveLabelsExtend(p: Profile, q: Profile, labels: seq<Label>)
    requires Extends(p, q) && ResolveLabels(p, labels).Some?
    ensures ResolveLabels(q, labels) == ResolveLabels(p, labels)
  {
    if labels != [] {
      ResolveLabelsExtend(p, q, labels[..|labels| - 1]);
    }
  }

  /** A sample that is already readable goes on meaning the same while the tables grow. */
  lemma {:induction false} ResolveSamplesExtend(p: Profile, q: Profile, samples: seq<Sample>)
    requires Extends(p, q) && ResolveSamples(p, samples).Some?
    ensures ResolveSamples(q, samples) == ResolveSamples(p, samples)
  {
    if samples != [] {
      ResolveSamplesExtend(p, q, samples[..|samples| - 1]);
      var last := samples[|samples| - 1];
      ResolveStackExtend(p, q, last.locationIds);
      ResolveLabelsExtend(p, q, last.labels);
    }
  }

  lemma {:induction false} ResolveSamplesAt(p: Profile, samples: seq<Sample>, i: nat)
    requires i < |samples| && ResolveSamples(p, samples).Some?
    ensures ResolveSample(p, samples[i]) == Some(ResolveSamples(p, samples).value[i])
  {
    if i < |samples| - 1 {
      ResolveSamplesAt(p, samples[..|samples| - 1], i);
    }
  }

  lemma ResolveStackPush(p: Profile, ids: seq<int>, id: int)
    requires ResolveStack(p, ids).Some? && ResolveLocation(p, id).Some?
    ensures ResolveStack(p, ids + [id]) == Some(ResolveStack(p, ids).value + [ResolveLocation(p, id).value])
  {
    assert (ids + [id])[..|ids + [id]| - 1] == ids;
  }

  lemma ResolveLabelsPush(p: Profile, labels: seq<Label>, l: Label)
    requires ResolveLabels(p, labels).Some? && StringAt(p, l.key).Some? && StringAt(p, l.str).Some?
    ensures ResolveLabels(p, labels + [l])
         == Some(ResolveLabels(p, labels).value + multiset{(StringAt(p, l.key).value, StringAt(p, l.str).value)})
  {
    assert (labels + [l])[..|labels + [l]| - 1] == labels;
  }

  lemma ResolveSamplesPush(p: Profile, samples: seq<Sample>, s: Sample)
    requires ResolveSamples(p, samples).Some? && ResolveSample(p, s).Some?
    ensures ResolveSamples(p, samples + [s]) == Some(ResolveSamples(p, samples).value + [ResolveSample(p, s).value])
  {
    assert (samples + [s])[..|samples + [s]| - 1] == samples;
  }
}
