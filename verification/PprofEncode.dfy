/**
 The encoder of src/encode/pprof.rs: stack traces go in, interned profile tables
 come out. `PProfBuilder` is the source's builder, `Encode` its nested loops.

 What the result must mean is stated without any table: `ReportsMeaning` lists, as
 a multiset, one sample per trace and report. `Encode` promises that a reader of
 the profile gets exactly that multiset back.
 */
module PprofEncode {
  import opened Wrappers
  import opened ProfileFormat
  import opened Interning
  import opened Bags
  import opened BackendTypes
  import I64

  datatype FunctionMirror = FunctionMirror(name: int, filename: int)
  datatype LocationMirror = LocationMirror(functionId: int, line: int)

  // ------------------------------------------------------------- the meaning

  function FrameMeaning(sf: StackFrame): Frame {
    Frame(sf.name.GetOr(""), sf.filename.GetOr(""), sf.line.GetOr(0), 0)
  }

  function FramesMeaning(frames: seq<StackFrame>): (r: seq<Frame>)
    ensures |r| == |frames|
    ensures forall i | 0 <= i < |r| :: r[i] == FrameMeaning(frames[i])
  {
    if frames == [] then []
    else FramesMeaning(frames[..|frames| - 1]) + [FrameMeaning(frames[|frames| - 1])]
  }

  function KeysOf(tags: set<Tag>): set<string> {
    set t | t in tags :: t.key
  }

  ghost predicate IsGreatest(tags: set<Tag>, key: string, value: string) {
    && Tag(key, value) in tags
    && forall t | t in tags && t.key == key :: t.value == value || StringLess(t.value, value)
  }

  lemma GreatestUnique(tags: set<Tag>, key: string, a: string, b: string)
    requires IsGreatest(tags, key, a) && IsGreatest(tags, key, b)
    ensures a == b
  {
    StringLessTotal(a, b);
    assert Tag(key, a).value == a && Tag(key, b).value == b;
  }

  lemma {:induction false} GreatestExists(tags: set<Tag>, key: string)
    requires key in KeysOf(tags)
    ensures exists value :: IsGreatest(tags, key, value)
  {
    var t :| t in tags && t.key == key;
    var rest := tags - {t};
    if key in KeysOf(rest) {
      GreatestExists(rest, key);
      var value :| IsGreatest(rest, key, value);
      StringLessTotal(t.value, value);
      if StringLess(value, t.value) {
        forall u | u in tags && u.key == key ensures u.value == t.value || StringLess(u.value, t.value) {
          if u != t && u.value != value { StringLessTransitive(u.value, value, t.value); }
        }
        assert IsGreatest(tags, key, t.value);
      } else {
        assert IsGreatest(tags, key, value);
      }
    } else {
      assert IsGreatest(tags, key, t.value);
    }
  }

  ghost function Greatest(tags: set<Tag>, key: string): (value: string)
    requires key in KeysOf(tags)
    ensures IsGreatest(tags, key, value)
  {
    GreatestExists(tags, key);
    var value :| IsGreatest(tags, key, value);
    value
  }

  /** `over` wins where it has a tag for the key, and then its greatest value does. */
  ghost function Override(under: map<string, string>, over: set<Tag>): map<string, string> {
    map k | k in under.Keys + KeysOf(over) :: if k in KeysOf(over) then Greatest(over, k) else under[k]
  }

  /** The labels of a sample: the report's tags over the trace's tags. */
  ghost function LabelsMeaning(trace: set<Tag>, report: set<Tag>): map<string, string> {
    Override(Override(map[], trace), report)
  }

  ghost function Pairs(m: map<string, string>): set<(string, string)> {
    set k | k in m :: (k, m[k])
  }

  ghost function TraceMeaning(t: StackTrace, count: nat, reportTags: set<Tag>, period: int): Meaning {
    Meaning(FramesMeaning(t.frames), [I64.Wrap(count * period)],
            multiset(Pairs(LabelsMeaning(t.metadata.tags, reportTags))))
  }

  lemma GreatestIff(tags: set<Tag>, key: string, value: string)
    requires key in KeysOf(tags)
    ensures Greatest(tags, key) == value <==> IsGreatest(tags, key, value)
  {
    if IsGreatest(tags, key, value) { GreatestUnique(tags, key, Greatest(tags, key), value); }
  }

  /** A label is the report's greatest value for its key if the report has the key, and else the trace's. */
  lemma LabelsAre(trace: set<Tag>, report: set<Tag>, key: string, value: string)
    ensures (key, value) in Pairs(LabelsMeaning(trace, report)) <==>
      if exists t :: t in report && t.key == key then IsGreatest(report, key, value) else IsGreatest(trace, key, value)
  {
    PairsIn(LabelsMeaning(trace, report), key, value);
    KeysIn(report, key);
    KeysIn(trace, key);
    if key in KeysOf(report) {
      GreatestIff(report, key, value);
    } else if key in KeysOf(trace) {
      GreatestIff(trace, key, value);
    } else {
      assert IsGreatest(trace, key, value) ==> Tag(key, value) in trace;
    }
  }

  lemma PairsIn(m: map<string, string>, key: string, value: string)
    ensures (key, value) in Pairs(m) <==> key in m && m[key] == value
  {
  }

  lemma KeysIn(tags: set<Tag>, key: string)
    ensures key in KeysOf(tags) <==> exists t :: t in tags && t.key == key
    ensures forall value | Tag(key, value) in tags :: key in KeysOf(tags)
  {
    forall value | Tag(key, value) in tags ensures key in KeysOf(tags) {
      assert Tag(key, value).key == key;
    }
  }

  /** A frame is told by its name, file and line, with "" and 0 where one is missing. */
  predicate Tells(f: Frame, sf: StackFrame) {
    && f.name == (match sf.name case Some(name) => name case None => "")
    && f.filename == (match sf.filename case Some(filename) => filename case None => "")
    && f.line == (match sf.line case Some(line) => line case None => 0)
    && f.startLine == 0
  }

  /** What a sample says: the trace's frames in order, its count times the period, and each label once. */
  lemma MeaningSays(t: StackTrace, count: nat, report: set<Tag>, period: int)
    ensures var m := TraceMeaning(t, count, report, period);
            && |m.frames| == |t.frames| && (forall i | 0 <= i < |t.frames| :: Tells(m.frames[i], t.frames[i]))
            && m.values == [I64.Wrap(count * period)]
            && forall pair :: m.labels[pair] == if pair in Pairs(LabelsMeaning(t.metadata.tags, report)) then 1 else 0
  {
  }

  ghost function Describe(reportTags: set<Tag>, period: int): ((StackTrace, nat)) -> Meaning {
    (item: (StackTrace, nat)) => TraceMeaning(item.0, item.1, reportTags, period)
  }

  /** One meaning for every trace of every report. */
  ghost function ReportsMeaning(reports: seq<Report>, period: int): multiset<Meaning> {
    if reports == [] then multiset{}
    else
      var last := reports[|reports| - 1];
      ReportsMeaning(reports[..|reports| - 1], period) + Image(last.data.Items, Describe(last.metadata.tags, period))
  }

  lemma ReportsMeaningPush(reports: seq<Report>, i: nat, period: int)
    requires i < |reports|
    ensures ReportsMeaning(reports[..i + 1], period)
         == ReportsMeaning(reports[..i], period) + Image(reports[i].data.Items, Describe(reports[i].metadata.tags, period))
  {
    assert reports[..i + 1][..i] == reports[..i];
  }

  // ------------------------------------------------------------- the builder

  function FunctionKeys(fs: seq<Function>): (r: seq<FunctionMirror>)
    ensures |r| == |fs|
  {
    if fs == [] then []
    else
      var last := fs[|fs| - 1];
      FunctionKeys(fs[..|fs| - 1]) + [FunctionMirror(last.name, last.filename)]
  }

  function LocationKey(l: Location): LocationMirror {
    if |l.lines| == 1 then LocationMirror(l.lines[0].functionId, l.lines[0].line) else LocationMirror(0, 0)
  }

  function LocationKeys(ls: seq<Location>): (r: seq<LocationMirror>)
    ensures |r| == |ls|
  {
    if ls == [] then [] else LocationKeys(ls[..|ls| - 1]) + [LocationKey(ls[|ls| - 1])]
  }

  /** The i-th function has id i+1, points at existing strings and leaves the rest zero. */
  ghost predicate LinkedFunctions(fs: seq<Function>, strings: nat) {
    fs == [] ||
    var last := fs[|fs| - 1];
    && LinkedFunctions(fs[..|fs| - 1], strings)
    && 0 <= last.name < strings && 0 <= last.filename < strings
    && last == Function(|fs|, last.name, 0, last.filename, 0)
  }

  /** The i-th location has id i+1 and one line, in an existing function. */
  ghost predicate LinkedLocations(ls: seq<Location>, functions: nat) {
    ls == [] ||
    var last := ls[|ls| - 1];
    && LinkedLocations(ls[..|ls| - 1], functions)
    && |last.lines| == 1 && 1 <= last.lines[0].functionId <= functions
    && last == Location(|ls|, 0, 0, last.lines, false)
  }

  /** The three index maps agree with the three tables, and every reference is to an existing entry. */
  ghost predicate Consistent(p: Profile, strings: map<string, int>, functions: map<FunctionMirror, int>,
                             locations: map<LocationMirror, int>) {
    && LinkedFunctions(p.functions, |p.strings|)
    && LinkedLocations(p.locations, |p.functions|)
    && Indexes(strings, p.strings, 0)
    && Indexes(functions, FunctionKeys(p.functions), 1)
    && Indexes(locations, LocationKeys(p.locations), 1)
  }

  lemma {:induction false} LinkedFunctionsMore(fs: seq<Function>, m: nat, n: nat)
    requires LinkedFunctions(fs, m) && m <= n
    ensures LinkedFunctions(fs, n)
  {
    if fs != [] { LinkedFunctionsMore(fs[..|fs| - 1], m, n); }
  }

  lemma {:induction false} LinkedLocationsMore(ls: seq<Location>, m: nat, n: nat)
    requires LinkedLocations(ls, m) && m <= n
    ensures LinkedLocations(ls, n)
  {
    if ls != [] { LinkedLocationsMore(ls[..|ls| - 1], m, n); }
  }

  lemma {:induction false} LinkedFunctionsAt(fs: seq<Function>, strings: nat)
    requires LinkedFunctions(fs, strings)
    ensures forall i | 0 <= i < |fs| ::
      && fs[i].id == i + 1 && fs[i].startLine == 0
      && 0 <= fs[i].name < strings && 0 <= fs[i].filename < strings
      && FunctionKeys(fs)[i] == FunctionMirror(fs[i].name, fs[i].filename)
  {
    if fs != [] { LinkedFunctionsAt(fs[..|fs| - 1], strings); }
  }

  lemma {:induction false} LinkedLocationsAt(ls: seq<Location>, functions: nat)
    requires LinkedLocations(ls, functions)
    ensures forall i | 0 <= i < |ls| ::
      && ls[i].id == i + 1 && |ls[i].lines| == 1
      && 1 <= ls[i].lines[0].functionId <= functions
      && LocationKeys(ls)[i] == LocationMirror(ls[i].lines[0].functionId, ls[i].lines[0].line)
  {
    if ls != [] { LinkedLocationsAt(ls[..|ls| - 1], functions); }
  }

  lemma TablesNumbered(p: Profile)
    requires LinkedFunctions(p.functions, |p.strings|) && LinkedLocations(p.locations, |p.functions|)
    ensures NumberedIds(p)
  {
    LinkedFunctionsAt(p.functions, |p.strings|);
    LinkedLocationsAt(p.locations, |p.functions|);
  }

  /** What a reader gets for a location whose key, and whose function's key, we know. */
  lemma ResolveKeys(p: Profile, lm: LocationMirror, locationId: int, fm: FunctionMirror)
    requires LinkedFunctions(p.functions, |p.strings|) && LinkedLocations(p.locations, |p.functions|)
    requires 1 <= locationId <= |LocationKeys(p.locations)| && LocationKeys(p.locations)[locationId - 1] == lm
    requires 1 <= lm.functionId <= |FunctionKeys(p.functions)| && FunctionKeys(p.functions)[lm.functionId - 1] == fm
    ensures 0 <= fm.name < |p.strings| && 0 <= fm.filename < |p.strings|
    ensures ResolveLocation(p, locationId) == Some(Frame(p.strings[fm.name], p.strings[fm.filename], lm.line, 0))
  {
    LinkedFunctionsAt(p.functions, |p.strings|);
    LinkedLocationsAt(p.locations, |p.functions|);
    FindLocationAt(p.locations, 1, locationId - 1);
    FindFunctionAt(p.functions, 1, lm.functionId - 1);
  }

  /** Nothing of a profile but its tables differs. */
  ghost predicate OnlyTables(p: Profile, q: Profile) {
    Extends(p, q) && q == p.(strings := q.strings, functions := q.functions, locations := q.locations)
  }

  /** Nothing but the tables and the samples differs. */
  ghost predicate OnlyAddsTo(p: Profile, q: Profile) {
    && Extends(p, q)
    && q == p.(strings := q.strings, functions := q.functions, locations := q.locations, samples := q.samples)
  }

  lemma OnlyTablesTransitive(p: Profile, q: Profile, r: Profile)
    requires OnlyTables(p, q) && OnlyTables(q, r)
    ensures OnlyTables(p, r)
  {
  }

  lemma StringAdded(p: Profile, strings: map<string, int>, functions: map<FunctionMirror, int>,
                    locations: map<LocationMirror, int>, s: string)
    requires Consistent(p, strings, functions, locations) && s !in p.strings
    ensures Consistent(p.(strings := p.strings + [s]), strings[s := |p.strings|], functions, locations)
  {
    IndexesPush(strings, p.strings, 0, s);
    LinkedFunctionsMore(p.functions, |p.strings|, |p.strings| + 1);
  }

  lemma FunctionAdded(p: Profile, strings: map<string, int>, functions: map<FunctionMirror, int>,
                      locations: map<LocationMirror, int>, fm: FunctionMirror)
    requires Consistent(p, strings, functions, locations) && fm !in FunctionKeys(p.functions)
    requires 0 <= fm.name < |p.strings| && 0 <= fm.filename < |p.strings|
    ensures var id := |p.functions| + 1; var fs := p.functions + [Function(id, fm.name, 0, fm.filename, 0)];
            Consistent(p.(functions := fs), strings, functions[fm := id], locations)
            && FunctionKeys(fs) == FunctionKeys(p.functions) + [fm]
  {
    IndexesPush(functions, FunctionKeys(p.functions), 1, fm);
    LinkedLocationsMore(p.locations, |p.functions|, |p.functions| + 1);
    var f := Function(|p.functions| + 1, fm.name, 0, fm.filename, 0);
    assert (p.functions + [f])[..|p.functions|] == p.functions;
  }

  lemma LocationAdded(p: Profile, strings: map<string, int>, functions: map<FunctionMirror, int>,
                      locations: map<LocationMirror, int>, lm: LocationMirror)
    requires Consistent(p, strings, functions, locations) && lm !in LocationKeys(p.locations)
    requires 1 <= lm.functionId <= |p.functions|
    ensures var id := |p.locations| + 1;
            var ls := p.locations + [Location(id, 0, 0, [Line(lm.functionId, lm.line)], false)];
            Consistent(p.(locations := ls), strings, functions, locations[lm := id])
            && LocationKeys(ls) == LocationKeys(p.locations) + [lm]
  {
    IndexesPush(locations, LocationKeys(p.locations), 1, lm);
    var l := Location(|p.locations| + 1, 0, 0, [Line(lm.functionId, lm.line)], false);
    assert (p.locations + [l])[..|p.locations|] == p.locations;
  }

  // ------------------------------------------------------------- label maps

  lemma GreatestOfLast(done: set<Tag>, l: Tag)
    requires forall d | d in done :: TagLess(d, l)
    ensures l.key in KeysOf(done + {l}) && Greatest(done + {l}, l.key) == l.value
  {
    forall t | t in done + {l} && t.key == l.key ensures t.value == l.value || StringLess(t.value, l.value) {
      if t in done { StringLessTotal(l.key, l.key); }
    }
    assert l in done + {l};
    assert IsGreatest(done + {l}, l.key, l.value);
    GreatestUnique(done + {l}, l.key, Greatest(done + {l}, l.key), l.value);
  }

  lemma GreatestOfOthers(done: set<Tag>, l: Tag, k: string)
    requires k in KeysOf(done) && k != l.key
    ensures k in KeysOf(done + {l}) && Greatest(done + {l}, k) == Greatest(done, k)
  {
    assert KeysOf(done + {l}) == KeysOf(done) + {l.key};
    assert IsGreatest(done + {l}, k, Greatest(done, k));
    GreatestUnique(done + {l}, k, Greatest(done + {l}, k), Greatest(done, k));
  }

  /** Inserting the tags in ascending order leaves the greatest value of each key. */
  lemma OverrideGreater(under: map<string, string>, done: set<Tag>, l: Tag)
    requires forall d | d in done :: TagLess(d, l)
    ensures Override(under, done + {l}) == Override(under, done)[l.key := l.value]
  {
    assert KeysOf(done + {l}) == KeysOf(done) + {l.key};
    GreatestOfLast(done, l);
    forall k | k in KeysOf(done) && k != l.key ensures Greatest(done + {l}, k) == Greatest(done, k) {
      GreatestOfOthers(done, l, k);
    }
  }

  lemma PairsOfNew(m: map<string, string>, k: string, v: string)
    requires k !in m
    ensures multiset(Pairs(m[k := v])) == multiset(Pairs(m)) + multiset{(k, v)}
  {
    var m' := m[k := v];
    forall item | item in Pairs(m') ensures item in Pairs(m) + {(k, v)} {
      if item.0 != k { assert item.0 in m && m'[item.0] == m[item.0]; }
    }
    forall item | item in Pairs(m) + {(k, v)} ensures item in Pairs(m') {
      assert item.0 in m' && item == (item.0, m'[item.0]);
    }
    assert Pairs(m[k := v]) == Pairs(m) + {(k, v)};
  }

  /** A label map over string numbers says the same as a map over the strings. */
  ghost predicate Spells(table: seq<string>, labels: map<int, int>, named: map<string, string>) {
    && (forall i | i in labels ::
          && 0 <= i < |table| && 0 <= labels[i] < |table|
          && table[i] in named && named[table[i]] == table[labels[i]])
    && (forall k | k in named :: exists i :: i in labels && table[i] == k)
  }

  lemma SpellsMore(table: seq<string>, more: seq<string>, labels: map<int, int>, named: map<string, string>)
    requires Spells(table, labels, named) && table <= more
    ensures Spells(more, labels, named)
  {
    forall k | k in named ensures exists i :: i in labels && more[i] == k {
      var i :| i in labels && table[i] == k;
      assert more[i] == k;
    }
  }

  lemma SpellsInsert(table: seq<string>, labels: map<int, int>, named: map<string, string>, k: int, v: int)
    requires Spells(table, labels, named) && Distinct(table) && 0 <= k < |table| && 0 <= v < |table|
    ensures Spells(table, labels[k := v], named[table[k] := table[v]])
  {
    var labels', named' := labels[k := v], named[table[k] := table[v]];
    forall i | i in labels' ensures named'[table[i]] == table[labels'[i]] {
      DistinctAt(table, i, k);
    }
    forall key | key in named' ensures exists i :: i in labels' && table[i] == key {
      if key == table[k] {
        assert k in labels';
      } else {
        var i :| i in labels && table[i] == key;
        assert i in labels';
      }
    }
  }

  /** `done` holds the entries of `named` whose label has been emitted. */
  ghost predicate SpellsDone(table: seq<string>, labels: map<int, int>, named: map<string, string>,
                             rest: set<int>, done: map<string, string>)
    requires Spells(table, labels, named)
  {
    && (forall k | k in done :: k in named && done[k] == named[k])
    && (forall i | i in labels :: table[i] in done <==> i !in rest)
  }

  lemma SpellsStep(table: seq<string>, labels: map<int, int>, named: map<string, string>,
                   rest: set<int>, done: map<string, string>, k: int)
    requires Spells(table, labels, named) && SpellsDone(table, labels, named, rest, done)
    requires Distinct(table) && k in rest && k in labels
    ensures table[k] !in done && table[k] in named && named[table[k]] == table[labels[k]]
    ensures SpellsDone(table, labels, named, rest - {k}, done[table[k] := named[table[k]]])
  {
    forall i | i in labels ensures table[i] in done[table[k] := named[table[k]]] <==> i !in rest - {k} {
      DistinctAt(table, i, k);
    }
  }

  /** One turn of the label loop: the label is new, and it reads back as the pair it stands for. */
  lemma EmitStep(p: Profile, labels: map<int, int>, named: map<string, string>,
                 rest: set<int>, done: map<string, string>, out: seq<Label>, k: int)
    requires Spells(p.strings, labels, named) && SpellsDone(p.strings, labels, named, rest, done)
    requires Distinct(p.strings) && k in rest && k in labels
    requires ResolveLabels(p, out) == Some(multiset(Pairs(done)))
    ensures p.strings[k] in named
    ensures var key := p.strings[k]; var done' := done[key := named[key]];
            SpellsDone(p.strings, labels, named, rest - {k}, done')
            && ResolveLabels(p, out + [Label(k, labels[k], 0, 0)]) == Some(multiset(Pairs(done')))
  {
    SpellsStep(p.strings, labels, named, rest, done, k);
    ResolveLabelsPush(p, out, Label(k, labels[k], 0, 0));
    PairsOfNew(done, p.strings[k], named[p.strings[k]]);
  }

  lemma SpellsAll(table: seq<string>, labels: map<int, int>, named: map<string, string>, done: map<string, string>)
    requires Spells(table, labels, named) && SpellsDone(table, labels, named, {}, done)
    ensures done == named
  {
    forall k | k in named ensures k in done {
      var i :| i in labels && table[i] == k;
      assert table[i] in done;
    }
  }

  lemma FramesPush(p: Profile, q: Profile, frames: seq<StackFrame>, i: nat, ids: seq<int>, id: int)
    requires i < |frames| && Extends(p, q) && ResolveStack(p, ids) == Some(FramesMeaning(frames[..i]))
    requires ResolveLocation(q, id) == Some(FrameMeaning(frames[i]))
    ensures ResolveStack(q, ids + [id]) == Some(FramesMeaning(frames[..i + 1]))
  {
    ResolveStackExtend(p, q, ids);
    ResolveStackPush(q, ids, id);
    assert frames[..i + 1][..i] == frames[..i];
  }

  /** The profile resolves, and says `more` on top of `base`. */
  ghost predicate Says(p: Profile, base: multiset<Meaning>, more: multiset<Meaning>) {
    Resolve(p).Some? && multiset(Resolve(p).value) == base + more
  }

  lemma SaysMore(p: Profile, q: Profile, base: multiset<Meaning>, more: multiset<Meaning>, m: Meaning)
    requires Says(p, base, more) && Resolve(q) == Some(Resolve(p).value + [m])
    ensures Says(q, base, more + multiset{m})
  {
  }

  class PProfBuilder {
    var profile: Profile
    var strings: map<string, int>
    var functions: map<FunctionMirror, int>
    var locations: map<LocationMirror, int>

    ghost predicate Valid() reads this {
      Consistent(profile, strings, functions, locations)
    }

    constructor (timeNanos: int, durationNanos: int)
      ensures Valid()
      ensures profile == Profile([], [], [], [], [], timeNanos, durationNanos, None, 0)
    {
      strings, functions, locations := map[], map[], map[];
      profile := Profile([], [], [], [], [], timeNanos, durationNanos, None, 0);
    }

    method AddString(s: string) returns (id: int)
      requires Valid()
      modifies this
      ensures Valid() && OnlyTables(old(profile), profile)
      ensures profile == old(profile).(strings := if s in old(strings) then old(profile.strings) else old(profile.strings) + [s])
      ensures StringAt(profile, id) == Some(s) && s in strings && strings[s] == id
      ensures old(profile.strings) == [] ==> id == 0
    {
      Lookup(strings, profile.strings, 0, s);
      if s in strings {
        return strings[s];
      }
      assert |strings| != |profile.strings| + 1;
      id := |strings|;
      StringAdded(profile, strings, functions, locations, s);
      strings := strings[s := id];
      profile := profile.(strings := profile.strings + [s]);
    }

    method AddFunction(fm: FunctionMirror) returns (id: int)
      requires Valid() && 0 <= fm.name < |profile.strings| && 0 <= fm.filename < |profile.strings|
      modifies this
      ensures Valid() && OnlyTables(old(profile), profile)
      ensures profile == old(profile).(functions :=
        if fm in old(functions) then old(profile.functions)
        else old(profile.functions) + [Function(id, fm.name, 0, fm.filename, 0)])
      ensures 1 <= id <= |profile.functions|
      ensures FunctionKeys(profile.functions)[id - 1] == fm
    {
      Lookup(functions, FunctionKeys(profile.functions), 1, fm);
      if fm in functions {
        return functions[fm];
      }
      assert |functions| != |profile.functions| + 1;
      id := |functions| + 1;
      FunctionAdded(profile, strings, functions, locations, fm);
      functions := functions[fm := id];
      profile := profile.(functions := profile.functions + [Function(id, fm.name, 0, fm.filename, 0)]);
    }

    method AddLocation(lm: LocationMirror) returns (id: int)
      requires Valid() && 1 <= lm.functionId <= |profile.functions|
      modifies this
      ensures Valid() && OnlyTables(old(profile), profile)
      ensures profile == old(profile).(locations :=
        if lm in old(locations) then old(profile.locations)
        else old(profile.locations) + [Location(id, 0, 0, [Line(lm.functionId, lm.line)], false)])
      ensures 1 <= id <= |profile.locations|
      ensures LocationKeys(profile.locations)[id - 1] == lm
    {
      Lookup(locations, LocationKeys(profile.locations), 1, lm);
      if lm in locations {
        return locations[lm];
      }
      assert |locations| != |profile.locations| + 1;
      id := |locations| + 1;
      LocationAdded(profile, strings, functions, locations, lm);
      locations := locations[lm := id];
      profile := profile.(locations := profile.locations + [Location(id, 0, 0, [Line(lm.functionId, lm.line)], false)]);
    }

    /** The first half of the body of the frame loop: the strings and the function. */
    method AddFrameFunction(sf: StackFrame) returns (functionId: int, ghost fm: FunctionMirror)
      requires Valid()
      modifies this
      ensures Valid() && OnlyTables(old(profile), profile)
      ensures 1 <= functionId <= |profile.functions| && FunctionKeys(profile.functions)[functionId - 1] == fm
      ensures StringAt(profile, fm.name) == Some(sf.name.GetOr(""))
      ensures StringAt(profile, fm.filename) == Some(sf.filename.GetOr(""))
    {
      var name := AddString(sf.name.GetOr(""));
      ghost var p1 := profile;
      var filename := AddString(sf.filename.GetOr(""));
      ghost var p2 := profile;
      OnlyTablesTransitive(old(profile), p1, p2);
      fm := FunctionMirror(name, filename);
      functionId := AddFunction(FunctionMirror(name, filename));
      OnlyTablesTransitive(old(profile), p2, profile);
    }

    /** The body of the frame loop. */
    method AddFrame(sf: StackFrame) returns (locationId: int)
      requires Valid()
      modifies this
      ensures Valid() && OnlyTables(old(profile), profile)
      ensures ResolveLocation(profile, locationId) == Some(FrameMeaning(sf))
    {
      var line := sf.line.GetOr(0);
      ghost var fm;
      var functionId;
      functionId, fm := AddFrameFunction(sf);
      ghost var p1 := profile;
      var lm := LocationMirror(functionId, line);
      locationId := AddLocation(lm);
      OnlyTablesTransitive(old(profile), p1, profile);
      ResolveKeys(profile, lm, locationId, fm);
    }

    /** The frame loop of one sample. */
    method AddFrames(frames: seq<StackFrame>) returns (ids: seq<int>)
      requires Valid()
      modifies this
      ensures Valid() && OnlyTables(old(profile), profile)
      ensures ResolveStack(profile, ids) == Some(FramesMeaning(frames))
    {
      ids := [];
      for i := 0 to |frames|
        invariant Valid() && OnlyTables(old(profile), profile)
        invariant ResolveStack(profile, ids) == Some(FramesMeaning(frames[..i]))
      {
        ghost var before := profile;
        var locationId := AddFrame(frames[i]);
        FramesPush(before, profile, frames, i, ids, locationId);
        ids := ids + [locationId];
      }
      assert frames[..|frames|] == frames;
    }

    /** The body of the tag loops. */
    method AddTag(l: Tag, labels: map<int, int>, ghost named: map<string, string>) returns (result: map<int, int>)
      requires Valid() && Spells(profile.strings, labels, named)
      modifies this
      ensures Valid() && OnlyTables(old(profile), profile)
      ensures Spells(profile.strings, result, named[l.key := l.value])
    {
      var k := AddString(l.key);
      ghost var p1 := profile;
      var v := AddString(l.value);
      OnlyTablesTransitive(old(profile), p1, profile);
      SpellsMore(old(profile.strings), profile.strings, labels, named);
      SpellsInsert(profile.strings, labels, named, k, v);
      result := labels[k := v];
    }

    /** One of the two tag loops of a sample: a BTreeSet is iterated smallest tag first. */
    method AddTags(tags: set<Tag>, labels: map<int, int>, ghost named: map<string, string>) returns (result: map<int, int>)
      requires Valid() && Spells(profile.strings, labels, named)
      modifies this
      ensures Valid() && OnlyTables(old(profile), profile)
      ensures Spells(profile.strings, result, Override(named, tags))
    {
      result := labels;
      var rest := tags;
      ghost var done: set<Tag> := {};
      assert Override(named, done) == named;
      while rest != {}
        invariant rest + done == tags
        invariant forall d, r | d in done && r in rest :: TagLess(d, r)
        invariant Valid() && OnlyTables(old(profile), profile)
        invariant Spells(profile.strings, result, Override(named, done))
        decreases rest
      {
        ghost var first := FirstExists(rest);
        assert first in rest && forall t | t in rest :: t == first || TagLess(first, t);
        var l :| l in rest && forall t | t in rest :: t == l || TagLess(l, t);
        ghost var before := profile;
        result := AddTag(l, result, Override(named, done));
        OnlyTablesTransitive(old(profile), before, profile);
        OverrideGreater(named, done, l);
        rest, done := rest - {l}, done + {l};
      }
      assert done == tags;
    }

    /** The loop that turns the label map into the sample's label list, in any order. */
    method EmitLabels(labels: map<int, int>, ghost named: map<string, string>) returns (out: seq<Label>)
      requires Valid() && Spells(profile.strings, labels, named)
      ensures ResolveLabels(profile, out) == Some(multiset(Pairs(named)))
    {
      out := [];
      var rest := labels.Keys;
      ghost var done: map<string, string> := map[];
      assert Pairs(done) == {} && multiset(Pairs(done)) == multiset{};
      while rest != {}
        invariant rest <= labels.Keys
        invariant SpellsDone(profile.strings, labels, named, rest, done)
        invariant ResolveLabels(profile, out) == Some(multiset(Pairs(done)))
        decreases rest
      {
        ghost var some := Member(rest);
        var k :| k in rest;
        var entry := Label(k, labels[k], 0, 0);
        ghost var key := profile.strings[k];
        EmitStep(profile, labels, named, rest, done, out, k);
        done := done[key := named[key]];
        out := out + [entry];
        rest := rest - {k};
      }
      SpellsAll(profile.strings, labels, named, done);
    }

    /** What one trace becomes. */
    method MakeSample(t: StackTrace, count: nat, reportTags: set<Tag>) returns (sample: Sample)
      requires Valid()
      modifies this
      ensures Valid() && OnlyTables(old(profile), profile)
      ensures ResolveSample(profile, sample) == Some(TraceMeaning(t, count, reportTags, profile.period))
    {
      var value := I64.Wrap(I64.Wrap(count) * profile.period);
      I64.WrapProduct(count, profile.period);
      var ids := AddFrames(t.frames);
      ghost var p1 := profile;
      assert Spells(profile.strings, map[], map[]);
      var labels := AddTags(t.metadata.tags, map[], map[]);
      ghost var own := Override(map[], t.metadata.tags);
      ghost var p2 := profile;
      labels := AddTags(reportTags, labels, own);
      OnlyTablesTransitive(p1, p2, profile);
      ResolveStackExtend(p1, profile, ids);
      OnlyTablesTransitive(old(profile), p1, profile);
      var emitted := EmitLabels(labels, Override(own, reportTags));
      sample := Sample(ids, [value], emitted);
    }

    /** The body of the loop over one report: one trace becomes one sample. */
    method AddSample(t: StackTrace, count: nat, reportTags: set<Tag>)
      requires Valid() && Resolve(profile).Some?
      modifies this
      ensures Valid() && OnlyAddsTo(old(profile), profile)
      ensures Resolve(profile)
           == Some(old(Resolve(profile)).value + [TraceMeaning(t, count, reportTags, profile.period)])
    {
      var sample := MakeSample(t, count, reportTags);
      ghost var before := profile;
      profile := profile.(samples := profile.samples + [sample]);
      SampleAdded(old(profile), before, sample);
    }

    /** The loop over one report: its HashMap is visited in any order. */
    method AddReport(report: Report)
      requires Valid() && Resolve(profile).Some?
      modifies this
      ensures Valid() && OnlyAddsTo(old(profile), profile)
      ensures Says(profile, multiset(old(Resolve(profile)).value),
                   Image(report.data.Items, Describe(report.metadata.tags, profile.period)))
    {
      ghost var items, f := report.data.Items, Describe(report.metadata.tags, profile.period);
      ghost var base := multiset(Resolve(profile).value);
      var rest := report.data.Items;
      assert items - rest == {};
      while rest != {}
        invariant rest <= items
        invariant Valid() && OnlyAddsTo(old(profile), profile)
        invariant Says(profile, base, Image(items - rest, f))
        decreases rest
      {
        var item :| item in rest;
        ghost var before := profile;
        AddSample(item.0, item.1, report.metadata.tags);
        OnlyAddsTransitive(old(profile), before, profile);
        SaysMore(before, profile, base, Image(items - rest, f), f(item));
        ImageRest(items, rest, item, f);
        rest := rest - {item};
      }
      assert items - rest == items;
    }
  }

  lemma OnlyAddsTransitive(p: Profile, q: Profile, r: Profile)
    requires OnlyAddsTo(p, q) && OnlyAddsTo(q, r)
    ensures OnlyAddsTo(p, r)
  {
  }

  /** Adding a readable sample after the tables have grown. */
  lemma SampleAdded(p: Profile, q: Profile, s: Sample)
    requires OnlyTables(p, q) && Resolve(p).Some? && ResolveSample(q, s).Some?
    ensures Resolve(q.(samples := q.samples + [s])) == Some(Resolve(p).value + [ResolveSample(q, s).value])
  {
    ResolveSamplesExtend(p, q, p.samples);
    var r := q.(samples := q.samples + [s]);
    assert Extends(q, r);
    ResolveSamplesExtend(q, r, q.samples);
    ResolveStackExtend(q, r, s.locationIds);
    ResolveLabelsExtend(q, r, s.labels);
    ResolveSamplesPush(r, q.samples, s);
  }

  /** The header of a profile: its one sample type and its period. */
  ghost predicate HeaderRight(p: Profile, period: int, timeNanos: int, durationNanos: int) {
    && p.period == period && p.timeNanos == timeNanos && p.durationNanos == durationNanos
    && |p.strings| > 0 && p.strings[0] == ""
    && |p.sampleTypes| == 1 && p.periodType == Some(p.sampleTypes[0])
    && StringAt(p, p.sampleTypes[0].kind) == Some("cpu")
    && StringAt(p, p.sampleTypes[0].unit) == Some("nanoseconds")
  }

  /** The part of `encode` before the loops. */
  method StartProfile(sampleRate: nat, timeNanos: int, durationNanos: int) returns (b: PProfBuilder)
    requires sampleRate != 0
    ensures fresh(b) && b.Valid() && Resolve(b.profile) == Some([])
    ensures HeaderRight(b.profile, 1_000_000_000 / sampleRate, timeNanos, durationNanos)
  {
    b := new PProfBuilder(timeNanos, durationNanos);
    var _ := b.AddString("");
    var cpu := b.AddString("cpu");
    var nanoseconds := b.AddString("nanoseconds");
    b.profile := b.profile.(sampleTypes := b.profile.sampleTypes + [ValueType(cpu, nanoseconds)],
                            period := 1_000_000_000 / sampleRate,
                            periodType := Some(ValueType(cpu, nanoseconds)));
  }

  lemma HeaderKept(p: Profile, q: Profile, period: int, timeNanos: int, durationNanos: int)
    requires HeaderRight(p, period, timeNanos, durationNanos) && OnlyAddsTo(p, q)
    ensures HeaderRight(q, period, timeNanos, durationNanos)
  {
  }

  /**
   The profile of a list of reports. A zero sample rate divides by zero in the
   source; for any other rate the profile resolves, and what it resolves to is the
   meaning of the reports.
   */
  method Encode(reports: seq<Report>, sampleRate: nat, startTimeNanos: nat, durationNanos: nat) returns (p: Profile)
    requires sampleRate != 0
    ensures Resolve(p).Some?
    ensures multiset(Resolve(p).value) == ReportsMeaning(reports, 1_000_000_000 / sampleRate)
    ensures HeaderRight(p, 1_000_000_000 / sampleRate, I64.Wrap(startTimeNanos), I64.Wrap(durationNanos))
    ensures Distinct(p.strings) && NumberedIds(p)
  {
    var b := StartProfile(sampleRate, I64.Wrap(startTimeNanos), I64.Wrap(durationNanos));
    ghost var start := b.profile;
    for i := 0 to |reports|
      invariant b.Valid() && OnlyAddsTo(start, b.profile) && fresh(b)
      invariant Resolve(b.profile).Some?
      invariant multiset(Resolve(b.profile).value) == ReportsMeaning(reports[..i], start.period)
    {
      ghost var before := b.profile;
      b.AddReport(reports[i]);
      OnlyAddsTransitive(start, before, b.profile);
      ReportsMeaningPush(reports, i, start.period);
    }
    assert reports[..|reports|] == reports;
    p := b.profile;
    HeaderKept(start, p, 1_000_000_000 / sampleRate, I64.Wrap(startTimeNanos), I64.Wrap(durationNanos));
    TablesNumbered(p);
  }
}
