/**
 The pprof backend (src/backend/pprof.rs) tags lazily: samples collect untagged in
 the profiler, and are tagged and moved to the buffer just before the rules change.
 `Run` is that backend over a sequence of events; `EagerCount` is the simple form
 that tags every sample when it is taken. `LazyIsEager` says they agree.
 */
module PprofBackend {
  import opened Wrappers
  import opened BackendTypes
  import opened TagRules
  import opened StackBuffers

  type Counts = map<StackTrace, nat>

  /** `guard` is the running profiler's untagged counts; it is None until the backend is initialized. */
  datatype Backend = Backend(guard: Option<Counts>, buffer: Counts, rules: set<ThreadTag>)

  // -------------------------------------------------------------- operations

  /** No two traces of `m` become equal under the rules. */
  ghost predicate Separate(m: Counts, rules: set<ThreadTag>) {
    forall a, b | a in m && b in m && AddTagRules(a, rules) == AddTagRules(b, rules) :: a == b
  }

  ghost predicate AllUntagged(config: BackendConfig, m: Counts) {
    forall t | t in m :: Untagged(config, t)
  }

  lemma UntaggedSeparate(config: BackendConfig, m: Counts, rules: set<ThreadTag>)
    requires AllUntagged(config, m)
    ensures Separate(m, rules)
  {
    forall a, b | a in m && b in m && AddTagRules(a, rules) == AddTagRules(b, rules) ensures a == b {
      UntaggedNeverMerge(config, a, b, rules);
    }
  }

  /** Collecting the tagged entries into a HashMap. */
  ghost function TagAll(m: Counts, rules: set<ThreadTag>): Counts
    requires Separate(m, rules)
  {
    map t | t in m :: AddTagRules(t, rules) := m[t]
  }

  function Merge(a: Counts, b: Counts): Counts {
    map t | t in a.Keys + b.Keys :: At(a, t) + At(b, t)
  }

  /** Tag what the profiler has, add it to the buffer, restart the profiler. */
  ghost function Dump(s: Backend): Backend
    requires s.guard.Some? && Separate(s.guard.value, s.rules)
  {
    Backend(Some(map[]), Merge(s.buffer, TagAll(s.guard.value, s.rules)), s.rules)
  }

  ghost function DumpIfRunning(s: Backend): Backend
    requires s.guard.Some? ==> Separate(s.guard.value, s.rules)
  {
    if s.guard.Some? then Dump(s) else s
  }

  datatype Event =
    | Initialize
    | Sample(trace: StackTrace)
    | AddTag(rule: ThreadTag)
    | RemoveTag(rule: ThreadTag)
    | Report

  /** The backend together with all it has reported. */
  datatype Reporter = Reporter(backend: Backend, delivered: Counts)

  ghost predicate ValidBackend(config: BackendConfig, s: Backend) {
    s.guard.Some? ==> AllUntagged(config, s.guard.value)
  }

  ghost predicate ValidEvent(config: BackendConfig, e: Event) {
    e.Sample? ==> Untagged(config, e.trace)
  }

  ghost function Step(config: BackendConfig, r: Reporter, e: Event): (r': Reporter)
    requires ValidBackend(config, r.backend) && ValidEvent(config, e)
    ensures ValidBackend(config, r'.backend)
  {
    var s := r.backend;
    assert s.guard.Some? ==> Separate(s.guard.value, s.rules) by {
      if s.guard.Some? { UntaggedSeparate(config, s.guard.value, s.rules); }
    }
    match e
    case Initialize =>
      // the typestate of BackendImpl lets this happen once
      if s.guard.None? then r.(backend := s.(guard := Some(map[]))) else r
    case Sample(trace) =>
      if s.guard.None? then r else r.(backend := s.(guard := Some(Record(s.guard.value, trace, 1))))
    case AddTag(rule) =>
      var d := DumpIfRunning(s);
      r.(backend := d.(rules := d.rules + {rule}))
    case RemoveTag(rule) =>
      var d := DumpIfRunning(s);
      r.(backend := d.(rules := d.rules - {rule}))
    case Report =>
      // without a profiler the report is an error and nothing changes
      if s.guard.None? then r
      else
        var d := Dump(s);
        Reporter(d.(buffer := map[]), Merge(r.delivered, d.buffer))
  }

  ghost function Run(config: BackendConfig, events: seq<Event>): (r: Reporter)
    requires forall e | e in events :: ValidEvent(config, e)
    ensures ValidBackend(config, r.backend)
  {
    if events == [] then Reporter(Backend(None, map[], {}), map[])
    else Step(config, Run(config, events[..|events| - 1]), events[|events| - 1])
  }

  // ------------------------------------------------------- the simple form

  function RulesAfter(events: seq<Event>): set<ThreadTag> {
    if events == [] then {}
    else
      var before := RulesAfter(events[..|events| - 1]);
      match events[|events| - 1]
      case AddTag(rule) => before + {rule}
      case RemoveTag(rule) => before - {rule}
      case _ => before
  }

  predicate Running(events: seq<Event>) {
    Initialize in events
  }

  /** How many samples, tagged with their thread's rules when taken, are the trace `u`. */
  function EagerCount(events: seq<Event>, u: StackTrace): nat {
    if events == [] then 0
    else
      var before := events[..|events| - 1];
      match events[|events| - 1]
      case Sample(trace) =>
        EagerCount(before, u) + if Running(before) && AddTagRules(trace, RulesAfter(before)) == u then 1 else 0
      case _ => EagerCount(before, u)
  }

  // ------------------------------------------------------------- refinement

  /** What the profiler still holds, counted under the current rules. */
  ghost function Pending(s: Backend, u: StackTrace): nat
    requires s.guard.Some? ==> Separate(s.guard.value, s.rules)
  {
    if s.guard.Some? then At(TagAll(s.guard.value, s.rules), u) else 0
  }

  lemma TagAllAt(m: Counts, rules: set<ThreadTag>, t: StackTrace)
    requires Separate(m, rules) && t in m
    ensures At(TagAll(m, rules), AddTagRules(t, rules)) == m[t]
  {
    assert AddTagRules(t, rules) in TagAll(m, rules);
  }

  lemma TagAllNone(m: Counts, rules: set<ThreadTag>, u: StackTrace)
    requires Separate(m, rules) && forall a | a in m :: AddTagRules(a, rules) != u
    ensures At(TagAll(m, rules), u) == 0
  {
  }

  lemma TagAllRecordSame(m: Counts, rules: set<ThreadTag>, t: StackTrace)
    requires Separate(m, rules) && Separate(Record(m, t, 1), rules)
    ensures var u := AddTagRules(t, rules); At(TagAll(Record(m, t, 1), rules), u) == At(TagAll(m, rules), u) + 1
  {
    var m' := Record(m, t, 1);
    TagAllAt(m', rules, t);
    if t in m {
      TagAllAt(m, rules, t);
    } else {
      forall a | a in m ensures AddTagRules(a, rules) != AddTagRules(t, rules) {
        assert a in m' && t in m';
      }
      TagAllNone(m, rules, AddTagRules(t, rules));
    }
  }

  /** Recording one more sample adds one to the tagged trace and to no other. */
  lemma TagAllRecord(m: Counts, rules: set<ThreadTag>, t: StackTrace, u: StackTrace)
    requires Separate(m, rules) && Separate(Record(m, t, 1), rules)
    ensures At(TagAll(Record(m, t, 1), rules), u)
         == At(TagAll(m, rules), u) + if AddTagRules(t, rules) == u then 1 else 0
  {
    var m' := Record(m, t, 1);
    if u == AddTagRules(t, rules) {
      TagAllRecordSame(m, rules, t);
    } else if a :| a in m && AddTagRules(a, rules) == u {
      TagAllAt(m, rules, a);
      TagAllAt(m', rules, a);
    } else {
      TagAllNone(m, rules, u);
      TagAllNone(m', rules, u);
    }
  }

  lemma {:induction false} RunningPrefix(events: seq<Event>)
    requires events != []
    ensures Running(events) <==> Running(events[..|events| - 1]) || events[|events| - 1] == Initialize
  {
    assert events == events[..|events| - 1] + [events[|events| - 1]];
  }

  ghost function Balance(config: BackendConfig, r: Reporter, u: StackTrace): nat
    requires ValidBackend(config, r.backend)
  {
    ValidSeparate(config, r.backend);
    At(r.delivered, u) + At(r.backend.buffer, u) + Pending(r.backend, u)
  }

  lemma ValidSeparate(config: BackendConfig, s: Backend)
    requires ValidBackend(config, s)
    ensures s.guard.Some? ==> Separate(s.guard.value, s.rules)
  {
    if s.guard.Some? { UntaggedSeparate(config, s.guard.value, s.rules); }
  }

  /** Dumping moves counts from the profiler to the buffer; under new rules nothing is pending. */
  lemma DumpBalance(s: Backend, rules: set<ThreadTag>, u: StackTrace)
    requires s.guard.Some? ==> Separate(s.guard.value, s.rules)
    ensures var d := DumpIfRunning(s).(rules := rules);
            && (d.guard.Some? ==> Separate(d.guard.value, d.rules))
            && At(d.buffer, u) + Pending(d, u) == At(s.buffer, u) + Pending(s, u)
  {
    if s.guard.Some? {
      assert TagAll(map[], rules) == map[];
    }
  }

  lemma StepBalance(config: BackendConfig, r: Reporter, e: Event, u: StackTrace)
    requires ValidBackend(config, r.backend) && ValidEvent(config, e)
    ensures Balance(config, Step(config, r, e), u) == Balance(config, r, u)
      + if e.Sample? && r.backend.guard.Some? && AddTagRules(e.trace, r.backend.rules) == u then 1 else 0
  {
    var s := r.backend;
    ValidSeparate(config, s);
    match e
    case Initialize =>
      assert TagAll(map[], s.rules) == map[];
    case Sample(trace) =>
      if s.guard.Some? {
        ValidSeparate(config, Step(config, r, e).backend);
        TagAllRecord(s.guard.value, s.rules, trace, u);
      }
    case AddTag(rule) =>
      DumpBalance(s, s.rules + {rule}, u);
    case RemoveTag(rule) =>
      DumpBalance(s, s.rules - {rule}, u);
    case Report =>
      DumpBalance(s, s.rules, u);
  }

  ghost predicate Accounts(config: BackendConfig, r: Reporter, events: seq<Event>)
    requires ValidBackend(config, r.backend)
  {
    && r.backend.rules == RulesAfter(events)
    && (r.backend.guard.Some? <==> Running(events))
    && forall u :: Balance(config, r, u) == EagerCount(events, u)
  }

  lemma StepAccounts(config: BackendConfig, r: Reporter, before: seq<Event>, events: seq<Event>)
    requires ValidBackend(config, r.backend) && Accounts(config, r, before)
    requires events != [] && events[..|events| - 1] == before && ValidEvent(config, events[|events| - 1])
    ensures Accounts(config, Step(config, r, events[|events| - 1]), events)
  {
    RunningPrefix(events);
    forall u ensures Balance(config, Step(config, r, events[|events| - 1]), u) == EagerCount(events, u) {
      assert Balance(config, r, u) == EagerCount(before, u);
      StepBalance(config, r, events[|events| - 1], u);
    }
  }

  /**
   Over every run, what was delivered, what is buffered and what is still pending add up,
   trace by trace, to the samples whose thread had those tags when they were taken.
   */
  lemma {:induction false} LazyIsEager(config: BackendConfig, events: seq<Event>)
    requires forall e | e in events :: ValidEvent(config, e)
    ensures Accounts(config, Run(config, events), events)
  {
    if events == [] {
      forall u ensures EagerCount(events, u) == 0 {
      }
    } else {
      var before := events[..|events| - 1];
      assert forall e | e in before :: e in events;
      LazyIsEager(config, before);
      StepAccounts(config, Run(config, before), before, events);
    }
  }

  /** Right after a report everything has been delivered. */
  lemma ReportDeliversAll(config: BackendConfig, events: seq<Event>, u: StackTrace)
    requires forall e | e in events :: ValidEvent(config, e)
    requires events != [] && events[|events| - 1] == Event.Report && Running(events)
    ensures At(Run(config, events).delivered, u) == EagerCount(events, u)
  {
    LazyIsEager(config, events);
    RunningPrefix(events);
    LazyIsEager(config, events[..|events| - 1]);
    assert Run(config, events).backend.guard == Some(map[]) && Run(config, events).backend.buffer == map[];
  }

  // -------------------------------------------------------------- the object

  class Pprof {
    const config: BackendConfig
    const buffer: StackBuffer
    const ruleset: ThreadTagsSet
    var guard: Option<Counts>

    ghost function Model(): Backend
      reads this, buffer, ruleset
    {
      Backend(guard, buffer.data, ruleset.rules)
    }

    ghost predicate Valid()
      reads this, buffer, ruleset
    {
      ValidBackend(config, Model())
    }

    constructor (config: BackendConfig)
      ensures this.config == config && fresh(buffer) && fresh(ruleset)
      ensures Valid() && Model() == Backend(None, map[], {})
    {
      this.config := config;
      buffer := new StackBuffer();
      ruleset := new ThreadTagsSet();
      guard := None;
    }

    /** Called once: BackendImpl consumes the uninitialized state. */
    method Initialize()
      requires Valid() && guard.None?
      modifies this
      ensures Valid() && Model() == old(Model()).(guard := Some(map[]))
    {
      guard := Some(map[]);
    }

    /** The profiler library counting one sample. */
    method TakeSample(t: StackTrace)
      requires Valid() && Untagged(config, t)
      modifies this
      ensures Valid()
      ensures Reporter(Model(), map[]) == Step(config, Reporter(old(Model()), map[]), Sample(t))
    {
      if guard.Some? {
        guard := Some(Record(guard.value, t, 1));
      }
    }

    /** The map/collect of dump_report. */
    method TagPending(m: Counts) returns (data: Counts)
      requires AllUntagged(config, m)
      ensures Separate(m, ruleset.rules) && data == TagAll(m, ruleset.rules)
    {
      UntaggedSeparate(config, m, ruleset.rules);
      data := map[];
      var rest := m.Keys;
      ghost var done: Counts := map[];
      assert TagAll(done, ruleset.rules) == map[];
      while rest != {}
        invariant rest <= m.Keys && done == m - rest
        invariant Separate(done, ruleset.rules) && data == TagAll(done, ruleset.rules)
        decreases rest
      {
        var t :| t in rest;
        var tagged := ApplyRules(t, ruleset.rules);
        TagOneMore(config, m, rest, ruleset.rules, t);
        data := data[tagged := m[t]];
        done := done[t := m[t]];
        rest := rest - {t};
      }
      assert done == m;
    }

    method Reset()
      requires guard.Some?
      modifies this
      ensures guard == Some(map[])
    {
      guard := None;
      guard := Some(map[]);
    }

    /** The loop of dump_report over the tagged traces, in any order. */
    method AddToBuffer(data: Counts)
      modifies buffer
      ensures buffer.data == Merge(old(buffer.data), data)
    {
      var rest := data.Keys;
      while rest != {}
        invariant rest <= data.Keys
        invariant buffer.data == Merge(old(buffer.data), data - rest)
        decreases rest
      {
        var t :| t in rest;
        MergeOneMore(old(buffer.data), data, rest, t);
        buffer.RecordWithCount(t, data[t]);
        rest := rest - {t};
      }
      assert data - rest == data;
    }

    /** False is the missing-profiler error. */
    method DumpReport() returns (ok: bool)
      requires Valid()
      modifies this, buffer
      ensures Valid() && ok == old(guard).Some?
      ensures !ok ==> Model() == old(Model())
      ensures ok ==> Separate(old(guard).value, old(ruleset.rules)) && Model() == Dump(old(Model()))
    {
      if guard.None? {
        return false;
      }
      var data := TagPending(guard.value);
      AddToBuffer(data);
      Reset();
      ok := true;
    }

    method AddTag(rule: ThreadTag)
      requires Valid()
      modifies this, buffer, ruleset
      ensures Valid()
      ensures Reporter(Model(), map[]) == Step(config, Reporter(old(Model()), map[]), Event.AddTag(rule))
    {
      if guard.Some? {
        var _ := DumpReport();
      }
      var _ := ruleset.Add(rule);
    }

    method RemoveTag(rule: ThreadTag)
      requires Valid()
      modifies this, buffer, ruleset
      ensures Valid()
      ensures Reporter(Model(), map[]) == Step(config, Reporter(old(Model()), map[]), Event.RemoveTag(rule))
    {
      if guard.Some? {
        var _ := DumpReport();
      }
      var _ := ruleset.Remove(rule);
    }

    /** The delivered reports are a grouping of everything the step delivers. */
    method Report(getId: Metadata -> nat) returns (reports: Option<seq<BackendTypes.Report>>)
      requires Valid()
      modifies this, buffer
      ensures Valid()
      ensures var step := Step(config, Reporter(old(Model()), map[]), Event.Report);
              Model() == step.backend && reports.Some? == old(guard).Some?
              && (reports.Some? ==> IsGrouping(step.delivered, reports.value, getId))
    {
      var ok := DumpReport();
      if !ok {
        return None;
      }
      var data := buffer.data;
      var grouped := IntoReports(data, getId);
      buffer.Clear();
      assert Merge(map[], data) == data;
      reports := Some(grouped);
    }
  }

  lemma TagAllKeys(m: Counts, rules: set<ThreadTag>, t: StackTrace, count: nat, u: StackTrace)
    requires Separate(m, rules) && t !in m && Separate(m[t := count], rules)
    ensures u in TagAll(m[t := count], rules) <==> u in TagAll(m, rules) || u == AddTagRules(t, rules)
  {
    if u in TagAll(m[t := count], rules) && u != AddTagRules(t, rules) {
      var x :| x in m[t := count] && AddTagRules(x, rules) == u;
      assert x in m;
    }
    if u in TagAll(m, rules) {
      var x :| x in m && AddTagRules(x, rules) == u;
      assert x in m[t := count];
    }
    assert t in m[t := count];
  }

  lemma TagAllInsert(m: Counts, rules: set<ThreadTag>, t: StackTrace, count: nat)
    requires Separate(m, rules) && t !in m && Separate(m[t := count], rules)
    ensures TagAll(m[t := count], rules) == TagAll(m, rules)[AddTagRules(t, rules) := count]
  {
    var a, b := TagAll(m[t := count], rules), TagAll(m, rules)[AddTagRules(t, rules) := count];
    forall u ensures u in a <==> u in b {
      TagAllKeys(m, rules, t, count, u);
    }
    forall u | u in a ensures a[u] == b[u] {
      var x :| x in m[t := count] && AddTagRules(x, rules) == u;
      TagAllAt(m[t := count], rules, x);
      if x != t { TagAllAt(m, rules, x); }
    }
  }

  lemma TagOneMore(config: BackendConfig, m: Counts, rest: set<StackTrace>, rules: set<ThreadTag>, t: StackTrace)
    requires AllUntagged(config, m) && t in rest && t in m
    ensures var done := m - rest; var done' := done[t := m[t]];
            && done' == m - (rest - {t})
            && Separate(done, rules) && Separate(done', rules)
            && TagAll(done', rules) == TagAll(done, rules)[AddTagRules(t, rules) := m[t]]
  {
    var done := m - rest;
    var done' := done[t := m[t]];
    UntaggedSeparate(config, done, rules);
    UntaggedSeparate(config, done', rules);
    TagAllInsert(done, rules, t, m[t]);
  }

  lemma MergeOneMore(start: Counts, data: Counts, rest: set<StackTrace>, t: StackTrace)
    requires t in rest && t in data
    ensures Record(Merge(start, data - rest), t, data[t]) == Merge(start, data - (rest - {t}))
  {
  }
}
