/**
 The calls on the pprof backend as the threads make them: each takes the mutex around the
 backend, goes through its steps, and gives the mutex up. Inside, the profiler's counts
 are read, tagged entry by entry, recorded entry by entry, the profiler is stopped and
 built anew, and then the rules change or the buffer is cloned and cleared. No step
 checks who has the mutex. Samples arrive at any moment.

 `PprofBackend.Step` takes a call as one event; here it is shown to be one.
 */
module PprofCalls {
  import opened Wrappers
  import opened BackendTypes
  import opened TagRules
  import opened StackBuffers
  import opened PprofBackend

  /** Where a caller is; what it holds are its local variables. */
  datatype Phase =
    | Waiting
    | Entering
    | Reading
    | Tagging(snap: Counts, rest: set<StackTrace>, data: Counts)
    | Recording(data: Counts, rest: set<StackTrace>)
    | Stopping
    | Restarting
    | ChangingRules
    | Cloning
    | Clearing(copy: Counts)
    | Leaving

  datatype Caller = Caller(call: Event, phase: Phase)

  /** The mutex, the threads with a call under way, and what they share. */
  datatype System = System(owner: Option<nat>, callers: map<nat, Caller>, shared: Reporter)

  datatype Action =
    | Call(id: nat, call: Event)
    | Acquire(id: nat)
    | Move(id: nat, pick: StackTrace)
    | Release(id: nat)
    | Sampled(trace: StackTrace)

  const START := System(None, map[], Reporter(Backend(None, map[], {}), map[]))

  // ------------------------------------------------------------------- steps

  /** An iteration goes on with any entry that is left. */
  predicate CanPick(phase: Phase, pick: StackTrace) {
    match phase
    case Waiting => false
    case Tagging(snap, rest, _) => rest == {} || (pick in rest && pick in snap)
    case Recording(data, rest) => rest == {} || (pick in rest && pick in data)
    case Leaving => false
    case _ => true
  }

  function Enter(call: Event, b: Backend): (Phase, Backend) {
    match call
    case Initialize => (Leaving, if b.guard.None? then b.(guard := Some(map[])) else b)
    case Report => (Reading, b)
    case _ => (if b.guard.Some? then Reading else ChangingRules, b)
  }

  function ChangeRules(call: Event, b: Backend): Backend {
    match call
    case AddTag(rule) => b.(rules := b.rules + {rule})
    case RemoveTag(rule) => b.(rules := b.rules - {rule})
    case _ => b
  }

  /** The next step of the caller that is inside. */
  function Next(call: Event, phase: Phase, r: Reporter, pick: StackTrace): (Phase, Reporter)
    requires CanPick(phase, pick)
  {
    var b := r.backend;
    match phase
    case Entering => var (p, b1) := Enter(call, b); (p, r.(backend := b1))
    case Reading =>
      if b.guard.None? then (Leaving, r) else (Tagging(b.guard.value, b.guard.value.Keys, map[]), r)
    case Tagging(snap, rest, data) =>
      if rest == {} then (Recording(data, data.Keys), r)
      else (Tagging(snap, rest - {pick}, data[AddTagRules(pick, b.rules) := snap[pick]]), r)
    case Recording(data, rest) =>
      if rest == {} then (Stopping, r)
      else (Recording(data, rest - {pick}), r.(backend := b.(buffer := Record(b.buffer, pick, data[pick]))))
    case Stopping => (Restarting, r.(backend := b.(guard := None)))
    case Restarting => (if call.Report? then Cloning else ChangingRules, r.(backend := b.(guard := Some(map[]))))
    case ChangingRules => (Leaving, r.(backend := ChangeRules(call, b)))
    case Cloning => (Clearing(b.buffer), r)
    case Clearing(copy) => (Leaving, Reporter(b.(buffer := map[]), Merge(r.delivered, copy)))
    case _ => (phase, r)
  }

  function Count(r: Reporter, t: StackTrace): Reporter {
    var b := r.backend;
    if b.guard.None? then r else r.(backend := b.(guard := Some(Record(b.guard.value, t, 1))))
  }

  predicate Enabled(config: BackendConfig, s: System, a: Action) {
    match a
    case Call(id, call) => id !in s.callers && !call.Sample?
    case Acquire(id) => id in s.callers && s.callers[id].phase.Waiting? && s.owner.None?
    case Move(id, pick) => id in s.callers && CanPick(s.callers[id].phase, pick)
    case Release(id) => id in s.callers && s.callers[id].phase.Leaving?
    case Sampled(trace) => Untagged(config, trace)
  }

  function Act(config: BackendConfig, s: System, a: Action): System
    requires Enabled(config, s, a)
  {
    match a
    case Call(id, call) => s.(callers := s.callers[id := Caller(call, Waiting)])
    case Acquire(id) => s.(owner := Some(id), callers := s.callers[id := s.callers[id].(phase := Entering)])
    case Move(id, pick) =>
      var c := s.callers[id];
      var (phase, shared) := Next(c.call, c.phase, s.shared, pick);
      s.(callers := s.callers[id := c.(phase := phase)], shared := shared)
    case Release(id) => s.(owner := None, callers := s.callers - {id})
    case Sampled(trace) => s.(shared := Count(s.shared, trace))
  }

  function RunCalls(config: BackendConfig, actions: seq<Action>): System {
    if actions == [] then START
    else
      var s := RunCalls(config, actions[..|actions| - 1]);
      if Enabled(config, s, actions[|actions| - 1]) then Act(config, s, actions[|actions| - 1]) else s
  }

  // ------------------------------------------------------------- what happened

  /**
   The events that the calls and samples amount to; the samples that came after the profiler
   was read and before it ran again, with the tags of that moment; the calls in the order in
   which they got the mutex.
   */
  datatype Log = Log(events: seq<Event>, missed: seq<StackTrace>, acquired: seq<Event>)

  /** The profiler's counts have been read, and it has not been built anew. */
  predicate Restart(phase: Phase) {
    phase.Tagging? || phase.Recording? || phase.Stopping? || phase.Restarting?
  }

  predicate RestartUnderWay(s: System) {
    s.owner.Some? && s.owner.value in s.callers && Restart(s.callers[s.owner.value].phase)
  }

  /** The step with which the call takes effect. */
  predicate Effective(call: Event, phase: Phase, b: Backend) {
    match phase
    case Entering => call.Initialize? || (!call.Report? && b.guard.None?)
    case Reading => b.guard.None?
    case Restarting => true
    case _ => false
  }

  function Logged(s: System, l: Log, a: Action): Log
    requires (a.Acquire? || a.Move?) ==> a.id in s.callers
  {
    match a
    case Acquire(id) => l.(acquired := l.acquired + [s.callers[id].call])
    case Move(id, _) =>
      var c := s.callers[id];
      if Effective(c.call, c.phase, s.shared.backend) then l.(events := l.events + [c.call]) else l
    case Sampled(trace) =>
      if RestartUnderWay(s) then l.(missed := l.missed + [AddTagRules(trace, RulesAfter(l.events))]) else l.(events := l.events + [Sample(trace)])
    case _ => l
  }

  function LogOf(config: BackendConfig, actions: seq<Action>): Log {
    if actions == [] then Log([], [], [])
    else
      var init := actions[..|actions| - 1];
      var s := RunCalls(config, init);
      if Enabled(config, s, actions[|actions| - 1]) then Logged(s, LogOf(config, init), actions[|actions| - 1])
      else LogOf(config, init)
  }

  // --------------------------------------------------------------- refinement

  ghost predicate TaggedAs(m: Counts, rules: set<ThreadTag>, data: Counts) {
    Separate(m, rules) && data == TagAll(m, rules)
  }

  /** How the shared state stands to the backend `a` on which every call is one step. */
  ghost predicate Refines(call: Event, phase: Phase, r: Reporter, a: Reporter) {
    var b, x := r.backend, a.backend;
    && (call.Initialize? ==> phase.Entering? || phase.Leaving?)
    && match phase
    case Reading => r == a && (!call.Report? ==> b.guard.Some?)
    case Tagging(snap, rest, data) =>
      r == a.(backend := x.(guard := b.guard)) && x.guard == Some(snap) && rest <= snap.Keys && TaggedAs(snap - rest, x.rules, data)
    case Recording(data, rest) =>
      && r == a.(backend := x.(guard := b.guard, buffer := b.buffer)) && rest <= data.Keys
      && x.guard.Some? && TaggedAs(x.guard.value, x.rules, data) && b.buffer == Merge(x.buffer, data - rest)
    case Stopping => Recorded(r, a)
    case Restarting => Recorded(r, a) && b.guard.None?
    case ChangingRules => r == a.(backend := x.(rules := b.rules)) && x.rules == ChangeRules(call, b).rules
    case Cloning => r == Reporter(x.(buffer := b.buffer), r.delivered) && Undelivered(b.buffer, r, a)
    case Clearing(copy) =>
      r == Reporter(x.(buffer := b.buffer), r.delivered) && Undelivered(b.buffer, r, a) && copy == b.buffer
    case _ => r == a
  }

  /** Everything read from the profiler is in the buffer. */
  ghost predicate Recorded(r: Reporter, a: Reporter) {
    && r == a.(backend := a.backend.(guard := r.backend.guard, buffer := r.backend.buffer))
    && a.backend.guard.Some? && Separate(a.backend.guard.value, a.backend.rules)
    && r.backend.buffer == Merge(a.backend.buffer, TagAll(a.backend.guard.value, a.backend.rules))
  }

  ghost predicate Undelivered(buffer: Counts, r: Reporter, a: Reporter) {
    a.backend.buffer == map[] && a.delivered == Merge(r.delivered, buffer)
  }

  ghost predicate AllValid(config: BackendConfig, events: seq<Event>) {
    forall e | e in events :: ValidEvent(config, e)
  }

  /** Exactly the owner of the mutex is past waiting. */
  ghost predicate Exclusive(s: System) {
    && (s.owner.Some? ==> s.owner.value in s.callers)
    && forall id | id in s.callers :: !s.callers[id].call.Sample? && (s.callers[id].phase.Waiting? <==> s.owner != Some(id))
  }

  ghost predicate Inside(s: System, a: Reporter) {
    if s.owner.Some? && s.owner.value in s.callers
    then Refines(s.callers[s.owner.value].call, s.callers[s.owner.value].phase, s.shared, a)
    else s.shared == a
  }

  /** Before the step with which it takes effect. */
  predicate Before(phase: Phase) {
    phase.Entering? || phase.Reading? || Restart(phase)
  }

  function OnItsWay(s: System): seq<Event> {
    if s.owner.Some? && s.owner.value in s.callers && Before(s.callers[s.owner.value].phase)
    then [s.callers[s.owner.value].call] else []
  }

  function CallsOf(events: seq<Event>): seq<Event> {
    if events == [] then []
    else
      var last := events[|events| - 1];
      CallsOf(events[..|events| - 1]) + if last.Sample? then [] else [last]
  }

  ghost predicate Inv(config: BackendConfig, s: System, l: Log) {
    Exclusive(s) && LogRight(config, s, l)
  }

  /** The events are what the shared state has come from, and those calls that have taken effect. */
  ghost predicate LogRight(config: BackendConfig, s: System, l: Log) {
    && AllValid(config, l.events) && Inside(s, Run(config, l.events))
    && l.acquired == CallsOf(l.events) + OnItsWay(s)
  }

  // ------------------------------------------------ every step of the caller inside

  lemma EnterRefines(config: BackendConfig, call: Event, r: Reporter, a: Reporter)
    requires r == a && !call.Sample? && ValidBackend(config, a.backend)
    ensures var (p, b) := Enter(call, r.backend);
            Refines(call, p, r.(backend := b), if Effective(call, Entering, r.backend) then Step(config, a, call) else a)
  {
  }

  lemma ReadRefines(config: BackendConfig, call: Event, r: Reporter, a: Reporter, pick: StackTrace)
    requires Refines(call, Reading, r, a) && !call.Sample? && ValidBackend(config, a.backend)
    ensures var (p, r1) := Next(call, Reading, r, pick);
            Refines(call, p, r1, if Effective(call, Reading, r.backend) then Step(config, a, call) else a)
  {
    if r.backend.guard.Some? {
      var m := r.backend.guard.value;
      assert m - m.Keys == map[];
      assert TagAll(map[], r.backend.rules) == map[];
    }
  }

  lemma TagRefines(config: BackendConfig, call: Event, phase: Phase, r: Reporter, a: Reporter, pick: StackTrace)
    requires phase.Tagging? && Refines(call, phase, r, a) && CanPick(phase, pick) && ValidBackend(config, a.backend)
    ensures var (p, r1) := Next(call, phase, r, pick); Refines(call, p, r1, a)
  {
    var m, rules := phase.snap, a.backend.rules;
    if phase.rest == {} {
      assert m - phase.rest == m;
      assert phase.data - phase.data.Keys == map[];
      MergeNothing(a.backend.buffer);
    } else {
      TagOneMore(config, m, phase.rest, rules, pick);
    }
  }

  lemma MergeNothing(m: Counts)
    ensures Merge(m, map[]) == m
  {
  }

  lemma RecordRefines(call: Event, phase: Phase, r: Reporter, a: Reporter, pick: StackTrace)
    requires phase.Recording? && Refines(call, phase, r, a) && CanPick(phase, pick)
    ensures var (p, r1) := Next(call, phase, r, pick); Refines(call, p, r1, a)
  {
    if phase.rest == {} {
      assert phase.data - phase.rest == phase.data;
    } else {
      MergeOneMore(a.backend.buffer, phase.data, phase.rest, pick);
    }
  }

  /** With the profiler built anew, the call has had its effect, but for what it does last. */
  lemma RestartRefines(config: BackendConfig, call: Event, r: Reporter, a: Reporter, pick: StackTrace)
    requires Refines(call, Restarting, r, a) && !call.Sample? && ValidBackend(config, a.backend)
    ensures var (p, r1) := Next(call, Restarting, r, pick); Refines(call, p, r1, Step(config, a, call))
  {
  }

  lemma FinishRefines(call: Event, phase: Phase, r: Reporter, a: Reporter, pick: StackTrace)
    requires phase.Stopping? || phase.ChangingRules? || phase.Cloning? || phase.Clearing?
    requires Refines(call, phase, r, a) && !call.Sample?
    ensures var (p, r1) := Next(call, phase, r, pick); Refines(call, p, r1, a)
  {
  }

  lemma MoveRefines(config: BackendConfig, call: Event, phase: Phase, r: Reporter, a: Reporter, pick: StackTrace)
    requires Refines(call, phase, r, a) && CanPick(phase, pick) && !call.Sample? && ValidBackend(config, a.backend)
    ensures var (p, r1) := Next(call, phase, r, pick);
            Refines(call, p, r1, if Effective(call, phase, r.backend) then Step(config, a, call) else a)
  {
    match phase
    case Entering => EnterRefines(config, call, r, a);
    case Reading => ReadRefines(config, call, r, a, pick);
    case Tagging(_, _, _) => TagRefines(config, call, phase, r, a, pick);
    case Recording(_, _) => RecordRefines(call, phase, r, a, pick);
    case Restarting => RestartRefines(config, call, r, a, pick);
    case _ => FinishRefines(call, phase, r, a, pick);
  }

  /** A sample is a step of its own, unless it falls into the restart: then it leaves no trace. */
  lemma SampleRefines(config: BackendConfig, call: Event, phase: Phase, r: Reporter, a: Reporter, t: StackTrace)
    requires Refines(call, phase, r, a) && Untagged(config, t) && ValidBackend(config, a.backend)
    ensures Refines(call, phase, Count(r, t), if Restart(phase) then a else Step(config, a, Sample(t)))
  {
  }

  // ------------------------------------------------------------------ every run

  lemma RunPush(config: BackendConfig, events: seq<Event>, e: Event)
    requires AllValid(config, events) && ValidEvent(config, e)
    ensures AllValid(config, events + [e]) && Run(config, events + [e]) == Step(config, Run(config, events), e)
  {
    assert (events + [e])[..|events + [e]| - 1] == events;
  }

  lemma CallsPush(events: seq<Event>, e: Event)
    ensures CallsOf(events + [e]) == CallsOf(events) + if e.Sample? then [] else [e]
  {
    assert (events + [e])[..|events + [e]| - 1] == events;
  }

  lemma NextMoves(call: Event, phase: Phase, r: Reporter, pick: StackTrace)
    requires CanPick(phase, pick)
    ensures var p := Next(call, phase, r, pick).0;
            !p.Waiting? && (Before(p) <==> Before(phase) && !Effective(call, phase, r.backend))
  {
  }

  lemma MoveExclusive(config: BackendConfig, s: System, id: nat, pick: StackTrace)
    requires Exclusive(s) && Enabled(config, s, Move(id, pick))
    ensures Exclusive(Act(config, s, Move(id, pick)))
  {
    NextMoves(s.callers[id].call, s.callers[id].phase, s.shared, pick);
  }

  lemma MoveAcquired(s: System, l: Log, id: nat, pick: StackTrace, c: Caller, p: Phase, r: Reporter)
    requires s.owner == Some(id) && id in s.callers && s.callers[id] == c && CanPick(c.phase, pick) && !c.call.Sample?
    requires l.acquired == CallsOf(l.events) + OnItsWay(s) && (p, r) == Next(c.call, c.phase, s.shared, pick)
    ensures var m := Logged(s, l, Move(id, pick));
            m.acquired == CallsOf(m.events) + OnItsWay(s.(callers := s.callers[id := c.(phase := p)], shared := r))
  {
    NextMoves(c.call, c.phase, s.shared, pick);
    CallsPush(l.events, c.call);
  }

  lemma MoveInside(config: BackendConfig, s: System, l: Log, id: nat, pick: StackTrace, c: Caller, p: Phase, r: Reporter)
    requires s.owner == Some(id) && id in s.callers && s.callers[id] == c && CanPick(c.phase, pick) && !c.call.Sample?
    requires AllValid(config, l.events) && Inside(s, Run(config, l.events))
    requires (p, r) == Next(c.call, c.phase, s.shared, pick)
    ensures var m := Logged(s, l, Move(id, pick));
            && AllValid(config, m.events)
            && Inside(s.(callers := s.callers[id := c.(phase := p)], shared := r), Run(config, m.events))
  {
    MoveRefines(config, c.call, c.phase, s.shared, Run(config, l.events), pick);
    RunPush(config, l.events, c.call);
  }

  lemma MoveKeeps(config: BackendConfig, s: System, l: Log, id: nat, pick: StackTrace)
    requires Inv(config, s, l) && Enabled(config, s, Move(id, pick))
    ensures Inv(config, Act(config, s, Move(id, pick)), Logged(s, l, Move(id, pick)))
  {
    var c := s.callers[id];
    var (p, r) := Next(c.call, c.phase, s.shared, pick);
    MoveExclusive(config, s, id, pick);
    MoveInside(config, s, l, id, pick, c, p, r);
    MoveAcquired(s, l, id, pick, c, p, r);
  }

  lemma SampleKeeps(config: BackendConfig, s: System, l: Log, t: StackTrace)
    requires Inv(config, s, l) && Untagged(config, t)
    ensures Inv(config, Act(config, s, Sampled(t)), Logged(s, l, Sampled(t)))
  {
    RunPush(config, l.events, Sample(t));
    CallsPush(l.events, Sample(t));
    if s.owner.Some? {
      var c := s.callers[s.owner.value];
      SampleRefines(config, c.call, c.phase, s.shared, Run(config, l.events), t);
    }
  }

  lemma ActKeeps(config: BackendConfig, s: System, l: Log, a: Action)
    requires Inv(config, s, l) && Enabled(config, s, a)
    ensures Inv(config, Act(config, s, a), Logged(s, l, a))
  {
    match a
    case Move(id, pick) => MoveKeeps(config, s, l, id, pick);
    case Sampled(t) => SampleKeeps(config, s, l, t);
    case _ =>
  }

  lemma {:induction false} RunRight(config: BackendConfig, actions: seq<Action>)
    ensures Inv(config, RunCalls(config, actions), LogOf(config, actions))
  {
    if actions != [] {
      var n := |actions| - 1;
      RunRight(config, actions[..n]);
      var s := RunCalls(config, actions[..n]);
      if Enabled(config, s, actions[n]) { ActKeeps(config, s, LogOf(config, actions[..n]), actions[n]); }
    }
  }

  /** In every interleaving at most one call is past the mutex. */
  lemma MutualExclusion(config: BackendConfig, actions: seq<Action>, i: nat, j: nat)
    requires var s := RunCalls(config, actions);
             i in s.callers && j in s.callers && !s.callers[i].phase.Waiting? && !s.callers[j].phase.Waiting?
    ensures i == j
  {
    RunRight(config, actions);
  }

  /** In every interleaving nothing is recorded between the clone and the clear of a report. */
  lemma NothingBetweenCloneAndClear(config: BackendConfig, actions: seq<Action>, id: nat)
    requires id in RunCalls(config, actions).callers && RunCalls(config, actions).callers[id].phase.Clearing?
    ensures RunCalls(config, actions).callers[id].phase.copy == RunCalls(config, actions).shared.backend.buffer
  {
    RunRight(config, actions);
  }

  /**
   In every interleaving the calls take effect one by one in the order of the mutex. When
   none is inside, the state is that of the events run one after the other, each in one step.
   */
  lemma CallsAreSteps(config: BackendConfig, actions: seq<Action>)
    ensures var s, l := RunCalls(config, actions), LogOf(config, actions);
            && AllValid(config, l.events)
            && (s.owner.None? ==> s.shared == Run(config, l.events) && CallsOf(l.events) == l.acquired)
            && CallsOf(l.events) <= l.acquired && |l.acquired| <= |CallsOf(l.events)| + 1
  {
    RunRight(config, actions);
  }

  // ------------------------------------------------------------------- samples

  /** How many samples are the trace `u` under the rules of the calls that had taken effect. */
  function Booked(config: BackendConfig, actions: seq<Action>, u: StackTrace): nat {
    if actions == [] then 0
    else
      var init := actions[..|actions| - 1];
      var before := LogOf(config, init).events;
      match actions[|actions| - 1]
      case Sampled(t) =>
        Booked(config, init, u)
        + if Untagged(config, t) && Running(before) && AddTagRules(t, RulesAfter(before)) == u then 1 else 0
      case _ => Booked(config, init, u)
  }

  function MissedCount(l: Log, u: StackTrace): nat {
    multiset(l.missed)[u]
  }

  lemma EagerPush(events: seq<Event>, e: Event, u: StackTrace)
    ensures EagerCount(events + [e], u) == EagerCount(events, u)
      + if e.Sample? && Running(events) && AddTagRules(e.trace, RulesAfter(events)) == u then 1 else 0
  {
    assert (events + [e])[..|events + [e]| - 1] == events;
  }

  lemma MoveCounts(l: Log, m: Log, call: Event, u: StackTrace)
    requires !call.Sample? && (m == l || m == l.(events := l.events + [call]))
    ensures EagerCount(m.events, u) == EagerCount(l.events, u) && MissedCount(m, u) == MissedCount(l, u)
  {
    if m != l { EagerPush(l.events, call, u); }
  }

  lemma RestartRuns(config: BackendConfig, s: System, l: Log)
    requires Inv(config, s, l) && RestartUnderWay(s)
    ensures Running(l.events)
  {
    LazyIsEager(config, l.events);
  }

  lemma SampleCounts(s: System, l: Log, t: StackTrace, u: StackTrace)
    requires RestartUnderWay(s) ==> Running(l.events)
    ensures var m := Logged(s, l, Sampled(t));
            EagerCount(m.events, u) + MissedCount(m, u) == EagerCount(l.events, u) + MissedCount(l, u)
              + if Running(l.events) && AddTagRules(t, RulesAfter(l.events)) == u then 1 else 0
  {
    if RestartUnderWay(s) {
      var tagged := AddTagRules(t, RulesAfter(l.events));
      assert multiset(l.missed + [tagged]) == multiset(l.missed) + multiset{tagged};
    } else {
      EagerPush(l.events, Sample(t), u);
    }
  }

  lemma {:induction false} BookedIs(config: BackendConfig, actions: seq<Action>, u: StackTrace)
    ensures var l := LogOf(config, actions); Booked(config, actions, u) == EagerCount(l.events, u) + MissedCount(l, u)
  {
    if actions != [] {
      var n := |actions| - 1;
      var s, l := RunCalls(config, actions[..n]), LogOf(config, actions[..n]);
      BookedIs(config, actions[..n], u);
      RunRight(config, actions[..n]);
      match actions[n]
      case Move(id, pick) => if Enabled(config, s, actions[n]) { MoveCounts(l, Logged(s, l, actions[n]), s.callers[id].call, u); }
      case Sampled(t) =>
        if RestartUnderWay(s) { RestartRuns(config, s, l); }
        SampleCounts(s, l, t, u);
      case _ =>
    }
  }

  /**
   In every interleaving, when no call is inside, what was delivered, buffered and is pending
   adds up, trace by trace, to the samples of the running profiler, each under the rules of
   the calls that had taken effect, less those that fell into a restart.
   */
  lemma CountsBooked(config: BackendConfig, actions: seq<Action>, u: StackTrace)
    requires RunCalls(config, actions).owner.None?
    ensures var s, l := RunCalls(config, actions).shared, LogOf(config, actions);
            ValidBackend(config, s.backend) && Balance(config, s, u) + MissedCount(l, u) == Booked(config, actions, u)
  {
    CallsAreSteps(config, actions);
    BookedIs(config, actions, u);
    LazyIsEager(config, LogOf(config, actions).events);
  }

  // ----------------------------------------------------------- samples that are lost

  /** The j-th action is a sample between the reading of the profiler and its restart. */
  predicate InRestart(config: BackendConfig, actions: seq<Action>, j: nat)
    requires j < |actions|
  {
    actions[j].Sampled? && Untagged(config, actions[j].trace) && RestartUnderWay(RunCalls(config, actions[..j]))
  }

  ghost predicate AnyInRestart(config: BackendConfig, actions: seq<Action>) {
    exists j :: 0 <= j < |actions| && InRestart(config, actions, j)
  }

  lemma InRestartPush(config: BackendConfig, actions: seq<Action>)
    requires actions != []
    ensures var n := |actions| - 1;
            AnyInRestart(config, actions) <==> AnyInRestart(config, actions[..n]) || InRestart(config, actions, n)
  {
    var n := |actions| - 1;
    forall j | 0 <= j < n ensures InRestart(config, actions[..n], j) <==> InRestart(config, actions, j) {
      assert actions[..n][..j] == actions[..j];
    }
  }

  lemma {:induction false} MissedIff(config: BackendConfig, actions: seq<Action>)
    ensures LogOf(config, actions).missed != [] <==> AnyInRestart(config, actions)
  {
    if actions != [] {
      MissedIff(config, actions[..|actions| - 1]);
      InRestartPush(config, actions);
    }
  }

  /** No count is missing exactly if no sample came between the reading of the profiler and its restart. */
  lemma NothingMissingIff(config: BackendConfig, actions: seq<Action>)
    requires RunCalls(config, actions).owner.None? && ValidBackend(config, RunCalls(config, actions).shared.backend)
    ensures (forall u :: Balance(config, RunCalls(config, actions).shared, u) == Booked(config, actions, u))
       <==> !AnyInRestart(config, actions)
  {
    var s, l := RunCalls(config, actions).shared, LogOf(config, actions);
    MissedIff(config, actions);
    forall u ensures Balance(config, s, u) + MissedCount(l, u) == Booked(config, actions, u) {
      CountsBooked(config, actions, u);
    }
    if l.missed != [] {
      assert l.missed[0] in multiset(l.missed);
      assert Balance(config, s, l.missed[0]) < Booked(config, actions, l.missed[0]);
    }
  }

  // ------------------------------------------------ samples under other rules

  /** The profiler runs, or is between two runs. */
  predicate Profiling(s: System) {
    s.shared.backend.guard.Some? || RestartUnderWay(s)
  }

  /** How many samples are the trace `u` under the rules in force when they were taken. */
  function Meant(config: BackendConfig, actions: seq<Action>, u: StackTrace): nat {
    if actions == [] then 0
    else
      var init := actions[..|actions| - 1];
      var s := RunCalls(config, init);
      match actions[|actions| - 1]
      case Sampled(t) =>
        Meant(config, init, u)
        + if Untagged(config, t) && Profiling(s) && AddTagRules(t, s.shared.backend.rules) == u then 1 else 0
      case _ => Meant(config, init, u)
  }

  /** The rule gives the trace's thread a tag that the trace was not born with. */
  predicate Concerns(rule: ThreadTag, t: StackTrace) {
    t.threadId == Some(rule.tid) && rule.tag !in t.metadata.tags
  }

  /** The call is about to change the tags of the trace. */
  predicate ChangesTags(call: Event, rules: set<ThreadTag>, t: StackTrace) {
    match call
    case AddTag(rule) => rule !in rules && Concerns(rule, t)
    case RemoveTag(rule) => rule in rules && Concerns(rule, t)
    case _ => false
  }

  lemma RuleMatters(call: Event, b: Backend, t: StackTrace)
    ensures AddTagRules(t, ChangeRules(call, b).rules) != AddTagRules(t, b.rules) <==> ChangesTags(call, b.rules, t)
  {
    var before, after := AddTagRules(t, b.rules).metadata.tags, AddTagRules(t, ChangeRules(call, b).rules).metadata.tags;
    match call
    case AddTag(rule) =>
      if ChangesTags(call, b.rules, t) { assert rule.tag in after && rule.tag !in before; }
    case RemoveTag(rule) =>
      if ChangesTags(call, b.rules, t) { assert rule.tag in before && rule.tag !in after; }
    case _ =>
  }

  /** The call inside has restarted the profiler and is about to change the tags of the trace. */
  predicate RulesLag(s: System, t: StackTrace) {
    && s.owner.Some? && s.owner.value in s.callers && s.callers[s.owner.value].phase.ChangingRules?
    && ChangesTags(s.callers[s.owner.value].call, s.shared.backend.rules, t)
  }

  /** The j-th action is a sample that counts and comes just before its thread's tags change. */
  predicate Early(config: BackendConfig, actions: seq<Action>, j: nat)
    requires j < |actions|
  {
    && actions[j].Sampled? && Untagged(config, actions[j].trace)
    && Profiling(RunCalls(config, actions[..j])) && RulesLag(RunCalls(config, actions[..j]), actions[j].trace)
  }

  /** The rules in force once the call inside has changed them. */
  function ComingRules(s: System): set<ThreadTag> {
    if s.owner.Some? && s.owner.value in s.callers && s.callers[s.owner.value].phase.ChangingRules?
    then ChangeRules(s.callers[s.owner.value].call, s.shared.backend).rules
    else s.shared.backend.rules
  }

  /** The events give the rules in force, or those that the call inside is about to put in force. */
  lemma RulesInForce(config: BackendConfig, s: System, l: Log, t: StackTrace)
    requires Inv(config, s, l)
    ensures Profiling(s) <==> Running(l.events)
    ensures RulesAfter(l.events) == ComingRules(s)
    ensures AddTagRules(t, RulesAfter(l.events)) != AddTagRules(t, s.shared.backend.rules) <==> RulesLag(s, t)
  {
    LazyIsEager(config, l.events);
    if s.owner.Some? { RuleMatters(s.callers[s.owner.value].call, s.shared.backend, t); }
  }

  lemma SampleAt(config: BackendConfig, actions: seq<Action>, u: StackTrace)
    requires actions != []
    ensures var init := actions[..|actions| - 1];
            !Early(config, actions, |actions| - 1) ==>
              Meant(config, actions, u) - Meant(config, init, u) == Booked(config, actions, u) - Booked(config, init, u)
  {
    var n := |actions| - 1;
    RunRight(config, actions[..n]);
    if actions[n].Sampled? { RulesInForce(config, RunCalls(config, actions[..n]), LogOf(config, actions[..n]), actions[n].trace); }
  }

  /** The tags that a sample with early tags has now are not those that it is counted under. */
  lemma EarlyDiffers(config: BackendConfig, actions: seq<Action>)
    requires actions != [] && Early(config, actions, |actions| - 1)
    ensures var n := |actions| - 1; var u := AddTagRules(actions[n].trace, RunCalls(config, actions[..n]).shared.backend.rules);
            && Meant(config, actions, u) == Meant(config, actions[..n], u) + 1
            && Booked(config, actions, u) == Booked(config, actions[..n], u)
  {
    var n := |actions| - 1;
    RunRight(config, actions[..n]);
    RulesInForce(config, RunCalls(config, actions[..n]), LogOf(config, actions[..n]), actions[n].trace);
  }

  ghost predicate SameCounts(config: BackendConfig, actions: seq<Action>) {
    forall u :: Meant(config, actions, u) == Booked(config, actions, u)
  }

  ghost predicate AnyEarly(config: BackendConfig, actions: seq<Action>) {
    exists j :: 0 <= j < |actions| && Early(config, actions, j)
  }

  lemma EarlyPush(config: BackendConfig, actions: seq<Action>)
    requires actions != []
    ensures var n := |actions| - 1;
            AnyEarly(config, actions) <==> AnyEarly(config, actions[..n]) || Early(config, actions, n)
  {
    var n := |actions| - 1;
    forall j | 0 <= j < n ensures Early(config, actions[..n], j) <==> Early(config, actions, j) {
      assert actions[..n][..j] == actions[..j];
    }
  }

  lemma {:induction false} NoneEarlySame(config: BackendConfig, actions: seq<Action>)
    requires !AnyEarly(config, actions)
    ensures SameCounts(config, actions)
  {
    if actions != [] {
      EarlyPush(config, actions);
      NoneEarlySame(config, actions[..|actions| - 1]);
      forall u ensures Meant(config, actions, u) == Booked(config, actions, u) {
        SampleAt(config, actions, u);
      }
    }
  }

  /**
   At every moment of the run each sample counts under the tags that its thread had when it
   was taken, exactly if none comes between the restart of the profiler and a change of its tags.
   */
  lemma NeverEarlyIff(config: BackendConfig, actions: seq<Action>)
    ensures (forall n | 0 <= n <= |actions| :: SameCounts(config, actions[..n])) <==> !AnyEarly(config, actions)
  {
    if AnyEarly(config, actions) {
      var j :| 0 <= j < |actions| && Early(config, actions, j);
      var until := actions[..j + 1];
      assert until[..j] == actions[..j] && Early(config, until, j);
      EarlyDiffers(config, until);
      assert !(SameCounts(config, actions[..j]) && SameCounts(config, until));
    } else {
      forall n | 0 <= n <= |actions| ensures SameCounts(config, actions[..n]) {
        forall j | 0 <= j < n ensures !Early(config, actions[..n], j) {
          assert actions[..n][..j] == actions[..j] && !Early(config, actions, j);
        }
        NoneEarlySame(config, actions[..n]);
      }
    }
  }

  /**
   In every interleaving without early samples, when no call is inside: what was delivered,
   buffered, is pending or was missed adds up, trace by trace, to the samples of the running
   profiler, each under the tags that its thread had when it was taken.
   */
  lemma CountsRight(config: BackendConfig, actions: seq<Action>, u: StackTrace)
    requires RunCalls(config, actions).owner.None? && !AnyEarly(config, actions)
    ensures var s, l := RunCalls(config, actions).shared, LogOf(config, actions);
            ValidBackend(config, s.backend) && Balance(config, s, u) + MissedCount(l, u) == Meant(config, actions, u)
  {
    CountsBooked(config, actions, u);
    NoneEarlySame(config, actions);
  }

  // ------------------------------------------------------------ runs that go wrong

  function Rank(p: Phase): nat {
    match p
    case Waiting => 0
    case Entering => 1
    case Reading => 2
    case Tagging(_, _, _) => 3
    case Recording(_, _) => 4
    case Stopping => 5
    case Restarting => 6
    case ChangingRules => 7
    case Cloning => 8
    case Clearing(_) => 9
    case Leaving => 10
  }

  function Left(p: Phase): nat {
    if p.Tagging? || p.Recording? then |p.rest| else 0
  }

  lemma Then(config: BackendConfig, actions: seq<Action>, a: Action) returns (more: seq<Action>)
    requires Enabled(config, RunCalls(config, actions), a)
    ensures more == actions + [a] && more[..|more| - 1] == actions
    ensures RunCalls(config, more) == Act(config, RunCalls(config, actions), a)
    ensures LogOf(config, more) == Logged(RunCalls(config, actions), LogOf(config, actions), a)
    ensures !a.Sampled? ==> SameSamples(config, actions, more)
  {
    more := actions + [a];
    assert more[..|more| - 1] == actions;
  }

  ghost predicate SameSamples(config: BackendConfig, actions: seq<Action>, more: seq<Action>) {
    forall u :: Meant(config, more, u) == Meant(config, actions, u) && Booked(config, more, u) == Booked(config, actions, u)
  }

  /** What moving on changes: the phase and the shared state, but neither other callers nor what was sampled. */
  ghost predicate MovedOn(config: BackendConfig, actions: seq<Action>, more: seq<Action>, id: nat) {
    var s, t := RunCalls(config, actions), RunCalls(config, more);
    && s.owner == t.owner == Some(id) && id in s.callers && id in t.callers
    && t.callers == s.callers[id := s.callers[id].(phase := t.callers[id].phase)]
    && LogOf(config, more).missed == LogOf(config, actions).missed && SameSamples(config, actions, more)
    && (Profiling(s) ==> Profiling(t))
  }

  /** Once it has begun, the profiling goes on. */
  lemma StaysProfiling(config: BackendConfig, actions: seq<Action>, more: seq<Action>, t: StackTrace)
    requires more != [] && more[..|more| - 1] == actions && Profiling(RunCalls(config, actions))
    ensures Profiling(RunCalls(config, more))
  {
    RunRight(config, actions);
    RunRight(config, more);
    RulesInForce(config, RunCalls(config, actions), LogOf(config, actions), t);
    RulesInForce(config, RunCalls(config, more), LogOf(config, more), t);
    var before, after := LogOf(config, actions).events, LogOf(config, more).events;
    assert after == before || (after != [] && after[..|after| - 1] == before);
    if after != before { RunningPrefix(after); }
  }

  /** An entry for the iteration, if there is one left. */
  lemma Pick(config: BackendConfig, actions: seq<Action>, id: nat, t: StackTrace) returns (pick: StackTrace)
    requires RunCalls(config, actions).owner == Some(id) && id in RunCalls(config, actions).callers
    requires !RunCalls(config, actions).callers[id].phase.Leaving?
    ensures CanPick(RunCalls(config, actions).callers[id].phase, pick)
  {
    RunRight(config, actions);
    var p := RunCalls(config, actions).callers[id].phase;
    pick := t;
    if (p.Tagging? || p.Recording?) && p.rest != {} { pick :| pick in p.rest; }
  }

  lemma NextRanks(call: Event, p: Phase, r: Reporter, pick: StackTrace)
    requires CanPick(p, pick) && (p.Reading? && !call.Report? ==> r.backend.guard.Some?)
    ensures var q := Next(call, p, r, pick).0;
            && (Rank(q) > Rank(p) || (Rank(q) == Rank(p) && Left(q) < Left(p)))
            && (call.AddTag? || call.RemoveTag? ==> Rank(p) < 7 ==> Rank(q) <= 7)
  {
  }

  lemma NextRules(call: Event, p: Phase, r: Reporter, pick: StackTrace)
    requires CanPick(p, pick) && Rank(p) < 7
    ensures Next(call, p, r, pick).1.backend.rules == r.backend.rules
  {
  }

  lemma OneMove(config: BackendConfig, actions: seq<Action>, id: nat, t: StackTrace) returns (more: seq<Action>)
    requires RunCalls(config, actions).owner == Some(id) && id in RunCalls(config, actions).callers
    requires !RunCalls(config, actions).callers[id].phase.Leaving?
    ensures MovedOn(config, actions, more, id)
    ensures var p, q := RunCalls(config, actions).callers[id], RunCalls(config, more).callers[id].phase;
            && (Rank(q) > Rank(p.phase) || (Rank(q) == Rank(p.phase) && Left(q) < Left(p.phase)))
            && (p.call.AddTag? || p.call.RemoveTag? ==> Rank(p.phase) < 7 ==> Rank(q) <= 7)
            && (Rank(p.phase) < 7 ==> RunCalls(config, more).shared.backend.rules == RunCalls(config, actions).shared.backend.rules)
  {
    RunRight(config, actions);
    var s := RunCalls(config, actions);
    var pick := Pick(config, actions, id, t);
    NextRanks(s.callers[id].call, s.callers[id].phase, s.shared, pick);
    if Rank(s.callers[id].phase) < 7 { NextRules(s.callers[id].call, s.callers[id].phase, s.shared, pick); }
    more := Then(config, actions, Move(id, pick));
    if Profiling(s) { StaysProfiling(config, actions, more, t); }
  }

  lemma MovedOnTransitive(config: BackendConfig, a: seq<Action>, b: seq<Action>, c: seq<Action>, id: nat)
    requires MovedOn(config, a, b, id) && MovedOn(config, b, c, id)
    ensures MovedOn(config, a, c, id)
  {
  }

  /** The caller inside is moved on to the change of the rules, or to its end. */
  lemma MoveTo(config: BackendConfig, actions: seq<Action>, id: nat, goal: nat, t: StackTrace) returns (more: seq<Action>)
    requires RunCalls(config, actions).owner == Some(id) && id in RunCalls(config, actions).callers
    requires var c := RunCalls(config, actions).callers[id];
             Rank(c.phase) <= goal && (goal == 10 || (goal == 7 && (c.call.AddTag? || c.call.RemoveTag?)))
    ensures MovedOn(config, actions, more, id) && Rank(RunCalls(config, more).callers[id].phase) == goal
    ensures goal == 7 ==> RunCalls(config, more).shared.backend.rules == RunCalls(config, actions).shared.backend.rules
  {
    more := actions;
    while Rank(RunCalls(config, more).callers[id].phase) < goal
      invariant MovedOn(config, actions, more, id) && Rank(RunCalls(config, more).callers[id].phase) <= goal
      invariant goal == 7 ==> RunCalls(config, more).shared.backend.rules == RunCalls(config, actions).shared.backend.rules
      decreases 10 - Rank(RunCalls(config, more).callers[id].phase), Left(RunCalls(config, more).callers[id].phase)
    {
      var before := more;
      more := OneMove(config, before, id, t);
      MovedOnTransitive(config, actions, before, more, id);
    }
  }

  /** No thread has a call under way. */
  predicate Quiet(s: System) {
    s.owner.None? && s.callers == map[]
  }

  lemma Begin(config: BackendConfig, actions: seq<Action>, call: Event) returns (more: seq<Action>)
    requires Quiet(RunCalls(config, actions)) && !call.Sample?
    ensures RunCalls(config, more) == System(Some(0), map[0 := Caller(call, Entering)], RunCalls(config, actions).shared)
    ensures SameSamples(config, actions, more)
    ensures LogOf(config, more).events == LogOf(config, actions).events && LogOf(config, more).missed == LogOf(config, actions).missed
  {
    more := Then(config, actions, Call(0, call));
    more := Then(config, more, Acquire(0));
  }

  lemma Finish(config: BackendConfig, actions: seq<Action>, t: StackTrace) returns (more: seq<Action>)
    requires RunCalls(config, actions).owner == Some(0) && RunCalls(config, actions).callers.Keys == {0}
    ensures Quiet(RunCalls(config, more)) && SameSamples(config, actions, more)
    ensures LogOf(config, more).missed == LogOf(config, actions).missed
  {
    var last := MoveTo(config, actions, 0, 10, t);
    more := Then(config, last, Release(0));
    assert RunCalls(config, more).callers.Keys == {};
  }

  lemma TakeSample(config: BackendConfig, actions: seq<Action>, t: StackTrace) returns (more: seq<Action>)
    requires Untagged(config, t) && Profiling(RunCalls(config, actions))
    ensures var s := RunCalls(config, actions);
            && more == actions + [Sampled(t)] && RunCalls(config, more) == s.(shared := Count(s.shared, t))
            && (forall u :: Meant(config, more, u) == Meant(config, actions, u) + if AddTagRules(t, s.shared.backend.rules) == u then 1 else 0)
            && (forall u :: Booked(config, more, u) == Booked(config, actions, u) + if AddTagRules(t, ComingRules(s)) == u then 1 else 0)
            && LogOf(config, more).missed == LogOf(config, actions).missed + if RestartUnderWay(s) then [AddTagRules(t, ComingRules(s))] else []
  {
    RunRight(config, actions);
    RulesInForce(config, RunCalls(config, actions), LogOf(config, actions), t);
    more := Then(config, actions, Sampled(t));
  }

  lemma Initialized(config: BackendConfig, t: StackTrace) returns (actions: seq<Action>)
    ensures RunCalls(config, actions) == System(None, map[], Reporter(Backend(Some(map[]), map[], {}), map[]))
    ensures LogOf(config, actions).missed == [] && forall u :: Meant(config, actions, u) == 0 == Booked(config, actions, u)
  {
    actions := Begin(config, [], Initialize);
    actions := Then(config, actions, Move(0, t));
    assert RunCalls(config, actions).callers == map[0 := Caller(Initialize, Leaving)];
    actions := Then(config, actions, Release(0));
    assert RunCalls(config, actions).callers == map[];
  }

  /** A report has read the profiler and not yet restarted it. */
  lemma ReportHasRead(config: BackendConfig, t: StackTrace) returns (actions: seq<Action>)
    ensures var s := RunCalls(config, actions);
            && s.owner == Some(0) && s.callers == map[0 := Caller(Event.Report, Tagging(map[], {}, map[]))]
            && s.shared.backend.rules == {} && Profiling(s)
    ensures LogOf(config, actions).missed == [] && forall u :: Meant(config, actions, u) == 0 == Booked(config, actions, u)
  {
    actions := Initialized(config, t);
    actions := Begin(config, actions, Event.Report);
    actions := Then(config, actions, Move(0, t));
    assert RunCalls(config, actions).callers == map[0 := Caller(Event.Report, Reading)];
    var none: Counts := map[];
    assert none.Keys == {};
    actions := Then(config, actions, Move(0, t));
  }

  /** A sample can fall into the restart of a report. When the report is over it is nowhere. */
  lemma SampleCanBeMissed(config: BackendConfig, t: StackTrace) returns (actions: seq<Action>)
    requires Untagged(config, t)
    ensures var s := RunCalls(config, actions); var u := AddTagRules(t, {});
            && Quiet(s) && ValidBackend(config, s.shared.backend)
            && Balance(config, s.shared, u) == 0 && Meant(config, actions, u) == 1 == Booked(config, actions, u)
  {
    var before := ReportHasRead(config, t);
    var taken := TakeSample(config, before, t);
    actions := Finish(config, taken, t);
    CountsBooked(config, actions, AddTagRules(t, {}));
  }

  /** `add_tag` has restarted the profiler and not yet changed the rules. */
  lemma AboutToAdd(config: BackendConfig, t: StackTrace, rule: ThreadTag) returns (actions: seq<Action>)
    ensures var s := RunCalls(config, actions);
            && s.owner == Some(0) && s.callers == map[0 := Caller(Event.AddTag(rule), ChangingRules)]
            && s.shared.backend.rules == {} && ComingRules(s) == {rule} && Profiling(s)
    ensures LogOf(config, actions).missed == [] && forall u :: Meant(config, actions, u) == 0 == Booked(config, actions, u)
  {
    var begun := Initialized(config, t);
    begun := Begin(config, begun, Event.AddTag(rule));
    actions := MoveTo(config, begun, 0, 7, t);
  }

  lemma NewTag(t: StackTrace, rule: ThreadTag)
    requires Concerns(rule, t)
    ensures AddTagRules(t, {rule}) != AddTagRules(t, {})
  {
    assert rule.tag in AddTagRules(t, {rule}).metadata.tags && rule.tag !in AddTagRules(t, {}).metadata.tags;
  }

  /** The last steps of `add_tag` and `remove_tag`. */
  lemma FinishChange(config: BackendConfig, actions: seq<Action>, t: StackTrace) returns (more: seq<Action>)
    requires var s := RunCalls(config, actions);
             s.owner == Some(0) && s.callers.Keys == {0} && s.callers[0].phase == ChangingRules
    ensures var s, r := RunCalls(config, actions), RunCalls(config, more);
            && Quiet(r) && r.shared.backend == s.shared.backend.(rules := ComingRules(s)) && SameSamples(config, actions, more)
    ensures LogOf(config, more).missed == LogOf(config, actions).missed
    ensures AnyEarly(config, actions) ==> AnyEarly(config, more)
  {
    var moved := Then(config, actions, Move(0, t));
    EarlyPush(config, moved);
    more := Then(config, moved, Release(0));
    EarlyPush(config, more);
    assert RunCalls(config, more).callers.Keys == {};
  }

  /** A sample that is taken before `add_tag` has changed the rules is counted under the new tag. */
  lemma SampleCanBeEarly(config: BackendConfig, t: StackTrace, rule: ThreadTag, u: StackTrace) returns (actions: seq<Action>)
    requires Untagged(config, t) && Concerns(rule, t) && u == AddTagRules(t, {rule})
    ensures var s := RunCalls(config, actions);
            && Quiet(s) && ValidBackend(config, s.shared.backend)
            && Meant(config, actions, u) == 0 && Balance(config, s.shared, u) == 1
  {
    var before := AboutToAdd(config, t, rule);
    NewTag(t, rule);
    var taken := TakeSample(config, before, t);
    actions := FinishChange(config, taken, t);
    CountsBooked(config, actions, u);
  }

  /** One sample on its way into `add_tag` is early, and one on its way out of `remove_tag`. */
  lemma AddedThenAboutToRemove(config: BackendConfig, t: StackTrace, rule: ThreadTag) returns (actions: seq<Action>)
    requires Untagged(config, t)
    ensures var s := RunCalls(config, actions);
            && s.owner == Some(0) && s.callers == map[0 := Caller(Event.RemoveTag(rule), ChangingRules)]
            && s.shared.backend.rules == {rule} && ComingRules(s) == {} && Profiling(s)
    ensures forall u :: Meant(config, actions, u) == if u == AddTagRules(t, {}) then 1 else 0
    ensures forall u :: Booked(config, actions, u) == if u == AddTagRules(t, {rule}) then 1 else 0
  {
    var before := AboutToAdd(config, t, rule);
    var taken := TakeSample(config, before, t);
    var added := FinishChange(config, taken, t);
    var begun := Begin(config, added, Event.RemoveTag(rule));
    actions := MoveTo(config, begun, 0, 7, t);
  }

  /** Early samples can make up for each other at the end, which is why every moment has to be looked at. */
  lemma EarlySamplesCanCancel(config: BackendConfig, t: StackTrace, rule: ThreadTag) returns (actions: seq<Action>)
    requires Untagged(config, t) && Concerns(rule, t)
    ensures Quiet(RunCalls(config, actions)) && SameCounts(config, actions) && AnyEarly(config, actions)
  {
    var before := AddedThenAboutToRemove(config, t, rule);
    var taken := TakeSample(config, before, t);
    assert taken[..|before|] == before && Early(config, taken, |before|);
    actions := FinishChange(config, taken, t);
  }
}
