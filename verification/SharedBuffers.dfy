/**
 The Python and Ruby backends: a sampler thread tags samples and records them in the
 shared buffer, while a report clones the buffer under its lock, gives the lock up,
 and clears the buffer under a second lock. Calls on the backend exclude each other,
 but the sampler thread is no such call.
 */
module SharedBuffers {
  import opened BackendTypes
  import opened TagRules
  import opened StackBuffers
  import opened PprofBackend

  datatype Sampler = Idle | Tagged(trace: StackTrace)

  datatype Reporting = NoReport | Cloned(copy: Counts)

  datatype Shared = Shared(
    buffer: Counts, rules: set<ThreadTag>, sampler: Sampler, reporting: Reporting, delivered: Counts)

  datatype Action =
    | Observe(trace: StackTrace)
    | Put
    | Clone
    | Clear
    | Add(rule: ThreadTag)
    | Remove(rule: ThreadTag)

  const EMPTY := Shared(map[], {}, Idle, NoReport, map[])

  predicate Enabled(s: Shared, a: Action) {
    match a
    case Observe(_) => s.sampler.Idle?
    case Put => s.sampler.Tagged?
    case Clone => s.reporting.NoReport?
    case Clear => s.reporting.Cloned?
    case Add(_) => s.reporting.NoReport?
    case Remove(_) => s.reporting.NoReport?
  }

  function Act(s: Shared, a: Action): Shared {
    match a
    case Observe(trace) => s.(sampler := Tagged(AddTagRules(trace, s.rules)))
    case Put => if s.sampler.Tagged? then s.(buffer := Record(s.buffer, s.sampler.trace, 1), sampler := Idle) else s
    case Clone => s.(reporting := Cloned(s.buffer))
    case Clear =>
      if s.reporting.Cloned? then
        s.(buffer := map[], reporting := NoReport, delivered := Merge(s.delivered, s.reporting.copy))
      else s
    case Add(rule) => s.(rules := s.rules + {rule})
    case Remove(rule) => s.(rules := s.rules - {rule})
  }

  function RunShared(actions: seq<Action>): Shared {
    if actions == [] then EMPTY
    else
      var s := RunShared(actions[..|actions| - 1]);
      if Enabled(s, actions[|actions| - 1]) then Act(s, actions[|actions| - 1]) else s
  }

  // --------------------------------------------------------------- accounting

  /** All records; those since the clone of a report under way; those of finished reports. */
  datatype Log = Log(recorded: seq<StackTrace>, window: seq<StackTrace>, lost: seq<StackTrace>)

  function Logged(s: Shared, l: Log, a: Action): Log {
    match a
    case Put =>
      if s.sampler.Idle? then l
      else
        var t := s.sampler.trace;
        Log(l.recorded + [t], if s.reporting.Cloned? then l.window + [t] else l.window, l.lost)
    case Clear => Log(l.recorded, [], l.lost + l.window)
    case _ => l
  }

  function LogOf(actions: seq<Action>): Log {
    if actions == [] then Log([], [], [])
    else
      var init := actions[..|actions| - 1];
      var s := RunShared(init);
      if Enabled(s, actions[|actions| - 1]) then Logged(s, LogOf(init), actions[|actions| - 1])
      else LogOf(init)
  }

  function CountOf(traces: seq<StackTrace>, t: StackTrace): nat {
    multiset(traces)[t]
  }

  ghost predicate Balanced(s: Shared, l: Log, t: StackTrace) {
    && CountOf(l.recorded, t) == At(s.delivered, t) + At(s.buffer, t) + CountOf(l.lost, t)
    && (if s.reporting.Cloned? then At(s.buffer, t) == At(s.reporting.copy, t) + CountOf(l.window, t) else l.window == [])
  }

  lemma CountPush(traces: seq<StackTrace>, more: seq<StackTrace>, t: StackTrace)
    ensures CountOf(traces + more, t) == CountOf(traces, t) + CountOf(more, t)
  {
  }

  lemma CountOne(x: StackTrace, t: StackTrace)
    ensures CountOf([x], t) == if x == t then 1 else 0
  {
  }

  lemma ActBalanced(s: Shared, l: Log, a: Action, t: StackTrace)
    requires Balanced(s, l, t) && Enabled(s, a)
    ensures Balanced(Act(s, a), Logged(s, l, a), t)
  {
    if a.Put? {
      CountPush(l.recorded, [s.sampler.trace], t);
      CountPush(l.window, [s.sampler.trace], t);
      CountOne(s.sampler.trace, t);
    } else if a.Clear? {
      CountPush(l.lost, l.window, t);
    }
  }

  /**
   In every interleaving, each trace's records are those delivered, those still in the
   buffer, and those that fell between the clone and the clear of a finished report.
   */
  lemma {:induction false} RecordsConserved(actions: seq<Action>, t: StackTrace)
    ensures Balanced(RunShared(actions), LogOf(actions), t)
  {
    if actions != [] {
      var n := |actions| - 1;
      RecordsConserved(actions[..n], t);
      var s := RunShared(actions[..n]);
      if Enabled(s, actions[n]) {
        ActBalanced(s, LogOf(actions[..n]), actions[n], t);
      }
    }
  }

  // ------------------------------------------------ what the actions alone say

  /** The sampler has a trace that it has not recorded. */
  predicate Busy(actions: seq<Action>) {
    actions != [] &&
    match actions[|actions| - 1]
    case Observe(_) => true
    case Put => false
    case _ => Busy(actions[..|actions| - 1])
  }

  /** A report has cloned the buffer and not cleared it. */
  predicate Open(actions: seq<Action>) {
    actions != [] &&
    match actions[|actions| - 1]
    case Clone => true
    case Clear => false
    case _ => Open(actions[..|actions| - 1])
  }

  /** The rules that the calls have left; none gets in while a report is under way. */
  function RulesOf(actions: seq<Action>): set<ThreadTag> {
    if actions == [] then {}
    else
      var init := actions[..|actions| - 1];
      match actions[|actions| - 1]
      case Add(rule) => if Open(init) then RulesOf(init) else RulesOf(init) + {rule}
      case Remove(rule) => if Open(init) then RulesOf(init) else RulesOf(init) - {rule}
      case _ => RulesOf(init)
  }

  lemma {:induction false} StateOf(actions: seq<Action>)
    ensures RunShared(actions).sampler.Tagged? <==> Busy(actions)
    ensures RunShared(actions).reporting.Cloned? <==> Open(actions)
    ensures RunShared(actions).rules == RulesOf(actions)
  {
    if actions != [] { StateOf(actions[..|actions| - 1]); }
  }

  /** The j-th action records a trace while a report has its clone and has not cleared. */
  predicate RecordsInGap(actions: seq<Action>, j: nat)
    requires j < |actions|
  {
    actions[j].Put? && Busy(actions[..j]) && Open(actions[..j])
  }

  predicate NoClearAfter(actions: seq<Action>, j: nat) {
    forall k | j < k < |actions| :: !actions[k].Clear?
  }

  /** Some trace has been recorded since the clone of the report under way. */
  ghost predicate InGap(actions: seq<Action>) {
    exists j :: 0 <= j < |actions| && RecordsInGap(actions, j) && NoClearAfter(actions, j)
  }

  /** Some trace is recorded between a clone and a later clear. */
  ghost predicate Losing(actions: seq<Action>) {
    exists j, k :: 0 <= j < k < |actions| && RecordsInGap(actions, j) && actions[k].Clear?
  }

  lemma RecordsPrefix(actions: seq<Action>, n: nat, j: nat)
    requires j < n <= |actions|
    ensures RecordsInGap(actions[..n], j) <==> RecordsInGap(actions, j)
  {
    assert actions[..n][..j] == actions[..j];
  }

  lemma InGapPush(actions: seq<Action>)
    requires actions != []
    ensures var n := |actions| - 1;
            InGap(actions) <==> !actions[n].Clear? && (InGap(actions[..n]) || RecordsInGap(actions, n))
  {
    var n := |actions| - 1;
    if InGap(actions) {
      var j :| 0 <= j < |actions| && RecordsInGap(actions, j) && NoClearAfter(actions, j);
      if j < n { RecordsPrefix(actions, n, j); assert NoClearAfter(actions[..n], j); }
    }
    if InGap(actions[..n]) && !actions[n].Clear? {
      var j :| 0 <= j < n && RecordsInGap(actions[..n], j) && NoClearAfter(actions[..n], j);
      RecordsPrefix(actions, n, j);
      forall k | j < k < |actions| ensures !actions[k].Clear? {
        assert k < n ==> actions[k] == actions[..n][k];
      }
      assert NoClearAfter(actions, j);
    }
    if RecordsInGap(actions, n) { assert NoClearAfter(actions, n); }
  }

  lemma LosingPush(actions: seq<Action>)
    requires actions != []
    ensures var n := |actions| - 1;
            Losing(actions) <==> Losing(actions[..n]) || (actions[n].Clear? && InGap(actions[..n]))
  {
    var n := |actions| - 1;
    var init := actions[..n];
    if Losing(actions) && !Losing(init) {
      var j, k :| 0 <= j < k < |actions| && RecordsInGap(actions, j) && actions[k].Clear?;
      RecordsPrefix(actions, n, j);
      forall i | j < i < n ensures !init[i].Clear? {
      }
      assert k == n && NoClearAfter(init, j);
    }
    if Losing(init) {
      var j, k :| 0 <= j < k < n && RecordsInGap(init, j) && init[k].Clear?;
      RecordsPrefix(actions, n, j);
      assert actions[k].Clear?;
    }
    if actions[n].Clear? && InGap(init) {
      var j :| 0 <= j < n && RecordsInGap(init, j) && NoClearAfter(init, j);
      RecordsPrefix(actions, n, j);
    }
  }

  lemma {:induction false} LogOfActions(actions: seq<Action>)
    ensures LogOf(actions).window != [] <==> InGap(actions)
    ensures LogOf(actions).lost != [] <==> Losing(actions)
    ensures !Open(actions) ==> LogOf(actions).window == []
  {
    if actions != [] {
      var init := actions[..|actions| - 1];
      LogOfActions(init);
      StateOf(init);
      InGapPush(actions);
      LosingPush(actions);
    }
  }

  /** Every record is delivered or in the buffer exactly if none falls between a clone and its clear. */
  lemma NothingMissingIff(actions: seq<Action>)
    ensures var s, l := RunShared(actions), LogOf(actions);
            (forall t :: CountOf(l.recorded, t) == At(s.delivered, t) + At(s.buffer, t)) <==> !Losing(actions)
  {
    var s, l := RunShared(actions), LogOf(actions);
    LogOfActions(actions);
    forall t ensures Balanced(s, l, t) {
      RecordsConserved(actions, t);
    }
    if l.lost != [] {
      assert l.lost[0] in multiset(l.lost);
      assert Balanced(s, l, l.lost[0]);
    } else {
      forall t ensures CountOf(l.recorded, t) == At(s.delivered, t) + At(s.buffer, t) {
        assert Balanced(s, l, t);
      }
    }
  }

  /** One record at the wrong moment is in no report and not in the buffer. */
  lemma RecordCanBeLost(t: StackTrace)
    ensures var s := RunShared([Observe(t), Clone, Put, Clear]);
            At(s.delivered, AddTagRules(t, {})) == 0 && At(s.buffer, AddTagRules(t, {})) == 0
    ensures LogOf([Observe(t), Clone, Put, Clear]).recorded == [AddTagRules(t, {})]
  {
    var a1, a2, a3, a4 := [Observe(t)], [Observe(t), Clone], [Observe(t), Clone, Put], [Observe(t), Clone, Put, Clear];
    assert a1[..0] == [] && a2[..1] == a1 && a3[..2] == a2 && a4[..3] == a3;
    assert RunShared(a1) == Act(EMPTY, Observe(t));
    assert RunShared(a2) == Act(RunShared(a1), Clone);
    assert RunShared(a3) == Act(RunShared(a2), Put);
    assert LogOf(a1).recorded == [];
    assert LogOf(a2).recorded == [];
  }

  // ------------------------------------------------------------------ tagging

  /** The samples as tagged by the rules in force when the sampler looked at each. */
  function TaggedSamples(actions: seq<Action>): seq<StackTrace> {
    if actions == [] then []
    else
      var init := actions[..|actions| - 1];
      match actions[|actions| - 1]
      case Observe(trace) =>
        TaggedSamples(init) + if Busy(init) then [] else [AddTagRules(trace, RulesOf(init))]
      case _ => TaggedSamples(init)
  }

  function InSampler(s: Sampler): seq<StackTrace> {
    if s.Tagged? then [s.trace] else []
  }

  /** Every sample is recorded once, in order, with the tags of that moment; at most one is on its way. */
  lemma {:induction false} RecordedAsTagged(actions: seq<Action>)
    ensures TaggedSamples(actions) == LogOf(actions).recorded + InSampler(RunShared(actions).sampler)
  {
    if actions != [] {
      RecordedAsTagged(actions[..|actions| - 1]);
      StateOf(actions[..|actions| - 1]);
    }
  }
}
