/**
 The values the profiler backends hand around: tags, stack traces and reports.

 A BTreeSet<Tag> is a `set<Tag>` here together with the order `TagLess` in which
 it is iterated; a HashMap is a `map` that is iterated in any order.
 */
module BackendTypes {
  import opened Wrappers

  datatype Tag = Tag(key: string, value: string)

  datatype StackFrame = StackFrame(
    moduleName: Option<string>,
    name: Option<string>,
    filename: Option<string>,
    relativePath: Option<string>,
    absolutePath: Option<string>,
    line: Option<nat>)

  datatype Metadata = Metadata(tags: set<Tag>)

  datatype StackTrace = StackTrace(
    pid: Option<nat>,
    threadId: Option<nat>,
    threadName: Option<string>,
    frames: seq<StackFrame>,
    metadata: Metadata)

  datatype Report = Report(data: map<StackTrace, nat>, metadata: Metadata)

  datatype BackendConfig = BackendConfig(reportThreadId: bool, reportThreadName: bool, reportPid: bool)

  /** The count a HashMap<StackTrace, usize> holds for a trace, zero when it has no entry. */
  function At<K>(data: map<K, nat>, k: K): nat {
    if k in data then data[k] else 0
  }

  // ------------------------------------------------------------ stack traces

  function Digits(n: nat): string {
    var d := ['0' + (n % 10) as char];
    if n < 10 then d else Digits(n / 10) + d
  }

  /** The tags a new trace is born with: a function of the configuration and of who was sampled. */
  function BornTags(config: BackendConfig, pid: Option<nat>, threadId: Option<nat>, threadName: Option<string>): set<Tag> {
    (if config.reportPid && pid.Some? then {Tag("pid", Digits(pid.value))} else {})
    + (if config.reportThreadId && threadId.Some? then {Tag("thread_id", Digits(threadId.value))} else {})
    + (if config.reportThreadName && threadName.Some? then {Tag("thread_name", threadName.value)} else {})
  }

  function NewStackTrace(config: BackendConfig, pid: Option<nat>, threadId: Option<nat>,
                         threadName: Option<string>, frames: seq<StackFrame>): StackTrace {
    StackTrace(pid, threadId, threadName, frames, Metadata(BornTags(config, pid, threadId, threadName)))
  }

  /** The trace is as the constructor left it: no rule has tagged it yet. */
  predicate Untagged(config: BackendConfig, t: StackTrace) {
    t == NewStackTrace(config, t.pid, t.threadId, t.threadName, t.frames)
  }

  predicate AllDigits(s: string) {
    forall i | 0 <= i < |s| :: '0' <= s[i] <= '9'
  }

  function DecimalValue(s: string): nat
    requires AllDigits(s)
  {
    if s == "" then 0 else 10 * DecimalValue(s[..|s| - 1]) + (s[|s| - 1] as nat - '0' as nat)
  }

  /** The decimal form of a number, without leading zeros. */
  predicate IsDecimal(s: string, n: nat) {
    s != "" && AllDigits(s) && DecimalValue(s) == n && (s[0] == '0' ==> n == 0 && |s| == 1)
  }

  /** The tags of a new trace have its numbers in decimal. */
  lemma {:induction false} DigitsAreDecimal(n: nat)
    ensures IsDecimal(Digits(n), n)
  {
    var d := ['0' + (n % 10) as char];
    if n >= 10 {
      DigitsAreDecimal(n / 10);
      var s := Digits(n / 10) + d;
      assert s[..|s| - 1] == Digits(n / 10) && s[|s| - 1] == d[0] && s[0] == Digits(n / 10)[0];
      forall i | 0 <= i < |s| ensures '0' <= s[i] <= '9' {
        if i < |s| - 1 { assert s[i] == Digits(n / 10)[i]; }
      }
    } else {
      assert d[..|d| - 1] == "" && DecimalValue("") == 0;
    }
  }

  /** Which tags a new trace has: its numbers and its thread's name, as far as the configuration wants them. */
  lemma BornTagsAre(config: BackendConfig, pid: Option<nat>, threadId: Option<nat>, threadName: Option<string>, tag: Tag)
    ensures tag in BornTags(config, pid, threadId, threadName) <==>
      || (config.reportPid && pid.Some? && tag == Tag("pid", Digits(pid.value)))
      || (config.reportThreadId && threadId.Some? && tag == Tag("thread_id", Digits(threadId.value)))
      || (config.reportThreadName && threadName.Some? && tag == Tag("thread_name", threadName.value))
  {
  }

  // ------------------------------------------------------- the order of tags

  predicate StringLess(a: string, b: string) {
    b != "" && (a == "" || a[0] < b[0] || (a[0] == b[0] && StringLess(a[1..], b[1..])))
  }

  predicate TagLess(a: Tag, b: Tag) {
    StringLess(a.key, b.key) || (a.key == b.key && StringLess(a.value, b.value))
  }

  /** Where two strings differ first. */
  predicate FirstDifference(a: string, b: string, i: nat) {
    i < |a| && i < |b| && a[..i] == b[..i] && a[i] < b[i]
  }

  /** The order is the dictionary's: a prefix comes first, and otherwise the first difference decides. */
  lemma {:induction false} StringLessIs(a: string, b: string)
    ensures StringLess(a, b) <==> (a < b || exists i: nat :: FirstDifference(a, b, i))
    decreases |a|
  {
    if a != "" && b != "" && a[0] == b[0] {
      StringLessIs(a[1..], b[1..]);
      PrefixRest(a, b);
      if i: nat :| FirstDifference(a[1..], b[1..], i) { DifferenceRest(a, b, i); }
      if i: nat :| FirstDifference(a, b, i) { DifferenceFirst(a, b, i); }
    } else if a != "" && b != "" {
      assert FirstDifference(a, b, 0) <==> a[0] < b[0];
      if i: nat :| FirstDifference(a, b, i) { assert i > 0 ==> a[..i][0] == b[..i][0]; }
    }
  }

  lemma PrefixRest(a: string, b: string)
    requires a != "" && b != "" && a[0] == b[0]
    ensures a < b <==> a[1..] < b[1..]
  {
    assert a == [a[0]] + a[1..] && b == [b[0]] + b[1..];
  }

  lemma DifferenceRest(a: string, b: string, i: nat)
    requires a != "" && b != "" && a[0] == b[0] && FirstDifference(a[1..], b[1..], i)
    ensures FirstDifference(a, b, i + 1)
  {
    assert a[..i + 1] == [a[0]] + a[1..][..i] && b[..i + 1] == [b[0]] + b[1..][..i];
  }

  lemma DifferenceFirst(a: string, b: string, i: nat)
    requires a != "" && b != "" && a[0] == b[0] && FirstDifference(a, b, i)
    ensures i > 0 && FirstDifference(a[1..], b[1..], i - 1)
  {
    assert a[1..][..i - 1] == a[..i][1..] && b[1..][..i - 1] == b[..i][1..];
  }

  lemma {:induction false} StringLessTotal(a: string, b: string)
    ensures a == b || StringLess(a, b) || StringLess(b, a)
    ensures !(StringLess(a, b) && StringLess(b, a)) && !StringLess(a, a)
    decreases |a|
  {
    if a != "" && b != "" {
      StringLessTotal(a[1..], b[1..]);
      StringLessTotal(a[1..], a[1..]);
      assert a == [a[0]] + a[1..] && b == [b[0]] + b[1..];
    } else if a != "" {
      StringLessTotal(a[1..], a[1..]);
    }
  }

  lemma {:induction false} StringLessTransitive(a: string, b: string, c: string)
    requires StringLess(a, b) && StringLess(b, c)
    ensures StringLess(a, c)
    decreases |a|
  {
    if a != "" && a[0] == b[0] == c[0] {
      StringLessTransitive(a[1..], b[1..], c[1..]);
    }
  }

  lemma TagLessTotal(a: Tag, b: Tag)
    ensures a == b || TagLess(a, b) || TagLess(b, a)
    ensures !(TagLess(a, b) && TagLess(b, a))
  {
    StringLessTotal(a.key, b.key);
    StringLessTotal(a.value, b.value);
    StringLessTotal(a.key, a.key);
  }

  lemma TagLessTransitive(a: Tag, b: Tag, c: Tag)
    requires TagLess(a, b) && TagLess(b, c)
    ensures TagLess(a, c)
  {
    if StringLess(a.key, b.key) && StringLess(b.key, c.key) {
      StringLessTransitive(a.key, b.key, c.key);
    } else if a.key == b.key && b.key == c.key {
      StringLessTransitive(a.value, b.value, c.value);
    }
  }

  ghost predicate IsFirst(tags: set<Tag>, first: Tag) {
    first in tags && forall t | t in tags :: t == first || TagLess(first, t)
  }

  /** A non-empty BTreeSet has a first element. */
  lemma {:induction false} FirstExists(tags: set<Tag>) returns (first: Tag)
    requires tags != {}
    ensures IsFirst(tags, first)
  {
    var t :| t in tags;
    if tags == {t} {
      first := t;
    } else {
      var rest := tags - {t};
      assert tags == rest + {t};
      first := FirstExists(rest);
      TagLessTotal(t, first);
      if TagLess(t, first) {
        forall u | u in tags ensures u == t || TagLess(t, u) {
          if u != t && u != first { TagLessTransitive(t, first, u); }
        }
        first := t;
      }
    }
  }
}
