/** Per-thread tag rules (src/backend/ruleset.rs). */
module TagRules {
  import opened Wrappers
  import opened BackendTypes

  datatype ThreadTag = ThreadTag(tid: nat, tag: Tag)

  class ThreadTagsSet {
    var rules: set<ThreadTag>

    constructor ()
      ensures rules == {}
    {
      rules := {};
    }

    /** True when the rule was not there yet. */
    method Add(rule: ThreadTag) returns (inserted: bool)
      modifies this
      ensures inserted == (rule !in old(rules)) && rules == old(rules) + {rule}
    {
      inserted := rule !in rules;
      rules := rules + {rule};
    }

    /** True when the rule was there. */
    method Remove(rule: ThreadTag) returns (removed: bool)
      modifies this
      ensures removed == (rule in old(rules)) && rules == old(rules) - {rule}
    {
      removed := rule in rules;
      rules := rules - {rule};
    }
  }

  function RuleTags(threadId: Option<nat>, rules: set<ThreadTag>): set<Tag> {
    set r | r in rules && threadId == Some(r.tid) :: r.tag
  }

  /** The trace with the tags its thread has under the rules. */
  function AddTagRules(t: StackTrace, rules: set<ThreadTag>): StackTrace {
    t.(metadata := Metadata(t.metadata.tags + RuleTags(t.threadId, rules)))
  }

  /** The trace has the tags it had and those that some rule gives its thread, and is otherwise the same. */
  lemma TagsAre(t: StackTrace, rules: set<ThreadTag>, tag: Tag)
    ensures tag in AddTagRules(t, rules).metadata.tags <==>
      tag in t.metadata.tags || exists r :: r in rules && t.threadId == Some(r.tid) && r.tag == tag
    ensures AddTagRules(t, rules).(metadata := t.metadata) == t
  {
  }

  /** The source's loop over the rules, which are visited in any order. */
  method ApplyRules(t: StackTrace, rules: set<ThreadTag>) returns (tagged: StackTrace)
    ensures tagged == AddTagRules(t, rules)
  {
    var tags := t.metadata.tags;
    var rest := rules;
    ghost var done := {};
    while rest != {}
      invariant rest + done == rules
      invariant tags == t.metadata.tags + RuleTags(t.threadId, done)
      decreases rest
    {
      var rule :| rule in rest;
      assert RuleTags(t.threadId, done + {rule})
          == RuleTags(t.threadId, done) + if t.threadId == Some(rule.tid) then {rule.tag} else {};
      if t.threadId.Some? && rule.tid == t.threadId.value {
        tags := tags + {rule.tag};
      }
      rest, done := rest - {rule}, done + {rule};
    }
    assert done == rules;
    tagged := t.(metadata := Metadata(tags));
  }

  // ----------------------------------------------- does tagging merge traces?

  ghost predicate SameButTags(a: StackTrace, b: StackTrace) {
    a == b.(metadata := a.metadata)
  }

  /**
   Some rules make two different traces equal exactly when they are samples of one known
   thread that differ in nothing but their tags.
   */
  lemma MergeableIff(a: StackTrace, b: StackTrace)
    ensures (exists rules :: AddTagRules(a, rules) == AddTagRules(b, rules))
       <==> a == b || (SameButTags(a, b) && a.threadId.Some?)
  {
    if a == b {
      assert AddTagRules(a, {}) == AddTagRules(b, {});
    } else if SameButTags(a, b) && a.threadId.Some? {
      var both := a.metadata.tags + b.metadata.tags;
      var rules := set t | t in both :: ThreadTag(a.threadId.value, t);
      forall t ensures t in RuleTags(a.threadId, rules) <==> t in both {
        if t in both { assert ThreadTag(a.threadId.value, t) in rules; }
      }
      assert a.metadata.tags + RuleTags(a.threadId, rules) == both == b.metadata.tags + RuleTags(b.threadId, rules);
      assert AddTagRules(a, rules) == AddTagRules(b, rules);
    } else {
      forall rules ensures AddTagRules(a, rules) != AddTagRules(b, rules) {
        if a.threadId.None? && b.threadId.None? {
          assert RuleTags(a.threadId, rules) == RuleTags(b.threadId, rules) == {};
        }
      }
    }
  }

  /** Traces straight from the constructor stay apart under every rule set. */
  lemma UntaggedNeverMerge(config: BackendConfig, a: StackTrace, b: StackTrace, rules: set<ThreadTag>)
    requires Untagged(config, a) && Untagged(config, b)
    ensures AddTagRules(a, rules) == AddTagRules(b, rules) <==> a == b
  {
    if AddTagRules(a, rules) == AddTagRules(b, rules) {
      assert a.pid == b.pid && a.threadId == b.threadId && a.threadName == b.threadName && a.frames == b.frames;
    }
  }
}
