/**
 The stack buffer of src/backend/types.rs and its split into reports.

 Reports are keyed by a hash of their metadata. The hash is an arbitrary function
 `getId` here, so the split is proved for every hash and every fold order, and the
 one property that needs the hash to tell metadata apart says so.
 */
module StackBuffers {
  import opened BackendTypes

  function Record(data: map<StackTrace, nat>, t: StackTrace, count: nat): map<StackTrace, nat> {
    data[t := At(data, t) + count]
  }

  class StackBuffer {
    var data: map<StackTrace, nat>

    constructor ()
      ensures data == map[]
    {
      data := map[];
    }

    method RecordOne(t: StackTrace)
      modifies this
      ensures data == Record(old(data), t, 1)
    {
      RecordWithCount(t, 1);
    }

    method RecordWithCount(t: StackTrace, count: nat)
      modifies this
      ensures data == Record(old(data), t, count)
    {
      if t !in data {
        data := data[t := 0];
      }
      data := data[t := data[t] + count];
    }

    method Clear()
      modifies this
      ensures data == map[]
    {
      data := map[];
    }
  }

  // ---------------------------------------------------------------- grouping

  /** The metadata of a report is that of one of its traces. */
  ghost predicate Inherited(r: Report) {
    exists t :: t in r.data && t.metadata == r.metadata
  }

  /** The fold's accumulator after the traces in `done`. */
  ghost predicate Folded(data: map<StackTrace, nat>, done: set<StackTrace>, acc: map<nat, Report>, getId: Metadata -> nat) {
    && (forall id, t | id in acc && t in acc[id].data ::
          t in done && t in data && acc[id].data[t] == data[t] && getId(t.metadata) == id)
    && (forall t | t in done :: getId(t.metadata) in acc && t in acc[getId(t.metadata)].data)
    && (forall id | id in acc :: getId(acc[id].metadata) == id && Inherited(acc[id]))
  }

  /** A report holds traces of the buffer, with their counts, all of the report's id. */
  ghost predicate HoldsOnly(data: map<StackTrace, nat>, r: Report, getId: Metadata -> nat) {
    forall t | t in r.data :: t in data && r.data[t] == data[t] && getId(t.metadata) == getId(r.metadata)
  }

  ghost predicate SomewhereIn(t: StackTrace, reports: seq<Report>) {
    exists i :: 0 <= i < |reports| && t in reports[i].data
  }

  ghost predicate DistinctIds(reports: seq<Report>, getId: Metadata -> nat) {
    forall i, j | 0 <= i < j < |reports| :: getId(reports[i].metadata) != getId(reports[j].metadata)
  }

  /**
   The reports are a partition of the buffer: every trace is in exactly one of them,
   with its count, among traces of the same id, and every report carries the metadata
   of one of its traces.
   */
  ghost predicate IsGrouping(data: map<StackTrace, nat>, reports: seq<Report>, getId: Metadata -> nat) {
    && (forall i | 0 <= i < |reports| :: HoldsOnly(data, reports[i], getId) && Inherited(reports[i]))
    && (forall t | t in data :: SomewhereIn(t, reports))
    && DistinctIds(reports, getId)
  }

  lemma FoldNew(data: map<StackTrace, nat>, done: set<StackTrace>, acc: map<nat, Report>, getId: Metadata -> nat, t: StackTrace)
    requires Folded(data, done, acc, getId) && t in data && t !in done && getId(t.metadata) !in acc
    ensures Folded(data, done + {t}, acc[getId(t.metadata) := Report(Record(map[], t, data[t]), t.metadata)], getId)
  {
    var r := Report(Record(map[], t, data[t]), t.metadata);
    assert t in r.data && Inherited(r);
  }

  lemma FoldKnown(data: map<StackTrace, nat>, done: set<StackTrace>, acc: map<nat, Report>, getId: Metadata -> nat, t: StackTrace)
    requires Folded(data, done, acc, getId) && t in data && t !in done && getId(t.metadata) in acc
    ensures var r := acc[getId(t.metadata)];
            Folded(data, done + {t}, acc[getId(t.metadata) := r.(data := Record(r.data, t, data[t]))], getId)
  {
    var r := acc[getId(t.metadata)];
    assert t !in r.data && Inherited(r);
    var u :| u in r.data && u.metadata == r.metadata;
    var r' := r.(data := Record(r.data, t, data[t]));
    assert u in r'.data && Inherited(r');
  }

  method FoldReports(data: map<StackTrace, nat>, getId: Metadata -> nat) returns (acc: map<nat, Report>)
    ensures Folded(data, data.Keys, acc, getId)
  {
    acc := map[];
    var rest := data.Keys;
    ghost var done := {};
    while rest != {}
      invariant rest !! done && rest + done == data.Keys
      invariant Folded(data, done, acc, getId)
      decreases rest
    {
      var t :| t in rest;
      var id := getId(t.metadata);
      if id in acc {
        FoldKnown(data, done, acc, getId, t);
        acc := acc[id := acc[id].(data := Record(acc[id].data, t, data[t]))];
      } else {
        FoldNew(data, done, acc, getId, t);
        var report := Report(Record(map[], t, data[t]), t.metadata);
        acc := acc[id := report];
      }
      rest, done := rest - {t}, done + {t};
    }
    assert done == data.Keys;
  }

  /** `reports` lists the accumulator's entries outside `rest`. */
  ghost predicate Listed(acc: map<nat, Report>, rest: set<nat>, reports: seq<Report>, getId: Metadata -> nat) {
    && (forall i | 0 <= i < |reports| ::
          var id := getId(reports[i].metadata); id in acc && id !in rest && reports[i] == acc[id])
    && DistinctIds(reports, getId)
    && (forall id | id in acc && id !in rest :: acc[id] in reports)
  }

  lemma ListedGroups(data: map<StackTrace, nat>, acc: map<nat, Report>, reports: seq<Report>, getId: Metadata -> nat)
    requires Folded(data, data.Keys, acc, getId) && Listed(acc, {}, reports, getId)
    ensures IsGrouping(data, reports, getId)
  {
    forall i | 0 <= i < |reports| ensures HoldsOnly(data, reports[i], getId) && Inherited(reports[i]) {
      var id := getId(reports[i].metadata);
      assert acc[id] == reports[i];
    }
    forall t | t in data ensures SomewhereIn(t, reports) {
      var r := acc[getId(t.metadata)];
      var i :| 0 <= i < |reports| && reports[i] == r;
      assert t in reports[i].data;
    }
  }

  lemma ListedStep(acc: map<nat, Report>, rest: set<nat>, reports: seq<Report>, getId: Metadata -> nat, id: nat)
    requires Listed(acc, rest, reports, getId) && id in rest && id in acc && getId(acc[id].metadata) == id
    ensures Listed(acc, rest - {id}, reports + [acc[id]], getId)
  {
  }

  /** `into_values`: the reports in any order. */
  method IntoReports(data: map<StackTrace, nat>, getId: Metadata -> nat) returns (reports: seq<Report>)
    ensures IsGrouping(data, reports, getId)
  {
    var acc := FoldReports(data, getId);
    reports := [];
    var rest := acc.Keys;
    while rest != {}
      invariant rest <= acc.Keys && forall id | id in acc :: getId(acc[id].metadata) == id
      invariant Listed(acc, rest, reports, getId)
      decreases rest
    {
      var id :| id in rest;
      ListedStep(acc, rest, reports, getId, id);
      reports := reports + [acc[id]];
      rest := rest - {id};
    }
    ListedGroups(data, acc, reports, getId);
  }

  ghost predicate InjectiveOn(data: map<StackTrace, nat>, getId: Metadata -> nat) {
    forall t, u | t in data && u in data && getId(t.metadata) == getId(u.metadata) :: t.metadata == u.metadata
  }

  ghost predicate RightMetadata(reports: seq<Report>) {
    forall i, t | 0 <= i < |reports| && t in reports[i].data :: t.metadata == reports[i].metadata
  }

  /** No trace is in two reports. */
  lemma GroupingDisjoint(data: map<StackTrace, nat>, reports: seq<Report>, getId: Metadata -> nat, i: nat, j: nat)
    requires DistinctIds(reports, getId) && i < j < |reports|
    requires HoldsOnly(data, reports[i], getId) && HoldsOnly(data, reports[j], getId)
    ensures reports[i].data.Keys !! reports[j].data.Keys
  {
    forall t | t in reports[i].data.Keys ensures t !in reports[j].data.Keys {
      if t in reports[j].data { SameReport(reports, getId, i, j); }
    }
  }

  /**
   Every report carries the metadata of each trace in it exactly when the hash tells the
   metadata in the buffer apart.
   */
  lemma MetadataRightIffInjective(data: map<StackTrace, nat>, reports: seq<Report>, getId: Metadata -> nat)
    requires IsGrouping(data, reports, getId)
    ensures RightMetadata(reports) <==> InjectiveOn(data, getId)
  {
    if RightMetadata(reports) {
      forall t, u | t in data && u in data && getId(t.metadata) == getId(u.metadata) ensures t.metadata == u.metadata {
        assert SomewhereIn(t, reports) && SomewhereIn(u, reports);
        var i :| 0 <= i < |reports| && t in reports[i].data;
        var j :| 0 <= j < |reports| && u in reports[j].data;
        assert HoldsOnly(data, reports[i], getId) && HoldsOnly(data, reports[j], getId);
        SameReport(reports, getId, i, j);
      }
    }
    if InjectiveOn(data, getId) {
      forall i, t | 0 <= i < |reports| && t in reports[i].data ensures t.metadata == reports[i].metadata {
        InheritedRight(data, reports[i], getId, t);
      }
    }
  }

  lemma SameReport(reports: seq<Report>, getId: Metadata -> nat, i: nat, j: nat)
    requires DistinctIds(reports, getId) && i < |reports| && j < |reports|
    requires getId(reports[i].metadata) == getId(reports[j].metadata)
    ensures i == j
  {
    assert !(i < j) && !(j < i);
  }

  lemma InheritedRight(data: map<StackTrace, nat>, r: Report, getId: Metadata -> nat, t: StackTrace)
    requires HoldsOnly(data, r, getId) && Inherited(r) && InjectiveOn(data, getId) && t in r.data
    ensures t.metadata == r.metadata
  {
    var u :| u in r.data && u.metadata == r.metadata;
    assert getId(u.metadata) == getId(t.metadata);
  }
}
