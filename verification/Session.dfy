/** From a backend buffer to the profile of a session: grouping, then encoding (src/session.rs). */
module SessionEncoding {
  import opened Bags
  import opened BackendTypes
  import opened StackBuffers
  import opened ProfileFormat
  import opened PprofEncode
  import I64

  /** A trace with nothing but its own tags as labels. */
  ghost function OwnMeaning(item: (StackTrace, nat), period: int): Meaning {
    TraceMeaning(item.0, item.1, {}, period)
  }

  ghost function DescribeOwn(period: int): ((StackTrace, nat)) -> Meaning {
    (item: (StackTrace, nat)) => OwnMeaning(item, period)
  }

  lemma LabelsTwice(tags: set<Tag>)
    ensures LabelsMeaning(tags, tags) == LabelsMeaning(tags, {})
  {
  }

  ghost function AllItems(reports: seq<Report>): set<(StackTrace, nat)> {
    if reports == [] then {} else AllItems(reports[..|reports| - 1]) + reports[|reports| - 1].data.Items
  }

  lemma {:induction false} AllItemsIn(reports: seq<Report>, item: (StackTrace, nat))
    ensures item in AllItems(reports) <==> exists i :: 0 <= i < |reports| && item in reports[i].data.Items
  {
    if reports != [] {
      var n := |reports| - 1;
      AllItemsIn(reports[..n], item);
      if i :| 0 <= i < |reports| && item in reports[i].data.Items && i < n {
        assert item in reports[..n][i].data.Items;
      }
    }
  }

  lemma {:induction false} ReportsAsOne(reports: seq<Report>, period: int)
    requires RightMetadata(reports)
    requires forall i, j | 0 <= i < j < |reports| :: reports[i].data.Keys !! reports[j].data.Keys
    ensures ReportsMeaning(reports, period) == Image(AllItems(reports), DescribeOwn(period))
  {
    if reports != [] {
      var n := |reports| - 1;
      var init, last := reports[..n], reports[n];
      ReportsAsOne(init, period);
      forall item | item in last.data.Items
        ensures Describe(last.metadata.tags, period)(item) == DescribeOwn(period)(item)
      {
        assert item.0 in last.data;
        LabelsTwice(last.metadata.tags);
      }
      ImageSame(last.data.Items, Describe(last.metadata.tags, period), DescribeOwn(period));
      forall item | item in AllItems(init) ensures item !in last.data.Items {
        AllItemsIn(init, item);
        var i :| 0 <= i < |init| && item in init[i].data.Items;
        assert item.0 in reports[i].data.Keys;
      }
      ImageUnion(AllItems(init), last.data.Items, DescribeOwn(period));
    }
  }

  /**
   A session's profile means one sample per buffered trace, with the trace's own count
   and its own tags, whatever the hash, as long as it tells the buffered metadata apart.
   */
  lemma GroupedMeaning(data: map<StackTrace, nat>, reports: seq<Report>, getId: Metadata -> nat, period: int)
    requires IsGrouping(data, reports, getId) && InjectiveOn(data, getId)
    ensures ReportsMeaning(reports, period) == Image(data.Items, DescribeOwn(period))
  {
    MetadataRightIffInjective(data, reports, getId);
    AllDisjoint(data, reports, getId);
    ReportsAsOne(reports, period);
    SameItems(data, reports, getId);
  }

  lemma AllDisjoint(data: map<StackTrace, nat>, reports: seq<Report>, getId: Metadata -> nat)
    requires DistinctIds(reports, getId)
    requires forall i | 0 <= i < |reports| :: HoldsOnly(data, reports[i], getId)
    ensures forall i, j | 0 <= i < j < |reports| :: reports[i].data.Keys !! reports[j].data.Keys
  {
    forall i, j | 0 <= i < j < |reports| ensures reports[i].data.Keys !! reports[j].data.Keys {
      GroupingDisjoint(data, reports, getId, i, j);
    }
  }

  lemma SameItems(data: map<StackTrace, nat>, reports: seq<Report>, getId: Metadata -> nat)
    requires IsGrouping(data, reports, getId)
    ensures AllItems(reports) == data.Items
  {
    forall item ensures item in AllItems(reports) <==> item in data.Items {
      AllItemsIn(reports, item);
      if item in AllItems(reports) {
        var i :| 0 <= i < |reports| && item in reports[i].data.Items;
        assert HoldsOnly(data, reports[i], getId);
      }
      if item in data.Items {
        assert SomewhereIn(item.0, reports);
        var i :| 0 <= i < |reports| && item.0 in reports[i].data;
        assert HoldsOnly(data, reports[i], getId) && item in reports[i].data.Items;
      }
    }
  }

  /**
   `encode_reports`: the profile of a session's reports begins with its window and lasts as
   long, in nanoseconds as 64 bits hold them.
   */
  method EncodeReports(reports: seq<Report>, sampleRate: nat, from: nat, until: nat) returns (p: Profile)
    requires sampleRate != 0 && from <= until
    ensures Resolve(p).Some? && multiset(Resolve(p).value) == ReportsMeaning(reports, 1_000_000_000 / sampleRate)
    ensures p.timeNanos == I64.Wrap(from * 1_000_000_000) && p.durationNanos == I64.Wrap((until - from) * 1_000_000_000)
    ensures p.period == 1_000_000_000 / sampleRate
  {
    p := Encode(reports, sampleRate, from * 1_000_000_000, (until - from) * 1_000_000_000);
  }
}
