/**
 * The opportunities summary view: the AND-ed record filter, the case-insensitive status
 * counters, the four group maps and the per-location segments.
 */
module Opportunities {
  import opened Options
  import opened Sequences
  import opened Grouping
  import opened Segmenter
  import opened Text
  import opened Dates

  /**
   * The fields of an opportunity record the view reads. `dateCreated` is `None` when the
   * record holds no date (null or empty) and `Some(d)` with `d` the `Date` made from it.
   */
  datatype Opportunity = Opportunity(
    opportunitySt: Option<string>,
    dateCreated: Option<Instant>,
    tipoCampana: Option<string>,
    pipelineName: Option<string>,
    pipelineStage: Option<string>,
    location: Option<string>)

  datatype OpportunityFilters = OpportunityFilters(
    location: string, stage: string, campaignType: string, startDate: string, endDate: string)

  function Location(o: Opportunity): Option<string> { o.location }
  function Stage(o: Opportunity): Option<string> { o.pipelineStage }
  function PipelineName(o: Opportunity): Option<string> { o.pipelineName }
  function CampaignType(o: Opportunity): Option<string> { o.tipoCampana }

  // ---------------------------------------------------------------------------------------
  // The filter

  /**
   * The callback of `opportunities.filter(...)`: each non-empty criterion must hold. The
   * dates are compared with `new Date(filterDate)`, the instant the filter string denotes.
   */
  predicate Matches(o: Opportunity, f: OpportunityFilters) {
    (f.location == "" || o.location == Some(f.location))
    && (f.stage == "" || o.pipelineStage == Some(f.stage))
    && (f.campaignType == "" || o.tipoCampana == Some(f.campaignType))
    && !(f.startDate != "" && o.dateCreated.Some? && Before(o.dateCreated.value, ParseIsoDate(f.startDate)))
    && !(f.endDate != "" && o.dateCreated.Some? && Before(ParseIsoDate(f.endDate), o.dateCreated.value))
  }

  /** `filteredOpportunities`. */
  function FilterOpportunities(os: seq<Opportunity>, f: OpportunityFilters): seq<Opportunity> {
    Filter(os, o => Matches(o, f))
  }

  /**
   * Every kept record satisfies each non-empty exact criterion, and every record is kept or
   * dropped according to `Matches`; the result keeps the order of `os`.
   */
  lemma FilterSound(os: seq<Opportunity>, f: OpportunityFilters)
    ensures var kept := FilterOpportunities(os, f);
      Subseq(kept, os)
      && (forall i :: 0 <= i < |os| ==> (os[i] in kept <==> Matches(os[i], f)))
      && forall i :: 0 <= i < |kept| ==>
        (f.location != "" ==> kept[i].location == Some(f.location))
        && (f.stage != "" ==> kept[i].pipelineStage == Some(f.stage))
        && (f.campaignType != "" ==> kept[i].tipoCampana == Some(f.campaignType))
  {
    var kept := FilterOpportunities(os, f);
    FilterSubseq(os, o => Matches(o, f));
    forall i | 0 <= i < |kept| ensures Matches(kept[i], f) {
      assert kept[i] in kept;
    }
  }

  /** Empty criteria keep every record. */
  lemma EmptyFiltersKeepAll(os: seq<Opportunity>)
    ensures FilterOpportunities(os, OpportunityFilters("", "", "", "", "")) == os
  {
  }

  /** A record without a creation date is never dropped by the date bounds. */
  lemma UndatedNeverDateExcluded(o: Opportunity, f: OpportunityFilters)
    requires o.dateCreated.None?
    ensures Matches(o, f) <==> Matches(o, f.(startDate := "", endDate := ""))
  {
  }

  /**
   * The start bound is UTC midnight of the start date: a dated record passes it iff it was
   * created at or after that instant.
   */
  lemma StartBoundIsInstant(o: Opportunity, f: OpportunityFilters, y: int, m: int, d: int, t: int)
    requires 0 <= y <= 9999 && ValidDate(y, m, d)
    requires f.startDate == FormatDate(y, m, d) && f.endDate == ""
    requires o.dateCreated == Some(At(t))
    ensures Matches(o, f) <==> Matches(o, f.(startDate := "")) && DayNumber(y, m, d) * MsPerDay <= t
  {
    ParseIsoDateFormatted(y, m, d);
  }

  /**
   * The end bound is UTC midnight of the end date, not the end of that day: a dated record
   * passes it iff it was created at or before that instant.
   */
  lemma EndBoundIsInstant(o: Opportunity, f: OpportunityFilters, y: int, m: int, d: int, t: int)
    requires 0 <= y <= 9999 && ValidDate(y, m, d)
    requires f.endDate == FormatDate(y, m, d) && f.startDate == ""
    requires o.dateCreated == Some(At(t))
    ensures Matches(o, f) <==> Matches(o, f.(endDate := "")) && t <= DayNumber(y, m, d) * MsPerDay
  {
    ParseIsoDateFormatted(y, m, d);
  }

  /** Hence a record created at noon UTC on the end date itself is dropped. */
  lemma NoonOnEndDateDropped(o: Opportunity, f: OpportunityFilters, y: int, m: int, d: int)
    requires 0 <= y <= 9999 && ValidDate(y, m, d)
    requires f.endDate == FormatDate(y, m, d) && f.startDate == ""
    requires o.dateCreated == Some(At(DayNumber(y, m, d) * MsPerDay + MsPerDay / 2))
    ensures !Matches(o, f)
  {
    EndBoundIsInstant(o, f, y, m, d, DayNumber(y, m, d) * MsPerDay + MsPerDay / 2);
  }

  // ---------------------------------------------------------------------------------------
  // Status counters

  /** `opp.opportunity_st?.toLowerCase() === status`. */
  predicate HasStatus(o: Opportunity, status: string) {
    o.opportunitySt.Some? && Lower(o.opportunitySt.value) == status
  }

  predicate IsOpen(o: Opportunity) { HasStatus(o, "open") }
  predicate IsAbandoned(o: Opportunity) { HasStatus(o, "abandoned") }
  predicate IsWon(o: Opportunity) { HasStatus(o, "won") }

  /** `opportunitiesByStatus`. */
  datatype StatusCounts = StatusCounts(open: nat, abandoned: nat, won: nat)

  function StatusCountsOf(os: seq<Opportunity>): StatusCounts {
    StatusCounts(|Filter(os, IsOpen)|, |Filter(os, IsAbandoned)|, |Filter(os, IsWon)|)
  }

  /** A record has at most one of the three statuses, so they count at most every record. */
  lemma StatusCountsBound(os: seq<Opportunity>)
    ensures var s := StatusCountsOf(os); s.open + s.abandoned + s.won <= |os|
  {
    FilterDisjoint3(os, IsOpen, IsAbandoned, IsWon);
  }

  /** Two spellings of a status that differ only in case are counted alike. */
  lemma StatusIgnoresCase(o: Opportunity, p: Opportunity, status: string)
    requires o.opportunitySt.Some? && p.opportunitySt.Some?
    requires Lower(o.opportunitySt.value) == Lower(p.opportunitySt.value)
    ensures HasStatus(o, status) <==> HasStatus(p, status)
  {
  }

  /** `"Open"`, `"OPEN"`, `"abandoned"`, `"Won"` count as two open, one abandoned and one won. */
  lemma StatusExample()
    ensures var os := [
        Opportunity(Some("Open"), None, None, None, None, None),
        Opportunity(Some("OPEN"), None, None, None, None, None),
        Opportunity(Some("abandoned"), None, None, None, None, None),
        Opportunity(Some("Won"), None, None, None, None, None)];
      StatusCountsOf(os) == StatusCounts(2, 1, 1)
  {
    var a := Opportunity(Some("Open"), None, None, None, None, None);
    var b := Opportunity(Some("OPEN"), None, None, None, None, None);
    var c := Opportunity(Some("abandoned"), None, None, None, None, None);
    var w := Opportunity(Some("Won"), None, None, None, None, None);
    StatusesOfExample(a, b, c, w);
    CountThree(a, b, c, w, IsOpen);
    CountThree(a, b, c, w, IsAbandoned);
    CountThree(a, b, c, w, IsWon);
  }

  lemma StatusesOfExample(a: Opportunity, b: Opportunity, c: Opportunity, w: Opportunity)
    requires a.opportunitySt == Some("Open") && b.opportunitySt == Some("OPEN")
    requires c.opportunitySt == Some("abandoned") && w.opportunitySt == Some("Won")
    ensures IsOpen(a) && IsOpen(b) && !IsOpen(c) && !IsOpen(w)
    ensures !IsAbandoned(a) && !IsAbandoned(b) && IsAbandoned(c) && !IsAbandoned(w)
    ensures !IsWon(a) && !IsWon(b) && !IsWon(c) && IsWon(w)
  {
    assert Lower("Open") == "open" && Lower("OPEN") == "open";
    assert Lower("abandoned") == "abandoned" && Lower("Won") == "won";
  }

  /** Filtering four records one at a time. */
  lemma CountThree(a: Opportunity, b: Opportunity, c: Opportunity, w: Opportunity, p: Opportunity -> bool)
    ensures |Filter([a, b, c, w], p)| ==
      (if p(a) then 1 else 0) + (if p(b) then 1 else 0) + (if p(c) then 1 else 0) + (if p(w) then 1 else 0)
  {
    assert [] + [a] == [a] && [a] + [b] == [a, b] && [a, b] + [c] == [a, b, c] && [a, b, c] + [w] == [a, b, c, w];
    FilterSnoc([], a, p);
    FilterSnoc([a], b, p);
    FilterSnoc([a, b], c, p);
    FilterSnoc([a, b, c], w, p);
  }

  // ---------------------------------------------------------------------------------------
  // Metrics

  datatype OpportunityMetrics = OpportunityMetrics(
    totalOpportunities: nat,
    opportunitiesByStage: map<string, nat>,
    opportunitiesByPipeline: map<string, nat>,
    opportunitiesByType: map<string, nat>,
    opportunitiesByLocation: map<string, nat>,
    opportunitiesByStatus: StatusCounts)

  /** The metrics of a list of opportunities. */
  function MetricsOf(os: seq<Opportunity>): OpportunityMetrics {
    OpportunityMetrics(
      |os|,
      GroupCounts(MapSeq(os, Stage)),
      GroupCounts(MapSeq(os, PipelineName)),
      GroupCounts(MapSeq(os, CampaignType)),
      GroupCounts(MapSeq(os, Location)),
      StatusCountsOf(os))
  }

  /** The global `metrics`: the counters, then one `forEach` per group map. */
  method ComputeMetrics(os: seq<Opportunity>) returns (m: OpportunityMetrics)
    ensures m == MetricsOf(os)
  {
    m := OpportunityMetrics(|os|, map[], map[], map[], map[], StatusCountsOf(os));
    var byStage := CountByKey(os, Stage);
    var byPipeline := CountByKey(os, PipelineName);
    var byType := CountByKey(os, CampaignType);
    var byLocation := CountByKey(os, Location);
    m := m.(opportunitiesByStage := byStage, opportunitiesByPipeline := byPipeline,
            opportunitiesByType := byType, opportunitiesByLocation := byLocation);
  }

  /** A segment's metrics: the counters, then a single `forEach` filling all four maps. */
  method ComputeSegmentMetrics(os: seq<Opportunity>) returns (m: OpportunityMetrics)
    ensures m == MetricsOf(os)
  {
    m := OpportunityMetrics(|os|, map[], map[], map[], map[], StatusCountsOf(os));
    for i := 0 to |os|
      invariant m.totalOpportunities == |os| && m.opportunitiesByStatus == StatusCountsOf(os)
      invariant m.opportunitiesByStage == GroupCounts(MapSeq(os[..i], Stage))
      invariant m.opportunitiesByPipeline == GroupCounts(MapSeq(os[..i], PipelineName))
      invariant m.opportunitiesByType == GroupCounts(MapSeq(os[..i], CampaignType))
      invariant m.opportunitiesByLocation == GroupCounts(MapSeq(os[..i], Location))
    {
      var o := os[i];
      PrefixSnoc(os, i);
      GroupCountsRowsSnoc(os[..i], o, Stage);
      GroupCountsRowsSnoc(os[..i], o, PipelineName);
      GroupCountsRowsSnoc(os[..i], o, CampaignType);
      GroupCountsRowsSnoc(os[..i], o, Location);
      m := m.(opportunitiesByStage := Bump(m.opportunitiesByStage, Stage(o)),
              opportunitiesByPipeline := Bump(m.opportunitiesByPipeline, PipelineName(o)),
              opportunitiesByType := Bump(m.opportunitiesByType, CampaignType(o)),
              opportunitiesByLocation := Bump(m.opportunitiesByLocation, Location(o)));
    }
    assert os[..|os|] == os;
  }

  /**
   * Each group map has a key exactly when some record carries that truthy value, counts
   * those records, and sums (over the distinct values) to the records carrying a value.
   */
  lemma GroupMapsLaws(os: seq<Opportunity>)
    ensures var m := MetricsOf(os);
      (forall k :: k in m.opportunitiesByStage <==> k != "" && exists i :: 0 <= i < |os| && Stage(os[i]) == Some(k))
      && (forall k :: k in m.opportunitiesByPipeline <==> k != "" && exists i :: 0 <= i < |os| && PipelineName(os[i]) == Some(k))
      && (forall k :: k in m.opportunitiesByType <==> k != "" && exists i :: 0 <= i < |os| && CampaignType(os[i]) == Some(k))
      && (forall k :: k in m.opportunitiesByLocation <==> k != "" && exists i :: 0 <= i < |os| && Location(os[i]) == Some(k))
      && SumOver(m.opportunitiesByStage, DistinctValues(os, Stage)) == |Located(os, Stage)| <= |os|
      && SumOver(m.opportunitiesByPipeline, DistinctValues(os, PipelineName)) == |Located(os, PipelineName)| <= |os|
      && SumOver(m.opportunitiesByType, DistinctValues(os, CampaignType)) == |Located(os, CampaignType)| <= |os|
      && SumOver(m.opportunitiesByLocation, DistinctValues(os, Location)) == |Located(os, Location)| <= |os|
  {
    GroupKeysAndSum(os, Stage);
    GroupKeysAndSum(os, PipelineName);
    GroupKeysAndSum(os, CampaignType);
    GroupKeysAndSum(os, Location);
  }

  /** The count under a stage is the number of records at that stage. */
  lemma StageCounts(os: seq<Opportunity>, k: string)
    requires k in MetricsOf(os).opportunitiesByStage
    ensures MetricsOf(os).opportunitiesByStage[k] == |WithValue(os, Stage, k)| >= 1
  {
    GroupCountsOfRows(os, Stage);
  }

  /** Every record has a stage exactly when the stage counts add up to the total. */
  lemma StageCountsComplete(os: seq<Opportunity>)
    ensures SumOver(MetricsOf(os).opportunitiesByStage, DistinctValues(os, Stage)) == |os|
      <==> forall i :: 0 <= i < |os| ==> Present(os[i].pipelineStage)
  {
    GroupCountsOfRows(os, Stage);
  }

  // ---------------------------------------------------------------------------------------
  // Segmenting by location

  datatype LocationMetrics = LocationMetrics(location: string, metrics: OpportunityMetrics)

  /** `uniqueLocations`, `uniqueStages`, `uniqueTypes`, `uniquePipelines`: from all records. */
  function UniqueLocations(os: seq<Opportunity>): (r: seq<string>)
    ensures NoDuplicates(r)
    ensures forall k :: k in r <==> k != "" && exists i :: 0 <= i < |os| && Location(os[i]) == Some(k)
    ensures InFirstSeenOrder(os, Location, r)
  {
    DistinctValuesFirstSeen(os, Location);
    DistinctValues(os, Location)
  }

  function UniqueStages(os: seq<Opportunity>): (r: seq<string>)
    ensures NoDuplicates(r)
    ensures forall k :: k in r <==> k != "" && exists i :: 0 <= i < |os| && Stage(os[i]) == Some(k)
    ensures InFirstSeenOrder(os, Stage, r)
  {
    DistinctValuesFirstSeen(os, Stage);
    DistinctValues(os, Stage)
  }

  function UniqueTypes(os: seq<Opportunity>): (r: seq<string>)
    ensures NoDuplicates(r)
    ensures forall k :: k in r <==> k != "" && exists i :: 0 <= i < |os| && CampaignType(os[i]) == Some(k)
    ensures InFirstSeenOrder(os, CampaignType, r)
  {
    DistinctValuesFirstSeen(os, CampaignType);
    DistinctValues(os, CampaignType)
  }

  function UniquePipelines(os: seq<Opportunity>): (r: seq<string>)
    ensures NoDuplicates(r)
    ensures forall k :: k in r <==> k != "" && exists i :: 0 <= i < |os| && PipelineName(os[i]) == Some(k)
    ensures InFirstSeenOrder(os, PipelineName, r)
  {
    DistinctValuesFirstSeen(os, PipelineName);
    DistinctValues(os, PipelineName)
  }

  /** `locationMetrics`: one entry per segment, with the metrics of its records. */
  function LocationMetricsOf(all: seq<Opportunity>, filtered: seq<Opportunity>, selected: string)
    : (r: seq<LocationMetrics>)
    ensures selected != "" ==> |r| <= 1 && (|r| == 1 <==> selected in UniqueLocations(all))
    ensures selected != "" ==> forall i :: 0 <= i < |r| ==> r[i].location == selected
    ensures selected == "" ==> |r| == |UniqueLocations(all)|
    ensures selected == "" ==> forall i :: 0 <= i < |r| ==> r[i].location == UniqueLocations(all)[i]
    ensures forall i :: 0 <= i < |r| ==> r[i].metrics == MetricsOf(WithValue(filtered, Location, r[i].location))
  {
    var segs := Segments(all, filtered, selected, Location);
    assert selected != "" ==> (Some(selected) in MapSeq(all, Location) <==> selected in UniqueLocations(all));
    MapSeq(segs, SegmentEntry)
  }

  /** The `.map` callback: a segment's location and the metrics of its records. */
  function SegmentEntry(seg: Segment<Opportunity>): LocationMetrics {
    LocationMetrics(seg.location, MetricsOf(seg.rows))
  }

  method ComputeLocationMetrics(all: seq<Opportunity>, filtered: seq<Opportunity>, selected: string)
    returns (r: seq<LocationMetrics>)
    ensures r == LocationMetricsOf(all, filtered, selected)
  {
    var segs := Segments(all, filtered, selected, Location);
    r := ComputeSegmentEntries(segs);
  }

  /** The `.map` callback applied to each segment in turn. */
  method ComputeSegmentEntries(segs: seq<Segment<Opportunity>>) returns (r: seq<LocationMetrics>)
    ensures r == MapSeq(segs, SegmentEntry)
  {
    r := [];
    for i := 0 to |segs|
      invariant r == MapSeq(segs[..i], SegmentEntry)
    {
      var m := ComputeSegmentMetrics(segs[i].rows);
      PrefixSnoc(segs, i);
      MapSeqSnoc(segs[..i], segs[i], SegmentEntry);
      r := r + [LocationMetrics(segs[i].location, m)];
    }
    assert segs[..|segs|] == segs;
  }

  /**
   * In each segment the location map is empty (no records) or maps the segment's own
   * location to its total, and the status counts stay within the total.
   */
  lemma SegmentShape(all: seq<Opportunity>, filtered: seq<Opportunity>, selected: string)
    ensures var r := LocationMetricsOf(all, filtered, selected);
      forall i :: 0 <= i < |r| ==>
        var m := r[i].metrics;
        m.opportunitiesByLocation == (if m.totalOpportunities == 0 then map[] else map[r[i].location := m.totalOpportunities])
        && m.opportunitiesByStatus.open + m.opportunitiesByStatus.abandoned + m.opportunitiesByStatus.won <= m.totalOpportunities
  {
    var r := LocationMetricsOf(all, filtered, selected);
    forall i | 0 <= i < |r|
      ensures var m := r[i].metrics;
        m.opportunitiesByLocation == (if m.totalOpportunities == 0 then map[] else map[r[i].location := m.totalOpportunities])
        && m.opportunitiesByStatus.open + m.opportunitiesByStatus.abandoned + m.opportunitiesByStatus.won <= m.totalOpportunities
    {
      RowsAtLocationShape(filtered, r[i].location);
    }
  }

  /** The metrics of the records at one location, as each segment computes them. */
  lemma RowsAtLocationShape(filtered: seq<Opportunity>, loc: string)
    requires loc != ""
    ensures var m := MetricsOf(WithValue(filtered, Location, loc));
      m.opportunitiesByLocation == (if m.totalOpportunities == 0 then map[] else map[loc := m.totalOpportunities])
      && m.opportunitiesByStatus.open + m.opportunitiesByStatus.abandoned + m.opportunitiesByStatus.won <= m.totalOpportunities
  {
    var rows := WithValue(filtered, Location, loc);
    GroupCountsSingleKey(MapSeq(rows, Location), loc);
    StatusCountsBound(rows);
  }

  function SegmentTotal(r: seq<LocationMetrics>): int {
    SumBy(r, (l: LocationMetrics) => l.metrics.totalOpportunities as int)
  }

  /** The segment totals are the numbers of rows of the segments. */
  lemma SegmentTotalIsRows(all: seq<Opportunity>, filtered: seq<Opportunity>, selected: string)
    ensures SegmentTotal(LocationMetricsOf(all, filtered, selected)) == TotalRows(Segments(all, filtered, selected, Location))
  {
    var segs := Segments(all, filtered, selected, Location);
    var r := LocationMetricsOf(all, filtered, selected);
    forall i | 0 <= i < |r| ensures r[i].metrics.totalOpportunities == |segs[i].rows| {
      assert r[i].location == segs[i].location;
    }
    SumByPointwise(r, (l: LocationMetrics) => l.metrics.totalOpportunities as int, segs,
                   (s: Segment<Opportunity>) => |s.rows|);
  }

  /** With a location selected, every kept record is a loaded record at that location. */
  lemma KeptAtSelectedLocation(all: seq<Opportunity>, f: OpportunityFilters)
    requires f.location != ""
    ensures var filtered := FilterOpportunities(all, f);
      forall i :: 0 <= i < |filtered| ==> filtered[i] in all && Location(filtered[i]) == Some(f.location)
  {
    var filtered := FilterOpportunities(all, f);
    forall i | 0 <= i < |filtered| ensures filtered[i] in all && Location(filtered[i]) == Some(f.location) {
      assert filtered[i] in filtered;
    }
  }

  /**
   * With a location selected there is at most one segment; it has every filtered record,
   * so its total is the global total, and it exists as soon as some record was kept.
   */
  lemma SelectedSegment(all: seq<Opportunity>, f: OpportunityFilters)
    requires f.location != ""
    ensures var filtered := FilterOpportunities(all, f);
      var r := LocationMetricsOf(all, filtered, f.location);
      SegmentTotal(r) == MetricsOf(filtered).totalOpportunities
      && (filtered != [] ==> |r| == 1 && r[0].metrics == MetricsOf(filtered))
  {
    var filtered := FilterOpportunities(all, f);
    KeptAtSelectedLocation(all, f);
    SegmentsSelected(all, filtered, f.location, Location);
    SegmentTotalIsRows(all, filtered, f.location);
    if filtered != [] {
      assert WithValue(filtered, Location, f.location) == filtered;
    }
  }

  /** Without a location selected, the segments share out the located filtered records. */
  lemma SegmentTotals(all: seq<Opportunity>, f: OpportunityFilters)
    requires f.location == ""
    ensures var filtered := FilterOpportunities(all, f);
      SegmentTotal(LocationMetricsOf(all, filtered, "")) == |Located(filtered, Location)|
  {
    var filtered := FilterOpportunities(all, f);
    forall i | 0 <= i < |filtered| ensures filtered[i] in all {
      assert filtered[i] in filtered;
    }
    SegmentsPartition(all, filtered, Location);
    SegmentTotalIsRows(all, filtered, "");
  }
}
