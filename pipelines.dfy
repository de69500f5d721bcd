/**
 * The pipelines summary view: the AND-ed record filter, the open and won counters, the
 * stage and location maps and the per-location segments.
 */
module Pipelines {
  import opened Options
  import opened Sequences
  import opened Grouping
  import opened Segmenter
  import opened Text
  import opened Dates

  /**
   * The fields of a pipeline record the summary and the table read. Each timestamp is
   * `None` when the record holds no date (null or empty) and `Some(d)` with `d` the `Date`
   * made from it.
   */
  datatype Pipeline = Pipeline(
    status: Option<string>,
    pipelineStage: Option<string>,
    locationName: Option<string>,
    dateCreated: Option<Instant>,
    createdAt: Option<Instant>)

  datatype PipelineFilters = PipelineFilters(
    location: string, stage: string, status: string, startDate: string, endDate: string)

  function Location(p: Pipeline): Option<string> { p.locationName }
  function Stage(p: Pipeline): Option<string> { p.pipelineStage }
  function Status(p: Pipeline): Option<string> { p.status }

  // ---------------------------------------------------------------------------------------
  // The filter

  /**
   * The callback of `pipelines.filter(...)`: each non-empty criterion must hold; the status
   * criterion is compared as written, without lower-casing. The dates are compared with
   * `new Date(filterDate)`, the instant the filter string denotes.
   */
  predicate Matches(p: Pipeline, f: PipelineFilters) {
    (f.location == "" || p.locationName == Some(f.location))
    && (f.stage == "" || p.pipelineStage == Some(f.stage))
    && (f.status == "" || p.status == Some(f.status))
    && !(f.startDate != "" && p.dateCreated.Some? && Before(p.dateCreated.value, ParseIsoDate(f.startDate)))
    && !(f.endDate != "" && p.dateCreated.Some? && Before(ParseIsoDate(f.endDate), p.dateCreated.value))
  }

  /** `filteredPipelines`. */
  function FilterPipelines(ps: seq<Pipeline>, f: PipelineFilters): seq<Pipeline> {
    Filter(ps, p => Matches(p, f))
  }

  /**
   * Every kept record satisfies each non-empty exact criterion, and every record is kept or
   * dropped according to `Matches`; the result keeps the order of `ps`.
   */
  lemma FilterSound(ps: seq<Pipeline>, f: PipelineFilters)
    ensures var kept := FilterPipelines(ps, f);
      Subseq(kept, ps)
      && (forall i :: 0 <= i < |ps| ==> (ps[i] in kept <==> Matches(ps[i], f)))
      && forall i :: 0 <= i < |kept| ==>
        (f.location != "" ==> kept[i].locationName == Some(f.location))
        && (f.stage != "" ==> kept[i].pipelineStage == Some(f.stage))
        && (f.status != "" ==> kept[i].status == Some(f.status))
  {
    var kept := FilterPipelines(ps, f);
    FilterSubseq(ps, p => Matches(p, f));
    forall i | 0 <= i < |kept| ensures Matches(kept[i], f) {
      assert kept[i] in kept;
    }
  }

  /** Empty criteria keep every record. */
  lemma EmptyFiltersKeepAll(ps: seq<Pipeline>)
    ensures FilterPipelines(ps, PipelineFilters("", "", "", "", "")) == ps
  {
  }

  /** A record without a creation date is never dropped by the date bounds. */
  lemma UndatedNeverDateExcluded(p: Pipeline, f: PipelineFilters)
    requires p.dateCreated.None?
    ensures Matches(p, f) <==> Matches(p, f.(startDate := "", endDate := ""))
  {
  }

  /**
   * The status criterion is case-sensitive while the counters are not: a record whose
   * status is `"Open"` is dropped by the criterion `"open"` and yet counts as open.
   */
  lemma StatusFilterIsCaseSensitive(p: Pipeline, f: PipelineFilters)
    requires p.status == Some("Open") && f.status == "open"
    ensures !Matches(p, f) && IsOpen(p)
  {
    assert Lower("Open") == "open";
  }

  // ---------------------------------------------------------------------------------------
  // Status counters

  /** `p.status?.toLowerCase() === status`. */
  predicate HasStatus(p: Pipeline, status: string) {
    p.status.Some? && Lower(p.status.value) == status
  }

  predicate IsOpen(p: Pipeline) { HasStatus(p, "open") }
  predicate IsWon(p: Pipeline) { HasStatus(p, "won") }

  /** `pipelinesByStatus`: only the open and won counters exist. */
  datatype StatusCounts = StatusCounts(open: nat, won: nat)

  function StatusCountsOf(ps: seq<Pipeline>): StatusCounts {
    StatusCounts(|Filter(ps, IsOpen)|, |Filter(ps, IsWon)|)
  }

  /** No record is both open and won, so the two counters count at most every record. */
  lemma StatusCountsBound(ps: seq<Pipeline>)
    ensures var s := StatusCountsOf(ps); s.open + s.won <= |ps|
  {
    FilterDisjoint(ps, IsOpen, IsWon);
  }

  /** Two spellings of a status that differ only in case are counted alike. */
  lemma StatusIgnoresCase(p: Pipeline, q: Pipeline, status: string)
    requires p.status.Some? && q.status.Some?
    requires Lower(p.status.value) == Lower(q.status.value)
    ensures HasStatus(p, status) <==> HasStatus(q, status)
  {
  }

  // ---------------------------------------------------------------------------------------
  // Metrics

  datatype PipelineMetrics = PipelineMetrics(
    totalPipelines: nat,
    pipelinesByStage: map<string, nat>,
    pipelinesByStatus: StatusCounts,
    pipelinesByLocation: map<string, nat>)

  /** The metrics of a list of pipelines. */
  function MetricsOf(ps: seq<Pipeline>): PipelineMetrics {
    PipelineMetrics(
      |ps|,
      GroupCounts(MapSeq(ps, Stage)),
      StatusCountsOf(ps),
      GroupCounts(MapSeq(ps, Location)))
  }

  /** The global `metrics`: the counters, then one `forEach` per map. */
  method ComputeMetrics(ps: seq<Pipeline>) returns (m: PipelineMetrics)
    ensures m == MetricsOf(ps)
  {
    m := PipelineMetrics(|ps|, map[], StatusCountsOf(ps), map[]);
    var byStage := CountByKey(ps, Stage);
    m := m.(pipelinesByStage := byStage);
    var byLocation := CountByKey(ps, Location);
    m := m.(pipelinesByLocation := byLocation);
  }

  /** A segment's metrics: the counters, then a single `forEach` filling both maps. */
  method ComputeSegmentMetrics(ps: seq<Pipeline>) returns (m: PipelineMetrics)
    ensures m == MetricsOf(ps)
  {
    m := PipelineMetrics(|ps|, map[], StatusCountsOf(ps), map[]);
    for i := 0 to |ps|
      invariant m.totalPipelines == |ps| && m.pipelinesByStatus == StatusCountsOf(ps)
      invariant m.pipelinesByStage == GroupCounts(MapSeq(ps[..i], Stage))
      invariant m.pipelinesByLocation == GroupCounts(MapSeq(ps[..i], Location))
    {
      var p := ps[i];
      PrefixSnoc(ps, i);
      GroupCountsRowsSnoc(ps[..i], p, Stage);
      GroupCountsRowsSnoc(ps[..i], p, Location);
      m := m.(pipelinesByStage := Bump(m.pipelinesByStage, Stage(p)),
              pipelinesByLocation := Bump(m.pipelinesByLocation, Location(p)));
    }
    assert ps[..|ps|] == ps;
  }

  /**
   * Both maps have a key exactly when some record carries that truthy value, count those
   * records, and sum (over the distinct values) to the records carrying a value.
   */
  lemma GroupMapsLaws(ps: seq<Pipeline>)
    ensures var m := MetricsOf(ps);
      (forall k :: k in m.pipelinesByStage <==> k != "" && exists i :: 0 <= i < |ps| && ps[i].pipelineStage == Some(k))
      && (forall k :: k in m.pipelinesByLocation <==> k != "" && exists i :: 0 <= i < |ps| && ps[i].locationName == Some(k))
      && (forall k :: k in m.pipelinesByStage ==> m.pipelinesByStage[k] == |WithValue(ps, Stage, k)| >= 1)
      && (forall k :: k in m.pipelinesByLocation ==> m.pipelinesByLocation[k] == |WithValue(ps, Location, k)| >= 1)
      && SumOver(m.pipelinesByStage, DistinctValues(ps, Stage)) == |Located(ps, Stage)| <= |ps|
      && SumOver(m.pipelinesByLocation, DistinctValues(ps, Location)) == |Located(ps, Location)| <= |ps|
  {
    GroupCountsOfRows(ps, Stage);
    GroupCountsOfRows(ps, Location);
  }

  // ---------------------------------------------------------------------------------------
  // Segmenting by location

  datatype LocationMetrics = LocationMetrics(location: string, metrics: PipelineMetrics)

  /** `uniqueLocations`, `uniqueStages`, `uniqueStatuses`: from all records. */
  function UniqueLocations(ps: seq<Pipeline>): (r: seq<string>)
    ensures NoDuplicates(r)
    ensures forall k :: k in r <==> k != "" && exists i :: 0 <= i < |ps| && Location(ps[i]) == Some(k)
    ensures InFirstSeenOrder(ps, Location, r)
  {
    DistinctValuesFirstSeen(ps, Location);
    DistinctValues(ps, Location)
  }

  function UniqueStages(ps: seq<Pipeline>): (r: seq<string>)
    ensures NoDuplicates(r)
    ensures forall k :: k in r <==> k != "" && exists i :: 0 <= i < |ps| && Stage(ps[i]) == Some(k)
    ensures InFirstSeenOrder(ps, Stage, r)
  {
    DistinctValuesFirstSeen(ps, Stage);
    DistinctValues(ps, Stage)
  }

  function UniqueStatuses(ps: seq<Pipeline>): (r: seq<string>)
    ensures NoDuplicates(r)
    ensures forall k :: k in r <==> k != "" && exists i :: 0 <= i < |ps| && Status(ps[i]) == Some(k)
    ensures InFirstSeenOrder(ps, Status, r)
  {
    DistinctValuesFirstSeen(ps, Status);
    DistinctValues(ps, Status)
  }


  /** Statuses are listed as written: two spellings of one status are two entries. */
  lemma StatusesKeepSpelling(ps: seq<Pipeline>)
    requires |ps| == 2 && ps[0].status == Some("Open") && ps[1].status == Some("open")
    ensures "Open" in UniqueStatuses(ps) && "open" in UniqueStatuses(ps)
  {
    assert Status(ps[0]) == Some("Open");
    assert Status(ps[1]) == Some("open");
  }

  /** `locationMetrics`: one entry per segment, with the metrics of its records. */
  function LocationMetricsOf(all: seq<Pipeline>, filtered: seq<Pipeline>, selected: string)
    : (r: seq<LocationMetrics>)
    ensures selected != "" ==> |r| <= 1 && (|r| == 1 <==> selected in UniqueLocations(all))
    ensures selected != "" ==> forall i :: 0 <= i < |r| ==> r[i].location == selected
    ensures selected == "" ==> |r| == |UniqueLocations(all)|
    ensures selected == "" ==> forall i :: 0 <= i < |r| ==> r[i].location == UniqueLocations(all)[i]
    ensures forall i :: 0 <= i < |r| ==> r[i].metrics == MetricsOf(WithValue(filtered, Location, r[i].location))
  {
    var segs := Segments(all, filtered, selected, Location);
    assert selected != "" ==> (Some(selected) in MapSeq(all, Location) <==> selected in UniqueLocations(all));
    MapSeq(segs, SegmentEntry)
  }

  /** The `.map` callback: a segment's location and the metrics of its records. */
  function SegmentEntry(seg: Segment<Pipeline>): LocationMetrics {
    LocationMetrics(seg.location, MetricsOf(seg.rows))
  }

  method ComputeLocationMetrics(all: seq<Pipeline>, filtered: seq<Pipeline>, selected: string)
    returns (r: seq<LocationMetrics>)
    ensures r == LocationMetricsOf(all, filtered, selected)
  {
    var segs := Segments(all, filtered, selected, Location);
    r := ComputeSegmentEntries(segs);
  }

  /** The `.map` callback applied to each segment in turn. */
  method ComputeSegmentEntries(segs: seq<Segment<Pipeline>>) returns (r: seq<LocationMetrics>)
    ensures r == MapSeq(segs, SegmentEntry)
  {
    r := [];
    for i := 0 to |segs|
      invariant r == MapSeq(segs[..i], SegmentEntry)
    {
      var m := ComputeSegmentMetrics(segs[i].rows);
      PrefixSnoc(segs, i);
      MapSeqSnoc(segs[..i], segs[i], SegmentEntry);
      r := r + [LocationMetrics(segs[i].location, m)];
    }
    assert segs[..|segs|] == segs;
  }

  /**
   * In each segment the location map has at most one key, the segment's own location, under
   * which it counts every record of the segment; the status counts stay within the total.
   */
  lemma SegmentShape(all: seq<Pipeline>, filtered: seq<Pipeline>, selected: string)
    ensures var r := LocationMetricsOf(all, filtered, selected);
      forall i :: 0 <= i < |r| ==>
        var m := r[i].metrics;
        m.pipelinesByLocation == (if m.totalPipelines == 0 then map[] else map[r[i].location := m.totalPipelines])
        && m.pipelinesByStatus.open + m.pipelinesByStatus.won <= m.totalPipelines
  {
    var r := LocationMetricsOf(all, filtered, selected);
    forall i | 0 <= i < |r|
      ensures var m := r[i].metrics;
        m.pipelinesByLocation == (if m.totalPipelines == 0 then map[] else map[r[i].location := m.totalPipelines])
        && m.pipelinesByStatus.open + m.pipelinesByStatus.won <= m.totalPipelines
    {
      RowsAtLocationShape(filtered, r[i].location);
    }
  }

  /** The metrics of the records at one location, as each segment computes them. */
  lemma RowsAtLocationShape(filtered: seq<Pipeline>, loc: string)
    requires loc != ""
    ensures var m := MetricsOf(WithValue(filtered, Location, loc));
      m.pipelinesByLocation == (if m.totalPipelines == 0 then map[] else map[loc := m.totalPipelines])
      && m.pipelinesByStatus.open + m.pipelinesByStatus.won <= m.totalPipelines
  {
    var rows := WithValue(filtered, Location, loc);
    GroupCountsSingleKey(MapSeq(rows, Location), loc);
    StatusCountsBound(rows);
  }

  function SegmentTotal(r: seq<LocationMetrics>): int {
    SumBy(r, (l: LocationMetrics) => l.metrics.totalPipelines as int)
  }

  /** The segment totals are the numbers of rows of the segments. */
  lemma SegmentTotalIsRows(all: seq<Pipeline>, filtered: seq<Pipeline>, selected: string)
    ensures SegmentTotal(LocationMetricsOf(all, filtered, selected)) == TotalRows(Segments(all, filtered, selected, Location))
  {
    var segs := Segments(all, filtered, selected, Location);
    var r := LocationMetricsOf(all, filtered, selected);
    forall i | 0 <= i < |r| ensures r[i].metrics.totalPipelines == |segs[i].rows| {
      assert r[i].location == segs[i].location;
    }
    SumByPointwise(r, (l: LocationMetrics) => l.metrics.totalPipelines as int, segs,
                   (s: Segment<Pipeline>) => |s.rows|);
  }

  /** With a location selected, every kept record is a loaded record at that location. */
  lemma KeptAtSelectedLocation(all: seq<Pipeline>, f: PipelineFilters)
    requires f.location != ""
    ensures var filtered := FilterPipelines(all, f);
      forall i :: 0 <= i < |filtered| ==> filtered[i] in all && Location(filtered[i]) == Some(f.location)
  {
    var filtered := FilterPipelines(all, f);
    forall i | 0 <= i < |filtered| ensures filtered[i] in all && Location(filtered[i]) == Some(f.location) {
      assert filtered[i] in filtered;
    }
  }

  /**
   * With a location selected the result is empty when no record has that location and one
   * segment otherwise; the segment holds every filtered record.
   */
  lemma SelectedSegment(all: seq<Pipeline>, f: PipelineFilters)
    requires f.location != ""
    ensures var filtered := FilterPipelines(all, f);
      var r := LocationMetricsOf(all, filtered, f.location);
      SegmentTotal(r) == MetricsOf(filtered).totalPipelines
      && (|r| == 1 <==> exists i :: 0 <= i < |all| && all[i].locationName == Some(f.location))
      && (|r| == 1 ==> r[0].metrics == MetricsOf(filtered))
  {
    var filtered := FilterPipelines(all, f);
    KeptAtSelectedLocation(all, f);
    SegmentsSelected(all, filtered, f.location, Location);
    SegmentTotalIsRows(all, filtered, f.location);
    assert (exists i :: 0 <= i < |all| && all[i].locationName == Some(f.location))
      <==> f.location in UniqueLocations(all) by {
      forall i | 0 <= i < |all| ensures Location(all[i]) == all[i].locationName { }
    }
    if filtered != [] {
      assert WithValue(filtered, Location, f.location) == filtered;
    }
  }

  /** Without a location selected, the segments share out the located filtered records. */
  lemma SegmentTotals(all: seq<Pipeline>, f: PipelineFilters)
    requires f.location == ""
    ensures var filtered := FilterPipelines(all, f);
      var r := LocationMetricsOf(all, filtered, "");
      |r| == |UniqueLocations(all)| && SegmentTotal(r) == |Located(filtered, Location)|
  {
    var filtered := FilterPipelines(all, f);
    forall i | 0 <= i < |filtered| ensures filtered[i] in all {
      assert filtered[i] in filtered;
    }
    SegmentsPartition(all, filtered, Location);
    SegmentTotalIsRows(all, filtered, "");
  }
}
