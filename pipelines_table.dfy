/**
 * The pipelines table: its row filter, which tests the date range on `created_at` where
 * the summary view uses `date_created`, and the two lists of distinct values offered by
 * its selects.
 */
module PipelinesTable {
  import opened Options
  import opened Sequences
  import opened Grouping
  import opened Dates
  import opened Pipelines

  datatype TableFilters = TableFilters(location: string, stage: string, startDate: string, endDate: string)

  const NoFilters := TableFilters("", "", "", "")

  /** The callback of `data.filter(...)`: the bounds are tested on `created_at`. */
  predicate TableMatches(p: Pipeline, f: TableFilters) {
    (f.location == "" || p.locationName == Some(f.location))
    && (f.stage == "" || p.pipelineStage == Some(f.stage))
    && !(f.startDate != "" && p.createdAt.Some? && Before(p.createdAt.value, ParseIsoDate(f.startDate)))
    && !(f.endDate != "" && p.createdAt.Some? && Before(ParseIsoDate(f.endDate), p.createdAt.value))
  }

  /** `filteredData`. */
  function FilteredData(data: seq<Pipeline>, f: TableFilters): seq<Pipeline> {
    Filter(data, p => TableMatches(p, f))
  }

  /** The summary view's criteria with the same values and no status. */
  function AsSummaryFilters(f: TableFilters): PipelineFilters {
    PipelineFilters(f.location, f.stage, "", f.startDate, f.endDate)
  }

  /** The rows kept keep their order; with no criteria every row is kept. */
  lemma FilteredDataShape(data: seq<Pipeline>, f: TableFilters)
    ensures Subseq(FilteredData(data, f), data)
    ensures f == NoFilters ==> FilteredData(data, f) == data
  {
    FilterSubseq(data, p => TableMatches(p, f));
  }

  /** Every kept row has the location and the stage asked for. */
  lemma FilteredDataMembers(data: seq<Pipeline>, f: TableFilters)
    ensures forall i :: 0 <= i < |data| ==> (data[i] in FilteredData(data, f) <==> TableMatches(data[i], f))
    ensures forall i :: 0 <= i < |FilteredData(data, f)| ==>
      var p := FilteredData(data, f)[i];
      (f.location != "" ==> p.locationName == Some(f.location))
      && (f.stage != "" ==> p.pipelineStage == Some(f.stage))
  {
    var kept := FilteredData(data, f);
    forall i | 0 <= i < |kept| ensures TableMatches(kept[i], f) {
      assert kept[i] in kept;
    }
  }

  /** A record without `created_at` is never dropped by the date bounds. */
  lemma UndatedNeverDateExcluded(p: Pipeline, f: TableFilters)
    requires p.createdAt.None?
    ensures TableMatches(p, f) <==> TableMatches(p, f.(startDate := "", endDate := ""))
  {
  }

  /**
   * The table and the summary agree on records whose two timestamps coincide; on the
   * others they can disagree.
   */
  lemma AgreesWithSummaryWhenDatesCoincide(data: seq<Pipeline>, f: TableFilters)
    requires forall i :: 0 <= i < |data| ==> data[i].createdAt == data[i].dateCreated
    ensures FilteredData(data, f) == FilterPipelines(data, AsSummaryFilters(f))
  {
    FilterCongruent(data, p => TableMatches(p, f), p => Matches(p, AsSummaryFilters(f)));
  }

  /** A record created before the start date but dated within it: the two views disagree. */
  lemma CreatedAtDecides(p: Pipeline, f: TableFilters, y: int, m: int, d: int)
    requires 0 <= y <= 9999 && ValidDate(y, m, d)
    requires f == NoFilters.(startDate := FormatDate(y, m, d))
    requires p.createdAt == Some(At(DayNumber(y, m, d) * MsPerDay - 1))
    requires p.dateCreated == Some(At(DayNumber(y, m, d) * MsPerDay))
    ensures !TableMatches(p, f) && Matches(p, AsSummaryFilters(f))
  {
    ParseIsoDateFormatted(y, m, d);
  }

  // `uniqueLocations` and `uniqueStages` (PipelinesTable.tsx:34-42) are
  // `Pipelines.UniqueLocations` and `UniqueStages` of the table's rows.
}
