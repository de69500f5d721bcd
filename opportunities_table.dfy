/**
 * The opportunities table: its row filter, which is the summary view's, and the three
 * lists of distinct values offered by its selects.
 */
module OpportunitiesTable {
  import opened Options
  import opened Sequences
  import opened Grouping
  import opened Dates
  import opened Opportunities

  datatype TableFilters = TableFilters(
    location: string, stage: string, campaignType: string, startDate: string, endDate: string)

  const NoFilters := TableFilters("", "", "", "", "")

  /** The callback of `data.filter(...)` as the table writes it. */
  predicate TableMatches(o: Opportunity, f: TableFilters) {
    (f.location == "" || o.location == Some(f.location))
    && (f.stage == "" || o.pipelineStage == Some(f.stage))
    && (f.campaignType == "" || o.tipoCampana == Some(f.campaignType))
    && !(f.startDate != "" && o.dateCreated.Some? && Before(o.dateCreated.value, ParseIsoDate(f.startDate)))
    && !(f.endDate != "" && o.dateCreated.Some? && Before(ParseIsoDate(f.endDate), o.dateCreated.value))
  }

  /** The summary view's criteria with the same values. */
  function AsSummaryFilters(f: TableFilters): OpportunityFilters {
    OpportunityFilters(f.location, f.stage, f.campaignType, f.startDate, f.endDate)
  }

  /** `filteredData`. */
  function FilteredData(data: seq<Opportunity>, f: TableFilters): seq<Opportunity> {
    Filter(data, o => TableMatches(o, f))
  }

  /** For the same records and criteria the table keeps exactly the rows the summary keeps. */
  lemma SameRowsAsSummary(data: seq<Opportunity>, f: TableFilters)
    ensures FilteredData(data, f) == FilterOpportunities(data, AsSummaryFilters(f))
  {
    FilterCongruent(data, o => TableMatches(o, f), o => Matches(o, AsSummaryFilters(f)));
  }

  /** The rows kept keep their order; with no criteria every row is kept. */
  lemma FilteredDataShape(data: seq<Opportunity>, f: TableFilters)
    ensures Subseq(FilteredData(data, f), data)
    ensures f == NoFilters ==> FilteredData(data, f) == data
  {
    FilterSubseq(data, o => TableMatches(o, f));
  }

  /** A record without a creation date is never dropped by the date bounds. */
  lemma UndatedNeverDateExcluded(o: Opportunity, f: TableFilters)
    requires o.dateCreated.None?
    ensures TableMatches(o, f) <==> TableMatches(o, f.(startDate := "", endDate := ""))
  {
  }

  // `uniqueLocations`, `uniqueStages` and `uniqueTypes` (OpportunitiesTable.tsx:35-48) are
  // `Opportunities.UniqueLocations`, `UniqueStages` and `UniqueTypes` of the table's rows.
}
