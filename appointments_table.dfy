/**
 * The appointments table: the row filter over six criteria (two case-insensitive substring
 * tests, four exact matches) and the four lists of distinct values offered by its selects.
 */
module AppointmentsTable {
  import opened Options
  import opened Sequences
  import opened Grouping
  import opened Text

  /** The fields of an appointment the filter and the selects read; `None` is null. */
  datatype Appointment = Appointment(
    fullName: Option<string>,
    location: Option<string>,
    calendarTitle: Option<string>,
    calendarStatus: Option<string>,
    currentStage: Option<string>,
    tipoCampana: Option<string>)

  datatype AppointmentFilters = AppointmentFilters(
    fullName: string, location: string, calendarTitle: string,
    calendarStatus: string, currentStage: string, tipoCampana: string)

  const NoFilters := AppointmentFilters("", "", "", "", "", "")

  function Location(a: Appointment): Option<string> { a.location }
  function Status(a: Appointment): Option<string> { a.calendarStatus }
  function Stage(a: Appointment): Option<string> { a.currentStage }
  function CampaignType(a: Appointment): Option<string> { a.tipoCampana }

  /** `field?.toLowerCase().includes(query.toLowerCase())`: false for a null field. */
  predicate FieldContains(field: Option<string>, query: string) {
    field.Some? && ContainsIgnoringCase(field.value, query)
  }

  /** The callback of `data.filter(...)`: each non-empty criterion must hold. */
  predicate Matches(a: Appointment, f: AppointmentFilters) {
    (f.fullName == "" || FieldContains(a.fullName, f.fullName))
    && (f.location == "" || a.location == Some(f.location))
    && (f.calendarTitle == "" || FieldContains(a.calendarTitle, f.calendarTitle))
    && (f.calendarStatus == "" || a.calendarStatus == Some(f.calendarStatus))
    && (f.currentStage == "" || a.currentStage == Some(f.currentStage))
    && (f.tipoCampana == "" || a.tipoCampana == Some(f.tipoCampana))
  }

  /** `filteredData`. */
  function FilteredData(data: seq<Appointment>, f: AppointmentFilters): seq<Appointment> {
    Filter(data, a => Matches(a, f))
  }

  /** The rows kept keep their order; with no criteria every row is kept. */
  lemma FilteredDataShape(data: seq<Appointment>, f: AppointmentFilters)
    ensures Subseq(FilteredData(data, f), data)
    ensures f == NoFilters ==> FilteredData(data, f) == data
  {
    FilterSubseq(data, a => Matches(a, f));
  }

  /**
   * A row is kept iff it matches, and every kept row passes each non-empty criterion: the
   * name and title contain their queries ignoring case, the other four fields are equal.
   */
  lemma FilteredDataMembers(data: seq<Appointment>, f: AppointmentFilters)
    ensures forall i :: 0 <= i < |data| ==> (data[i] in FilteredData(data, f) <==> Matches(data[i], f))
    ensures forall i :: 0 <= i < |FilteredData(data, f)| ==>
      var a := FilteredData(data, f)[i];
      (f.fullName != "" ==> a.fullName.Some? && ContainsIgnoringCase(a.fullName.value, f.fullName))
      && (f.location != "" ==> a.location == Some(f.location))
      && (f.calendarTitle != "" ==> a.calendarTitle.Some? && ContainsIgnoringCase(a.calendarTitle.value, f.calendarTitle))
      && (f.calendarStatus != "" ==> a.calendarStatus == Some(f.calendarStatus))
      && (f.currentStage != "" ==> a.currentStage == Some(f.currentStage))
      && (f.tipoCampana != "" ==> a.tipoCampana == Some(f.tipoCampana))
  {
    var kept := FilteredData(data, f);
    forall i | 0 <= i < |kept| ensures Matches(kept[i], f) {
      assert kept[i] in kept;
    }
  }

  /**
   * A non-empty name query keeps a row iff its name contains the query ignoring case and
   * the row passes the other criteria; a row without a name is dropped.
   */
  lemma NameCriterion(a: Appointment, f: AppointmentFilters)
    requires f.fullName != ""
    ensures Matches(a, f) <==> FieldContains(a.fullName, f.fullName) && Matches(a, f.(fullName := ""))
    ensures a.fullName.None? ==> !Matches(a, f)
  {
  }

  /** The same for a non-empty calendar title query. */
  lemma TitleCriterion(a: Appointment, f: AppointmentFilters)
    requires f.calendarTitle != ""
    ensures Matches(a, f) <==> FieldContains(a.calendarTitle, f.calendarTitle) && Matches(a, f.(calendarTitle := ""))
    ensures a.calendarTitle.None? ==> !Matches(a, f)
  {
  }

  /** The name query ignores case on both sides. */
  lemma NameQueryIgnoresCase(a: Appointment, f: AppointmentFilters)
    ensures Matches(a, f) <==> Matches(a, f.(fullName := Lower(f.fullName)))
  {
    ContainsIgnoringCaseInvariant(if a.fullName.Some? then a.fullName.value else "", f.fullName);
    if f.fullName != "" {
      assert Lower(f.fullName) != "";
    } else {
      assert Lower(f.fullName) == "";
    }
  }

  /** `g` asks for everything `f` asks for, and possibly more. */
  predicate Refines(g: AppointmentFilters, f: AppointmentFilters) {
    (f.fullName != "" ==> g.fullName == f.fullName)
    && (f.location != "" ==> g.location == f.location)
    && (f.calendarTitle != "" ==> g.calendarTitle == f.calendarTitle)
    && (f.calendarStatus != "" ==> g.calendarStatus == f.calendarStatus)
    && (f.currentStage != "" ==> g.currentStage == f.currentStage)
    && (f.tipoCampana != "" ==> g.tipoCampana == f.tipoCampana)
  }

  /** The criteria are AND-ed: adding criteria never adds rows. */
  lemma MoreCriteriaFewerRows(data: seq<Appointment>, f: AppointmentFilters, g: AppointmentFilters)
    requires Refines(g, f)
    ensures Subseq(FilteredData(data, g), FilteredData(data, f))
  {
    FilterNarrows(data, a => Matches(a, g), a => Matches(a, f));
  }

  /** `uniqueLocations`: each truthy location once. */
  function UniqueLocations(data: seq<Appointment>): (r: seq<string>)
    ensures NoDuplicates(r)
    ensures forall k :: k in r <==> k != "" && exists i :: 0 <= i < |data| && data[i].location == Some(k)
    ensures InFirstSeenOrder(data, Location, r)
  {
    DistinctValuesFirstSeen(data, Location);
    DistinctValues(data, Location)
  }

  /** `uniqueStatuses`: each truthy calendar status once. */
  function UniqueStatuses(data: seq<Appointment>): (r: seq<string>)
    ensures NoDuplicates(r)
    ensures forall k :: k in r <==> k != "" && exists i :: 0 <= i < |data| && data[i].calendarStatus == Some(k)
    ensures InFirstSeenOrder(data, Status, r)
  {
    DistinctValuesFirstSeen(data, Status);
    DistinctValues(data, Status)
  }

  /** `uniqueStages`: each truthy current stage once. */
  function UniqueStages(data: seq<Appointment>): (r: seq<string>)
    ensures NoDuplicates(r)
    ensures forall k :: k in r <==> k != "" && exists i :: 0 <= i < |data| && data[i].currentStage == Some(k)
    ensures InFirstSeenOrder(data, Stage, r)
  {
    DistinctValuesFirstSeen(data, Stage);
    DistinctValues(data, Stage)
  }

  /** `uniqueTypes`: each truthy campaign type once. */
  function UniqueTypes(data: seq<Appointment>): (r: seq<string>)
    ensures NoDuplicates(r)
    ensures forall k :: k in r <==> k != "" && exists i :: 0 <= i < |data| && data[i].tipoCampana == Some(k)
    ensures InFirstSeenOrder(data, CampaignType, r)
  {
    DistinctValuesFirstSeen(data, CampaignType);
    DistinctValues(data, CampaignType)
  }
}
