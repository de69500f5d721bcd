/**
 * The locations table: the row filter over four exact criteria and the four lists of
 * distinct values offered by its selects.
 */
module LocationsTable {
  import opened Options
  import opened Sequences
  import opened Grouping

  /** The fields of a location the filter and the selects read; `None` is null. */
  datatype LocationRow = LocationRow(
    locationName: Option<string>,
    city: Option<string>,
    state: Option<string>,
    country: Option<string>)

  datatype LocationFilters = LocationFilters(location: string, city: string, state: string, country: string)

  const NoFilters := LocationFilters("", "", "", "")

  function Name(l: LocationRow): Option<string> { l.locationName }
  function City(l: LocationRow): Option<string> { l.city }
  function State(l: LocationRow): Option<string> { l.state }
  function Country(l: LocationRow): Option<string> { l.country }

  /** The callback of `data.filter(...)`: each non-empty criterion must hold. */
  predicate Matches(l: LocationRow, f: LocationFilters) {
    (f.location == "" || l.locationName == Some(f.location))
    && (f.city == "" || l.city == Some(f.city))
    && (f.state == "" || l.state == Some(f.state))
    && (f.country == "" || l.country == Some(f.country))
  }

  /** `filteredData`. */
  function FilteredData(data: seq<LocationRow>, f: LocationFilters): seq<LocationRow> {
    Filter(data, l => Matches(l, f))
  }

  /** The rows kept keep their order; with no criteria every row is kept. */
  lemma FilteredDataShape(data: seq<LocationRow>, f: LocationFilters)
    ensures Subseq(FilteredData(data, f), data)
    ensures f == NoFilters ==> FilteredData(data, f) == data
  {
    FilterSubseq(data, l => Matches(l, f));
  }

  /**
   * Sound and complete: every kept row equals each non-empty criterion, and every row of
   * `data` that is dropped differs from at least one non-empty criterion.
   */
  lemma FilteredDataExact(data: seq<LocationRow>, f: LocationFilters)
    ensures forall i :: 0 <= i < |FilteredData(data, f)| ==>
      var l := FilteredData(data, f)[i];
      (f.location != "" ==> l.locationName == Some(f.location))
      && (f.city != "" ==> l.city == Some(f.city))
      && (f.state != "" ==> l.state == Some(f.state))
      && (f.country != "" ==> l.country == Some(f.country))
    ensures forall i :: 0 <= i < |data| && data[i] !in FilteredData(data, f) ==>
      var l := data[i];
      (f.location != "" && l.locationName != Some(f.location))
      || (f.city != "" && l.city != Some(f.city))
      || (f.state != "" && l.state != Some(f.state))
      || (f.country != "" && l.country != Some(f.country))
  {
    var kept := FilteredData(data, f);
    forall i | 0 <= i < |kept| ensures Matches(kept[i], f) {
      assert kept[i] in kept;
    }
  }

  /** `g` asks for everything `f` asks for, and possibly more. */
  predicate Refines(g: LocationFilters, f: LocationFilters) {
    (f.location != "" ==> g.location == f.location)
    && (f.city != "" ==> g.city == f.city)
    && (f.state != "" ==> g.state == f.state)
    && (f.country != "" ==> g.country == f.country)
  }

  /** The criteria are AND-ed: adding criteria never adds rows. */
  lemma MoreCriteriaFewerRows(data: seq<LocationRow>, f: LocationFilters, g: LocationFilters)
    requires Refines(g, f)
    ensures Subseq(FilteredData(data, g), FilteredData(data, f))
  {
    FilterNarrows(data, l => Matches(l, g), l => Matches(l, f));
  }

  /** `uniqueLocations`: each truthy location name once. */
  function UniqueLocations(data: seq<LocationRow>): (r: seq<string>)
    ensures NoDuplicates(r)
    ensures forall k :: k in r <==> k != "" && exists i :: 0 <= i < |data| && data[i].locationName == Some(k)
    ensures InFirstSeenOrder(data, Name, r)
  {
    DistinctValuesFirstSeen(data, Name);
    DistinctValues(data, Name)
  }

  /** `uniqueCities`: each truthy city once. */
  function UniqueCities(data: seq<LocationRow>): (r: seq<string>)
    ensures NoDuplicates(r)
    ensures forall k :: k in r <==> k != "" && exists i :: 0 <= i < |data| && data[i].city == Some(k)
    ensures InFirstSeenOrder(data, City, r)
  {
    DistinctValuesFirstSeen(data, City);
    DistinctValues(data, City)
  }

  /** `uniqueStates`: each truthy state once. */
  function UniqueStates(data: seq<LocationRow>): (r: seq<string>)
    ensures NoDuplicates(r)
    ensures forall k :: k in r <==> k != "" && exists i :: 0 <= i < |data| && data[i].state == Some(k)
    ensures InFirstSeenOrder(data, State, r)
  {
    DistinctValuesFirstSeen(data, State);
    DistinctValues(data, State)
  }

  /** `uniqueCountries`: each truthy country once. */
  function UniqueCountries(data: seq<LocationRow>): (r: seq<string>)
    ensures NoDuplicates(r)
    ensures forall k :: k in r <==> k != "" && exists i :: 0 <= i < |data| && data[i].country == Some(k)
    ensures InFirstSeenOrder(data, Country, r)
  {
    DistinctValuesFirstSeen(data, Country);
    DistinctValues(data, Country)
  }
}
