/**
 * The contacts table: the row filter over five criteria (two case-insensitive substring
 * tests, one case-sensitive substring test, two exact matches) and the two lists of
 * distinct values offered by its selects.
 */
module ContactsTable {
  import opened Options
  import opened Sequences
  import opened Grouping
  import opened Text

  /** The fields of a contact the filter and the selects read; `None` is null. */
  datatype Contact = Contact(
    fullName: Option<string>,
    email: Option<string>,
    phone: Option<string>,
    locationName: Option<string>,
    country: Option<string>)

  datatype ContactFilters = ContactFilters(
    fullName: string, email: string, phone: string, locationName: string, country: string)

  const NoFilters := ContactFilters("", "", "", "", "")

  function Location(c: Contact): Option<string> { c.locationName }
  function Country(c: Contact): Option<string> { c.country }

  /** `field?.toLowerCase().includes(query.toLowerCase())`: false for a null field. */
  predicate FieldContains(field: Option<string>, query: string) {
    field.Some? && ContainsIgnoringCase(field.value, query)
  }

  /** `phone?.includes(query)`: case-sensitive, false for a null phone. */
  predicate PhoneContains(phone: Option<string>, query: string) {
    phone.Some? && Contains(phone.value, query)
  }

  /** The callback of `data.filter(...)`: each non-empty criterion must hold. */
  predicate Matches(c: Contact, f: ContactFilters) {
    (f.fullName == "" || FieldContains(c.fullName, f.fullName))
    && (f.email == "" || FieldContains(c.email, f.email))
    && (f.phone == "" || PhoneContains(c.phone, f.phone))
    && (f.locationName == "" || c.locationName == Some(f.locationName))
    && (f.country == "" || c.country == Some(f.country))
  }

  /** `filteredData`. */
  function FilteredData(data: seq<Contact>, f: ContactFilters): seq<Contact> {
    Filter(data, c => Matches(c, f))
  }

  /** The rows kept keep their order; with no criteria every row is kept. */
  lemma FilteredDataShape(data: seq<Contact>, f: ContactFilters)
    ensures Subseq(FilteredData(data, f), data)
    ensures f == NoFilters ==> FilteredData(data, f) == data
  {
    FilterSubseq(data, c => Matches(c, f));
  }

  /**
   * A row is kept iff it matches, and every kept row passes each non-empty criterion: name
   * and email contain their queries ignoring case, the phone contains its query as typed,
   * location and country are equal.
   */
  lemma FilteredDataMembers(data: seq<Contact>, f: ContactFilters)
    ensures forall i :: 0 <= i < |data| ==> (data[i] in FilteredData(data, f) <==> Matches(data[i], f))
    ensures forall i :: 0 <= i < |FilteredData(data, f)| ==>
      var c := FilteredData(data, f)[i];
      (f.fullName != "" ==> c.fullName.Some? && ContainsIgnoringCase(c.fullName.value, f.fullName))
      && (f.email != "" ==> c.email.Some? && ContainsIgnoringCase(c.email.value, f.email))
      && (f.phone != "" ==> c.phone.Some? && Contains(c.phone.value, f.phone))
      && (f.locationName != "" ==> c.locationName == Some(f.locationName))
      && (f.country != "" ==> c.country == Some(f.country))
  {
    var kept := FilteredData(data, f);
    forall i | 0 <= i < |kept| ensures Matches(kept[i], f) {
      assert kept[i] in kept;
    }
  }

  /** A contact without a name, or without an email, is dropped by a non-empty query on it. */
  lemma NullFieldDropped(c: Contact, f: ContactFilters)
    ensures f.fullName != "" && c.fullName.None? ==> !Matches(c, f)
    ensures f.email != "" && c.email.None? ==> !Matches(c, f)
    ensures f.phone != "" && c.phone.None? ==> !Matches(c, f)
  {
  }

  /** The phone query is case-sensitive while the name query is not. */
  lemma PhoneIsCaseSensitive(c: Contact)
    requires c == Contact(Some("Ana"), None, Some("Ana"), None, None)
    ensures Matches(c, NoFilters.(fullName := "an"))
    ensures !Matches(c, NoFilters.(phone := "an"))
  {
    CaseExample();
  }

  /** The email query keeps a row iff its email contains the query ignoring case. */
  lemma EmailCriterion(c: Contact, f: ContactFilters)
    requires f.email != ""
    ensures Matches(c, f) <==> FieldContains(c.email, f.email) && Matches(c, f.(email := ""))
  {
  }

  /** `g` asks for everything `f` asks for, and possibly more. */
  predicate Refines(g: ContactFilters, f: ContactFilters) {
    (f.fullName != "" ==> g.fullName == f.fullName)
    && (f.email != "" ==> g.email == f.email)
    && (f.phone != "" ==> g.phone == f.phone)
    && (f.locationName != "" ==> g.locationName == f.locationName)
    && (f.country != "" ==> g.country == f.country)
  }

  /** The criteria are AND-ed: adding criteria never adds rows. */
  lemma MoreCriteriaFewerRows(data: seq<Contact>, f: ContactFilters, g: ContactFilters)
    requires Refines(g, f)
    ensures Subseq(FilteredData(data, g), FilteredData(data, f))
  {
    FilterNarrows(data, c => Matches(c, g), c => Matches(c, f));
  }

  /** `uniqueLocations`: each truthy location name once. */
  function UniqueLocations(data: seq<Contact>): (r: seq<string>)
    ensures NoDuplicates(r)
    ensures forall k :: k in r <==> k != "" && exists i :: 0 <= i < |data| && data[i].locationName == Some(k)
    ensures InFirstSeenOrder(data, Location, r)
  {
    DistinctValuesFirstSeen(data, Location);
    DistinctValues(data, Location)
  }

  /** `uniqueCountries`: each truthy country once. */
  function UniqueCountries(data: seq<Contact>): (r: seq<string>)
    ensures NoDuplicates(r)
    ensures forall k :: k in r <==> k != "" && exists i :: 0 <= i < |data| && data[i].country == Some(k)
    ensures InFirstSeenOrder(data, Country, r)
  {
    DistinctValuesFirstSeen(data, Country);
    DistinctValues(data, Country)
  }
}
