# Minimal CRM dashboards: filter, aggregate, segment by location

This project models the data logic of the Minimal-CRM dashboards in Dafny and proves what that logic does.

The three summary views are **calls**, **opportunities** and **pipelines**. Each takes the loaded records and does three things:

- it keeps the records that pass the user's filters;
- it computes metrics over them (counters, averages, key → count group maps);
- it cuts them into one segment per location, with the same metrics per segment.

The five **table components** (appointments, contacts, locations, opportunities, pipelines) each filter their rows. Each also lists the distinct values of some fields for its select boxes.

The modules follow the source:

| module | file | what it holds |
|---|---|---|
| `Options`, `Sequences`, `Text`, `Rounding` | options.dfy, sequences.dfy, text.dfy, rounding.dfy | Nullable fields. `Array.prototype.filter`/`map`/`reduce` on sequences. ASCII `toLowerCase` and `includes`. `Math.round`. |
| `Grouping` | grouping.dfy | Distinct truthy values in first-seen order (`Array.from(new Set(xs.filter(Boolean)))`). Group maps built by `m[k] = (m[k] \|\| 0) + 1`. |
| `Segmenter` | segmenter.dfy | The location segmenter shared by the three summary views. |
| `Dates` | dates.dfy | JavaScript `Date` arithmetic from section 21.4.1 of ECMA-262. `setHours(0,0,0,0)` in local time. The calls view's `parseLocalDate`. `new Date("YYYY-MM-DD")`. |
| `Calls` | calls.dfy | The calls summary view: the filter, the metrics, the response times and the segments. |
| `Opportunities`, `Pipelines` | opportunities.dfy, pipelines.dfy | The other two summary views. |
| `AppointmentsTable`, `ContactsTable`, `LocationsTable`, `OpportunitiesTable`, `PipelinesTable` | *_table.dfy | The table filters and their distinct-value lists. |

Where the source changes state, the model changes state too:

- a `forEach` that pushes into or increments a dictionary is a method with a loop that updates a `map`;
- the calls filter's `Date` objects are instances of a `JsDate` class, which its `setHours` method updates in place.

Each such method is proved equal to a function. The properties are proved about those functions.

Some inputs are parameters rather than computed:

- the time-zone offset of local time, `tz`, in milliseconds;
- the contact creation dates, as a map from contact id to the `Date` made of each;
- each record timestamp, as the `Date` (`Instant`) that `new Date(...)` makes of it.

Two things in the source behave differently from what one might expect, and the model keeps both:

- **Rounding hides short response times.** `avgResponseTime` rounds to whole seconds, so a mean response time under half a second comes out as 0. A result of 0 therefore does not mean that no call was answered after the contact was created (`Calls.SubSecondResponseRoundsToZero`).
- **The two pipeline pages filter status differently.**
  - The pipelines status filter compares the status exactly, so it is case-sensitive.
  - The status counters lower-case the status first.
  - The pipelines table filters dates on `created_at`, while the summary view uses `date_created`.

## Model

| member | source | states |
|---|---|---|
| Sequences.Filter | src/app/calls/CallsClient.tsx:72-102 | `xs.filter(p)`: every element satisfying `p` occurs in the result exactly as many times as in `xs`, and no other element occurs; every kept element satisfies `p`; the result is no longer than `xs`, and equals `xs` when every element passes. With `FilterSubseq` (order kept) this determines the result. |
| Sequences.FilterSubseq | src/app/calls/CallsClient.tsx:72-102 | Filtering keeps order: the result is a subsequence of the input. |
| Sequences.FilterNarrows | src/app/components/tables/AppointmentsTable.tsx:57-65 | A filter whose predicate implies another's keeps a subsequence of what the other keeps. |
| Text.LowerChar | src/app/components/tables/AppointmentsTable.tsx:58 | `toLowerCase` on one character: `A`–`Z` become `a`–`z`, every other character is kept. |
| Text.Lower | src/app/components/tables/AppointmentsTable.tsx:58 | `toLowerCase` keeps the length and lower-cases each character. |
| Text.Contains | src/app/components/tables/ContactsTable.tsx:49 | `s.includes(sub)`: `sub` occurs in `s` at some index `i` with `i + \|sub\| <= \|s\|`. The empty query occurs in every string. |
| Text.ContainsIgnoringCase | src/app/components/tables/AppointmentsTable.tsx:58 | `s.toLowerCase().includes(sub.toLowerCase())`: `includes` on both strings lower-cased. |
| Text.ContainsIgnoringCaseInvariant | src/app/components/tables/AppointmentsTable.tsx:58 | Lower-casing either the field or the query first does not change a case-insensitive substring test. |
| Text.ContainsIgnoringCaseWeaker | src/app/components/tables/ContactsTable.tsx:47-49 | A case-sensitive match is also a case-insensitive one. |
| Text.CaseExample | src/app/components/tables/ContactsTable.tsx:49 | "Ana" does not contain "an" case-sensitively, but does ignoring case. |
| Rounding.Round | src/app/calls/CallsClient.tsx:126 | `Math.round(x)` is the integer nearest to `x`, halves rounded up: `x - 1/2 < r <= x + 1/2`. |
| Rounding.RoundMonotone | src/app/calls/CallsClient.tsx:48-52 | Rounding never reverses an order. |
| Rounding.RoundBetween | src/app/calls/CallsClient.tsx:159 | A value between two integers rounds to a value between them. |
| Grouping.Unique | src/app/calls/CallsClient.tsx:105-106 | The distinct truthy values, each once: `k` is listed iff `k` is non-empty and occurs. |
| Grouping.UniqueFirstSeenOrder | src/app/calls/CallsClient.tsx:105-106 | Entries come in the order of their first occurrence, as a `Set` keeps insertion order. |
| Grouping.DistinctValues | src/app/components/tables/AppointmentsTable.tsx:36-39 | Over records: no duplicates, and `k` is listed iff `k` is non-empty and some record has it. |
| Grouping.DistinctValuesOrder | src/app/components/tables/AppointmentsTable.tsx:36-39 | An earlier entry's first record comes before a later entry's first record. |
| Grouping.DistinctValuesFirstSeen | src/app/components/tables/AppointmentsTable.tsx:36-39 | Wherever a later entry occurs among the records, every earlier entry has already occurred. |
| Grouping.GroupCounts | src/app/opportunities/OpportunitiesClient.tsx:81-85 | The group map has key `k` iff `k` is non-empty and occurs. |
| Grouping.Bump | src/app/opportunities/OpportunitiesClient.tsx:82-84 | One step of a grouping `forEach`: for a truthy key, `m[k] = (m[k] \|\| 0) + 1` on a map holding only the keys put into it; a falsy key leaves the map alone. |
| Grouping.GroupCountsSnoc | src/app/opportunities/OpportunitiesClient.tsx:83 | One more record updates the map as `m[k] = (m[k] \|\| 0) + 1` does on a map holding only the keys put into it, and leaves it alone for a falsy key. |
| Grouping.CountByKey | src/app/opportunities/OpportunitiesClient.tsx:81-85 | The `forEach` loop incrementing keys in place builds `GroupCounts` of the records' keys. |
| Grouping.GroupCountsValues | src/app/opportunities/OpportunitiesClient.tsx:83 | Every count in the map is the number of occurrences of its key, and at least 1. |
| Grouping.GroupCountsSum | src/app/opportunities/OpportunitiesClient.tsx:81-85 | Summed over the distinct values, the counts equal the number of truthy entries, never more than the total. They equal the total iff no entry is falsy. |
| Grouping.GroupCountsSingleKey | src/app/opportunities/OpportunitiesClient.tsx:137-139 | When every entry is the same key `k`, the map is empty or `{k: n}`. |
| Grouping.GroupCountsOfRows | src/app/opportunities/OpportunitiesClient.tsx:81-106 | Over records: key iff some record has it; count = number of such records; counts sum to the records with a truthy value, which is all records iff none lacks it. |
| Segmenter.SegmentsFor | src/app/calls/CallsClient.tsx:216-217 | One segment per listed location, in list order, each holding the filtered records whose location equals it, as `filteredCalls.filter(call => call.location_name === location.location_name)` does. |
| Segmenter.Segments | src/app/calls/CallsClient.tsx:163-217 | With a location selected: at most one segment, present iff the location occurs among all records. Without one: one segment per distinct location, in first-seen order. Every segment's location is non-empty, and its rows are the filtered records at that location. |
| Segmenter.SegmentsPartition | src/app/calls/CallsClient.tsx:216-217 | Without a selected location, the segments' rows add up to the number of filtered records that have a location, when those records are drawn from all records. |
| Segmenter.SegmentsSelected | src/app/calls/CallsClient.tsx:163-167 | With a location selected and every filtered record at it, the segments hold as many rows as there are filtered records, in one segment when there are any. |
| Dates.TimeClip | src/app/calls/CallsClient.tsx:33 | TimeClip of section 21.4.1.31 of ECMA-262: a time value beyond 8.64·10^15 ms in magnitude is an Invalid Date. |
| Dates.Before | src/app/calls/CallsClient.tsx:89 | `a < b` on two `Date` objects compares their time values, and is false when either is an Invalid Date. |
| Dates.LocalDay | src/app/calls/CallsClient.tsx:82 | The local calendar day that contains a time value, with a fixed offset east of UTC. |
| Dates.JsDate.constructor | src/app/calls/CallsClient.tsx:77 | `new Date(t)` holds the time value `t`. |
| Dates.JsDate.SetHoursToMidnight | src/app/calls/CallsClient.tsx:82-85 | `d.setHours(0,0,0,0)` replaces the time value, in place, with local midnight of its day. |
| Dates.DayStart | src/app/calls/CallsClient.tsx:82 | Local midnight of a time is at or before it, less than a day before, on the same local day, and a multiple of a day in local time. |
| Dates.SetMidnight | src/app/calls/CallsClient.tsx:82-85 | On a `Date`, a valid result lies on the same local day, at or before the original. |
| Dates.SetMidnightIdempotent | src/app/calls/CallsClient.tsx:78 | Setting midnight twice equals setting it once, so `callEnd` sharing the `callStart` object is harmless. |
| Dates.MidnightsCompare | src/app/calls/CallsClient.tsx:89 | Comparing a midnight with the midnight of day `n` is comparing local day numbers. |
| Dates.DayNumber | src/app/calls/CallsClient.tsx:33 | Days from 1970-01-01 to a valid proleptic Gregorian date: the days of the years before it, of the months before it, and its day of the month. |
| Dates.MakeDay | src/app/calls/CallsClient.tsx:33 | MakeDay of section 21.4.1.28 of ECMA-262: a month outside 0..11 carries into the year by floor division, and a date past the month's end runs into the following days. |
| Dates.DayNumberOrder | src/app/calls/CallsClient.tsx:31-34 | Calendar order of valid dates is the order of their day numbers, and equal dates have equal numbers. |
| Dates.DayNumberNext | src/app/calls/CallsClient.tsx:31-34 | The next calendar date has the next day number. |
| Dates.Split | src/app/calls/CallsClient.tsx:32 | `s.split(sep)`: at least one part; adjacent separators give an empty part. |
| Dates.NumberOf | src/app/calls/CallsClient.tsx:32 | `Number(part)` for a run of ASCII digits (the empty run is 0); every other spelling is NaN. |
| Dates.ParseLocalDate | src/app/calls/CallsClient.tsx:31-34 | `parseLocalDate`: split on `-`, convert the first three parts with `Number`, and build `new Date(year, month - 1, day, 0, 0, 0, 0)`. A NaN part gives an Invalid Date, a year 0..99 means 1900..1999, and the result is local midnight of that day, clipped. |
| Dates.LocalMidnight | src/app/calls/CallsClient.tsx:33 | The time value of local midnight starting a day number, clipped to the valid range. |
| Dates.SplitFormatted | src/app/calls/CallsClient.tsx:32 | `"YYYY-MM-DD".split('-')` gives the three padded fields. |
| Dates.ParseLocalDateFormatted | src/app/calls/CallsClient.tsx:31-34 | `parseLocalDate` of a formatted date from year 100 on is local midnight of that very date, so format → parse round-trips to its day number. |
| Dates.ParseLocalDateTwoDigitYear | src/app/calls/CallsClient.tsx:33 | A year 0..99 is read as 1900..1999. |
| Dates.ParseLocalDateIsMidnight | src/app/calls/CallsClient.tsx:84-85 | Any parsed date is already a (possibly invalid) local midnight, so `setHours` on the range dates changes nothing. |
| Dates.ParseIsoDate | src/app/opportunities/OpportunitiesClient.tsx:41-42 | `new Date("YYYY-MM-DD")`: UTC midnight of the date, an Invalid Date for a month outside 01..12, a day outside 01..31 or any other shape of string. |
| Dates.ParseIsoDateFormatted | src/app/opportunities/OpportunitiesClient.tsx:41 | `new Date("YYYY-MM-DD")` is UTC midnight of that date. |
| Dates.DayNumberExample | src/app/calls/CallsClient.tsx:33 | 1 January 2024 is day 19723 after the epoch, whose UTC midnight is 1704067200000 ms, as ECMAScript dates count. |
| Dates.FormatExample | src/app/calls/CallsClient.tsx:31-32 | The date input's text for 10 March 2024 is `2024-03-10`. |
| Calls.ConvertTime | src/app/calls/CallsClient.tsx:45-56 | Seconds are returned unchanged. For min, hrs and días the result is the nearest whole number of units: `60r - 30 <= s < 60r + 30`, and likewise for 3600 and 86400. |
| Calls.ConvertTimeMonotone | src/app/calls/CallsClient.tsx:45-56 | More seconds never convert to fewer units. |
| Calls.ConvertTimeExact | src/app/calls/CallsClient.tsx:47-52 | A whole number of units converts back to that number. |
| Calls.UnitLabel | src/app/calls/CallsClient.tsx:58-69 | The días label belongs to days only, and the seg label only to seconds, the default. |
| Calls.UnitLabelsDistinct | src/app/calls/CallsClient.tsx:58-69 | Two units have the same label iff they are the same unit. |
| Calls.StartDay | src/app/calls/CallsClient.tsx:77-82 | `callStart` after `setHours(0,0,0,0)`: `null` without a start time, otherwise local midnight of the start (an Invalid Date stays invalid). |
| Calls.EndDay | src/app/calls/CallsClient.tsx:78-83 | `callEnd` after `setHours(0,0,0,0)`: midnight of the end time, or `callStart` when there is no end time. |
| Calls.RangeDay | src/app/calls/CallsClient.tsx:79-85 | `rangeStart` / `rangeEnd`: `null` for an empty filter date, otherwise `parseLocalDate` of it set to midnight. |
| Calls.KeptByDates | src/app/calls/CallsClient.tsx:87-98 | The three date rules: start date only, end date only, both. A present `Date` takes part even when it is invalid, and its comparisons are then false. |
| Calls.DatesKeep | src/app/calls/CallsClient.tsx:76-99 | The date part of the filter: applied only when a start or an end date is set. |
| Calls.CallMatches | src/app/calls/CallsClient.tsx:72-102 | The `calls.filter` callback: the exact location when one is selected, and then the date rules. |
| Calls.KeepCall | src/app/calls/CallsClient.tsx:72-102 | The callback as written decides exactly `CallMatches`. It builds `Date` objects with `callEnd` aliasing `callStart`, and mutates all four to midnight. |
| Calls.FilterCalls | src/app/calls/CallsClient.tsx:72-102 | `filteredCalls`: the calls that match, in their original order. |
| Calls.FilterCallsShape | src/app/calls/CallsClient.tsx:72-102 | The kept calls are an order-preserving subsequence, and with all three filters empty they are all the calls. |
| Calls.FilterCallsMembers | src/app/calls/CallsClient.tsx:72-73 | A call is kept iff it matches, and with a location filter every kept call has exactly that location. |
| Calls.MidnightOf | src/app/calls/CallsClient.tsx:82-83 | Within range, a call time set to midnight is local midnight of its local day; an invalid date stays invalid. |
| Calls.CallDays | src/app/calls/CallsClient.tsx:77-83 | The start day exists iff the call has a start time. The end day exists iff it has an end or a start time, falling back to the start. Both are local midnights of their days. |
| Calls.RangeDayFormatted | src/app/calls/CallsClient.tsx:79-85 | A filter date gives local midnight of that date. |
| Calls.StartOnlyRule | src/app/calls/CallsClient.tsx:88-90 | With only a start date, a call is kept iff it has no start day or its start day is not before that date. |
| Calls.EndOnlyRule | src/app/calls/CallsClient.tsx:92-94 | With only an end date, a call is kept iff it has no end day (end falling back to start) or that day is not after the date. |
| Calls.BothDatesRule | src/app/calls/CallsClient.tsx:96-98 | With both dates, a call is dropped iff it has a start time and either its start day is before the start date or its end day is after the end date. |
| Calls.UntimedCallKept | src/app/calls/CallsClient.tsx:76-99 | A call with no start and no end time passes every date filter. |
| Calls.StraddlingCallDropped | src/app/calls/CallsClient.tsx:96-97 | A call starting at 23:00 and ending at 00:30 the next day is dropped when both filter dates name its start day. |
| Calls.Duration | src/app/calls/CallsClient.tsx:112 | `call.phone_duration \|\| 0`. |
| Calls.Inbound | src/app/calls/CallsClient.tsx:115 | A received call: direction exactly `inbound`. |
| Calls.Answered | src/app/calls/CallsClient.tsx:116-119 | An answered call: direction `inbound` and status exactly `completed`. |
| Calls.Outbound | src/app/calls/CallsClient.tsx:120 | A made call: direction exactly `outbound`. |
| Calls.TotalDuration | src/app/calls/CallsClient.tsx:112 | The sum of `phone_duration \|\| 0` over the calls. |
| Calls.AvgDuration | src/app/calls/CallsClient.tsx:124-127 | `Math.round(totalDuration / totalCalls)`, left at 0 when there are no calls. |
| Calls.Contacts | src/app/calls/CallsClient.tsx:157 | The distinct truthy contact ids of the calls, as `new Set(...filter(Boolean))` collects them. |
| Calls.AvgCallsPerLead | src/app/calls/CallsClient.tsx:157-160 | `Math.round(totalCalls / uniqueContacts.size)`, left at 0 without contacts. |
| Calls.CountersBounded | src/app/calls/CallsClient.tsx:110-122 | answered ≤ received, and received + made ≤ total. |
| Calls.TotalDurationBounds | src/app/calls/CallsClient.tsx:112 | With durations in `0..longest` (missing as 0), the total lies in `0..n·longest`. |
| Calls.AvgDurationBounds | src/app/calls/CallsClient.tsx:125-127 | The average duration is 0 with no calls, and otherwise lies between 0 and the longest duration. |
| Calls.AvgCallsPerLeadBounds | src/app/calls/CallsClient.tsx:157-160 | With no contact ids the result is 0. Otherwise it lies between 1 and the number of calls. |
| Calls.CountersExample | src/app/calls/CallsClient.tsx:110-127 | Three calls: 2 inbound (1 completed), 1 outbound, 180 s in total, giving counts 3/2/1/1 and a 60 s average. |
| Calls.ResponseDelta | src/app/calls/CallsClient.tsx:132-136 | A call files a response time iff it has a truthy contact id, that contact a creation date, the call a start time, and the difference of the two time values is positive (NaN is not); the delta is that difference. |
| Calls.ResponseKeys | src/app/calls/CallsClient.tsx:132-137 | The contact id under which each call files a response time, or none. |
| Calls.Responders | src/app/calls/CallsClient.tsx:130-140 | The keys of `responseTimesByContact` in insertion order: each contact that files a response time, once, in the order of its first filing call. |
| Calls.DeltasOf | src/app/calls/CallsClient.tsx:136-140 | Every response time filed under a contact is strictly positive. |
| Calls.DeltasOfSnoc | src/app/calls/CallsClient.tsx:132-140 | One more call appends its delta to its contact's list iff it files one, and leaves every other list alone. |
| Calls.Mean | src/app/calls/CallsClient.tsx:148 | `times.reduce((s, t) => s + t, 0) / times.length` over exact reals. |
| Calls.MeanDelay | src/app/calls/CallsClient.tsx:147-149 | A contact's mean response time is never negative. |
| Calls.ContactMeans | src/app/calls/CallsClient.tsx:147-149 | `avgResponseTimes` holds one non-negative mean per responding contact. |
| Calls.RoundedSeconds | src/app/calls/CallsClient.tsx:152-154 | `Math.round(sum of the means / their number / 1000)`, or 0 when there is no mean. |
| Calls.AvgResponseTime | src/app/calls/CallsClient.tsx:152-154 | The global average response time, in seconds, is never negative. |
| Calls.ResponseTimesByContact | src/app/calls/CallsClient.tsx:130-144 | The `forEach` that creates lists and pushes into them ends with keys equal to the responding contacts, in insertion order. Each key's list is that contact's positive deltas, in call order. |
| Calls.FileResponse | src/app/calls/CallsClient.tsx:131-143 | One pass of the loop body, branch by branch, keeps that correspondence for one more call. |
| Calls.UnfiledStep | src/app/calls/CallsClient.tsx:132-136 | A call with no contact, no creation date, no start time or a non-positive delta changes neither the keys nor any list. |
| Calls.FiledStep | src/app/calls/CallsClient.tsx:137-140 | A call with a positive delta adds its contact as a new key if absent and appends the delta to that contact's list only. |
| Calls.ComputeAvgResponseTime | src/app/calls/CallsClient.tsx:146-154 | Averaging the filled dictionary's per-contact means gives `AvgResponseTime`. |
| Calls.CallMetricsOf | src/app/calls/CallsClient.tsx:110-160 | The metrics of a list of calls: total, total and average duration, average response time, received, answered and made counts, and calls per lead. |
| Calls.ComputeCallMetrics | src/app/calls/CallsClient.tsx:110-160 | Building the metrics record and then assigning the three averages gives `CallMetricsOf`. |
| Calls.RespondingCallsSuffice | src/app/calls/CallsClient.tsx:132-136 | Dropping every call that files no response time changes neither the responders nor any contact's deltas. |
| Calls.AvgResponseTimeOfRespondingCalls | src/app/calls/CallsClient.tsx:130-154 | The average response time depends only on the calls with a positive delta. |
| Calls.NoResponsesNoResponseTime | src/app/calls/CallsClient.tsx:152-154 | With no positive delta there are no responders and the average is 0. |
| Calls.SubSecondResponseRoundsToZero | src/app/calls/CallsClient.tsx:152-154 | A 1 ms delta is a positive delta, yet the average is 0, so the converse does not hold. |
| Calls.AvgResponseTimePositive | src/app/calls/CallsClient.tsx:152-154 | The average is positive iff some contact responded and the mean of the per-contact means is at least 500 ms. |
| Calls.ResponseTimeExample | src/app/calls/CallsClient.tsx:130-154 | One contact called 1 and 3 days after creation has a mean of 2 days, which is 172800 s. |
| Calls.UniqueLocations | src/app/calls/CallsClient.tsx:105-107 | The distinct non-empty locations of all loaded calls, with no duplicates, in first-seen order. |
| Calls.LocationMetricsOf | src/app/calls/CallsClient.tsx:163-265 | With a location: at most one entry, present iff the location is among `uniqueLocations`. Without one: one entry per unique location, in order. Each entry's metrics are those of the filtered calls at its location. |
| Calls.EntryOf | src/app/calls/CallsClient.tsx:247-264 | The `.map` callback over a segment: its label and the metrics of its calls. |
| Calls.SegmentLabel | src/app/calls/CallsClient.tsx:248 | `location_name \|\| 'Sin Ubicación'`. |
| Calls.FallbackLabelUnused | src/app/calls/CallsClient.tsx:248 | Every segment's location is non-empty, so the 'Sin Ubicación' fallback never applies. Each entry is labelled with its own segment's location. |
| Calls.SegmentTotals | src/app/calls/CallsClient.tsx:216-217 | Without a location filter, the segments' `totalCalls` add up to the filtered calls that have a location. |
| Calls.EntriesTotal | src/app/calls/CallsClient.tsx:216-249 | The calls counted by the entries of some segments are exactly the rows of those segments. |
| Calls.SegmentOfSelectedLocation | src/app/calls/CallsClient.tsx:163-167 | With a location filter, the segment totals equal the number of filtered calls, and there is exactly one segment when any call is kept. |
| Calls.ComputeLocationMetrics | src/app/calls/CallsClient.tsx:163-265 | Building the segments and mapping each one to its entry computes `LocationMetricsOf`. |
| Calls.ComputeSegmentEntries | src/app/calls/CallsClient.tsx:216-265 | The `.map` over the segments gives one entry per segment, in order. |
| Calls.ComputeSegmentEntry | src/app/calls/CallsClient.tsx:217-264 | One segment's entry: its calls' metrics, with its own response-time dictionary, labelled `location_name \|\| 'Sin Ubicación'`. |
| Opportunities.Matches | src/app/opportunities/OpportunitiesClient.tsx:37-44 | The `opportunities.filter` callback: exact location, stage and campaign type when set. A record with a creation date is dropped when it lies before `new Date(startDate)` or after `new Date(endDate)`. |
| Opportunities.FilterOpportunities | src/app/opportunities/OpportunitiesClient.tsx:37-44 | `filteredOpportunities`: the records that match, in their original order. |
| Opportunities.FilterSound | src/app/opportunities/OpportunitiesClient.tsx:37-44 | The kept records are an order-preserving subsequence, a record is kept iff it matches, and every kept record meets each non-empty location, stage and type criterion. |
| Opportunities.EmptyFiltersKeepAll | src/app/opportunities/OpportunitiesClient.tsx:37-44 | Empty criteria keep every record. |
| Opportunities.UndatedNeverDateExcluded | src/app/opportunities/OpportunitiesClient.tsx:41-42 | A record with no `date_created` is never excluded by the date bounds. |
| Opportunities.StartBoundIsInstant | src/app/opportunities/OpportunitiesClient.tsx:41 | With a start date, a dated record is kept iff it passes the rest and was created at or after UTC midnight of that date. |
| Opportunities.EndBoundIsInstant | src/app/opportunities/OpportunitiesClient.tsx:42 | With an end date, a dated record is kept iff it passes the rest and was created at or before UTC midnight of that date. |
| Opportunities.NoonOnEndDateDropped | src/app/opportunities/OpportunitiesClient.tsx:42 | A record created at noon (UTC) on the end date is excluded. |
| Opportunities.HasStatus | src/app/opportunities/OpportunitiesClient.tsx:74 | `opp.opportunity_st?.toLowerCase() === status`: false for a null status. |
| Opportunities.IsOpen | src/app/opportunities/OpportunitiesClient.tsx:74 | Status `open` in any letter case. |
| Opportunities.IsAbandoned | src/app/opportunities/OpportunitiesClient.tsx:75 | Status `abandoned` in any letter case. |
| Opportunities.IsWon | src/app/opportunities/OpportunitiesClient.tsx:76 | Status `won` in any letter case. |
| Opportunities.StatusCountsOf | src/app/opportunities/OpportunitiesClient.tsx:73-77 | `opportunitiesByStatus`: the numbers of open, abandoned and won records. |
| Opportunities.StatusCountsBound | src/app/opportunities/OpportunitiesClient.tsx:73-77 | open + abandoned + won ≤ the number of records. |
| Opportunities.StatusIgnoresCase | src/app/opportunities/OpportunitiesClient.tsx:74-76 | Two statuses that lower-case alike count alike. |
| Opportunities.StatusExample | src/app/opportunities/OpportunitiesClient.tsx:73-77 | "Open", "OPEN", "abandoned" and "Won" count as 2 open, 1 abandoned and 1 won. |
| Opportunities.MetricsOf | src/app/opportunities/OpportunitiesClient.tsx:67-106 | The metrics of a list of opportunities: the total, the four group maps by stage, pipeline, type and location, and the status counters. |
| Opportunities.ComputeMetrics | src/app/opportunities/OpportunitiesClient.tsx:67-106 | The four `forEach` loops incrementing maps in place give `MetricsOf`. |
| Opportunities.ComputeSegmentMetrics | src/app/opportunities/OpportunitiesClient.tsx:114-140 | The single fused loop filling all four maps gives the same `MetricsOf`. |
| Opportunities.GroupMapsLaws | src/app/opportunities/OpportunitiesClient.tsx:81-106 | For stage, pipeline, type and location: a key is present iff some record has that non-empty value. The counts sum to the records that have one, never more than the total. |
| Opportunities.StageCounts | src/app/opportunities/OpportunitiesClient.tsx:81-85 | A stage's count is the number of records at that stage, at least 1. |
| Opportunities.StageCountsComplete | src/app/opportunities/OpportunitiesClient.tsx:81-85 | The stage counts sum to the total iff every record has a stage. |
| Opportunities.UniqueLocations | src/app/opportunities/OpportunitiesClient.tsx:47-49 | Drawn from all records: distinct, a value listed iff it is non-empty and some record has it, in first-seen order. The opportunities table's `uniqueLocations` (OpportunitiesTable.tsx:35-38) is this list of its rows. |
| Opportunities.UniqueStages | src/app/opportunities/OpportunitiesClient.tsx:52-54 | The same, for stages; also the table's `uniqueStages` (OpportunitiesTable.tsx:40-43). |
| Opportunities.UniqueTypes | src/app/opportunities/OpportunitiesClient.tsx:57-59 | The same, for campaign types; also the table's `uniqueTypes` (OpportunitiesTable.tsx:45-48). |
| Opportunities.UniquePipelines | src/app/opportunities/OpportunitiesClient.tsx:62-64 | The same, for pipeline names. |
| Opportunities.LocationMetricsOf | src/app/opportunities/OpportunitiesClient.tsx:109-181 | With a location: at most one segment, present iff the location is known. Without one: one per unique location, in order. Each segment's metrics are those of its filtered records. |
| Opportunities.SegmentEntry | src/app/opportunities/OpportunitiesClient.tsx:147-180 | The `.map` callback over a segment: its location and the metrics of its records. |
| Opportunities.ComputeLocationMetrics | src/app/opportunities/OpportunitiesClient.tsx:109-181 | Building the segments and mapping each one to its entry computes `LocationMetricsOf`. |
| Opportunities.ComputeSegmentEntries | src/app/opportunities/OpportunitiesClient.tsx:147-181 | The `.map` over the locations gives one entry per segment, in order. |
| Opportunities.SegmentShape | src/app/opportunities/OpportunitiesClient.tsx:114-140 | In every segment, `opportunitiesByLocation` is empty if the total is 0 and `{location: total}` otherwise, and the status counts are bounded by the total. |
| Opportunities.RowsAtLocationShape | src/app/opportunities/OpportunitiesClient.tsx:148-175 | The metrics of the records at one location have a location map that is empty or `{loc: total}`, and status counts within the total. |
| Opportunities.SelectedSegment | src/app/opportunities/OpportunitiesClient.tsx:109-125 | With a location filter, the segment total is the global total, and the one segment (when any record is kept) has the global metrics. |
| Opportunities.SegmentTotalIsRows | src/app/opportunities/OpportunitiesClient.tsx:147-181 | The entries' totals add up to the rows of the segments they were built from. |
| Opportunities.KeptAtSelectedLocation | src/app/opportunities/OpportunitiesClient.tsx:38 | With a location filter, every filtered record is one of the records and has exactly that location. |
| Opportunities.SegmentTotals | src/app/opportunities/OpportunitiesClient.tsx:147-150 | Without a location filter, segment totals add up to the filtered records that have a location. |
| Pipelines.Matches | src/app/pipelines/PipelinesClient.tsx:35-42 | The `pipelines.filter` callback: exact location, stage and status (case-sensitive) when set. A record with a creation date is dropped when it lies before `new Date(startDate)` or after `new Date(endDate)`. |
| Pipelines.FilterPipelines | src/app/pipelines/PipelinesClient.tsx:35-42 | `filteredPipelines`: the records that match, in their original order. |
| Pipelines.FilterSound | src/app/pipelines/PipelinesClient.tsx:35-42 | The kept records are an order-preserving subsequence, a record is kept iff it matches, and every kept record equals each non-empty location, stage and status criterion. |
| Pipelines.EmptyFiltersKeepAll | src/app/pipelines/PipelinesClient.tsx:35-42 | Empty criteria keep every record. |
| Pipelines.UndatedNeverDateExcluded | src/app/pipelines/PipelinesClient.tsx:39-40 | A record with no `date_created` is never excluded by the date bounds. |
| Pipelines.StatusFilterIsCaseSensitive | src/app/pipelines/PipelinesClient.tsx:38 | Status "Open" fails the status filter "open", yet counts as open. |
| Pipelines.HasStatus | src/app/pipelines/PipelinesClient.tsx:64 | `p.status?.toLowerCase() === status`: false for a null status. |
| Pipelines.IsOpen | src/app/pipelines/PipelinesClient.tsx:64 | Status `open` in any letter case. |
| Pipelines.IsWon | src/app/pipelines/PipelinesClient.tsx:65 | Status `won` in any letter case. |
| Pipelines.StatusCountsOf | src/app/pipelines/PipelinesClient.tsx:63-66 | `pipelinesByStatus`: the numbers of open and won records; there is no other counter. |
| Pipelines.StatusCountsBound | src/app/pipelines/PipelinesClient.tsx:63-66 | open + won ≤ the number of records. |
| Pipelines.StatusIgnoresCase | src/app/pipelines/PipelinesClient.tsx:64-65 | Two statuses that lower-case alike count alike. |
| Pipelines.MetricsOf | src/app/pipelines/PipelinesClient.tsx:59-82 | The metrics of a list of pipelines: the total, the stage map, the status counters and the location map. |
| Pipelines.ComputeMetrics | src/app/pipelines/PipelinesClient.tsx:60-82 | The two `forEach` loops incrementing maps give `MetricsOf`. |
| Pipelines.ComputeSegmentMetrics | src/app/pipelines/PipelinesClient.tsx:90-107 | The fused segment loop gives the same `MetricsOf`. |
| Pipelines.GroupMapsLaws | src/app/pipelines/PipelinesClient.tsx:71-82 | For stage and location: a key is present iff some record has that non-empty value. Its count is the number of such records. The counts sum to the records that have one. |
| Pipelines.UniqueLocations | src/app/pipelines/PipelinesClient.tsx:45-47 | Drawn from all records: distinct, a value listed iff it is non-empty and some record has it, in first-seen order. The pipelines table's `uniqueLocations` (PipelinesTable.tsx:34-37) is this list of its rows. |
| Pipelines.UniqueStages | src/app/pipelines/PipelinesClient.tsx:50-52 | The same, for stages; also the table's `uniqueStages` (PipelinesTable.tsx:39-42). |
| Pipelines.UniqueStatuses | src/app/pipelines/PipelinesClient.tsx:55-57 | The same, for statuses. |
| Pipelines.StatusesKeepSpelling | src/app/pipelines/PipelinesClient.tsx:55-57 | "Open" and "open" are listed as two statuses. |
| Pipelines.LocationMetricsOf | src/app/pipelines/PipelinesClient.tsx:85-139 | With a location: at most one segment, present iff the location is known. Without one: one per unique location, in order. Each has the metrics of its filtered records. |
| Pipelines.SegmentEntry | src/app/pipelines/PipelinesClient.tsx:114-138 | The `.map` callback over a segment: its location and the metrics of its records. |
| Pipelines.ComputeLocationMetrics | src/app/pipelines/PipelinesClient.tsx:85-139 | Building the segments and mapping each one to its entry computes `LocationMetricsOf`. |
| Pipelines.ComputeSegmentEntries | src/app/pipelines/PipelinesClient.tsx:114-139 | The `.map` over the locations gives one entry per segment, in order. |
| Pipelines.SegmentShape | src/app/pipelines/PipelinesClient.tsx:104-106 | Each segment's `pipelinesByLocation` is empty or `{location: total}`, and open + won is bounded by the segment total. |
| Pipelines.RowsAtLocationShape | src/app/pipelines/PipelinesClient.tsx:115-133 | The metrics of the records at one location have a location map that is empty or `{loc: total}`, and open + won within the total. |
| Pipelines.SelectedSegment | src/app/pipelines/PipelinesClient.tsx:85-113 | With a location filter: the segment exists iff the location is known, its total is the global total, and its metrics are the global ones. |
| Pipelines.SegmentTotalIsRows | src/app/pipelines/PipelinesClient.tsx:114-139 | The entries' totals add up to the rows of the segments they were built from. |
| Pipelines.KeptAtSelectedLocation | src/app/pipelines/PipelinesClient.tsx:36 | With a location filter, every filtered record is one of the records and has exactly that location. |
| Pipelines.SegmentTotals | src/app/pipelines/PipelinesClient.tsx:114-139 | Without a location filter: one segment per unique location, and the totals add up to the filtered records that have a location. |
| AppointmentsTable.FieldContains | src/app/components/tables/AppointmentsTable.tsx:58 | `field?.toLowerCase().includes(query.toLowerCase())`: false for a null field. |
| AppointmentsTable.Matches | src/app/components/tables/AppointmentsTable.tsx:57-64 | The `data.filter` callback: case-insensitive name and title, exact location, status, stage and campaign type, each only when set. |
| AppointmentsTable.FilteredData | src/app/components/tables/AppointmentsTable.tsx:56-67 | `filteredData`: the rows that match, in their original order. |
| AppointmentsTable.FilteredDataShape | src/app/components/tables/AppointmentsTable.tsx:56-67 | An order-preserving subsequence of the data, and all of it when every filter is empty. |
| AppointmentsTable.FilteredDataMembers | src/app/components/tables/AppointmentsTable.tsx:57-65 | A row is kept iff it matches. Kept rows contain the name and title queries ignoring case, and equal the other four criteria exactly. |
| AppointmentsTable.NameCriterion | src/app/components/tables/AppointmentsTable.tsx:58 | A non-empty name query keeps a row iff its name contains the query ignoring case and the rest passes. A row with no name is dropped. |
| AppointmentsTable.TitleCriterion | src/app/components/tables/AppointmentsTable.tsx:60 | The same for the calendar title. |
| AppointmentsTable.NameQueryIgnoresCase | src/app/components/tables/AppointmentsTable.tsx:58 | Lower-casing the name query does not change which rows are kept. |
| AppointmentsTable.MoreCriteriaFewerRows | src/app/components/tables/AppointmentsTable.tsx:57-65 | Adding criteria never adds rows. |
| AppointmentsTable.UniqueLocations | src/app/components/tables/AppointmentsTable.tsx:36-39 | Distinct, non-empty, exactly the values present, in first-seen order. |
| AppointmentsTable.UniqueStatuses | src/app/components/tables/AppointmentsTable.tsx:41-44 | The same, for calendar statuses. |
| AppointmentsTable.UniqueStages | src/app/components/tables/AppointmentsTable.tsx:46-49 | The same, for current stages. |
| AppointmentsTable.UniqueTypes | src/app/components/tables/AppointmentsTable.tsx:51-54 | The same, for campaign types. |
| ContactsTable.FieldContains | src/app/components/tables/ContactsTable.tsx:47-48 | `field?.toLowerCase().includes(query.toLowerCase())`: false for a null field. |
| ContactsTable.PhoneContains | src/app/components/tables/ContactsTable.tsx:49 | `phone?.includes(query)`: case-sensitive, false for a null phone. |
| ContactsTable.Matches | src/app/components/tables/ContactsTable.tsx:46-52 | The `data.filter` callback: case-insensitive name and email, case-sensitive phone, exact location and country, each only when set. |
| ContactsTable.FilteredData | src/app/components/tables/ContactsTable.tsx:45-55 | `filteredData`: the rows that match, in their original order. |
| ContactsTable.FilteredDataShape | src/app/components/tables/ContactsTable.tsx:45-55 | An order-preserving subsequence, and all contacts when every filter is empty. |
| ContactsTable.FilteredDataMembers | src/app/components/tables/ContactsTable.tsx:46-53 | A row is kept iff it matches. Kept rows contain name and email ignoring case and phone exactly as typed, and equal location and country. |
| ContactsTable.NullFieldDropped | src/app/components/tables/ContactsTable.tsx:47-49 | A null name, email or phone fails its non-empty filter. |
| ContactsTable.PhoneIsCaseSensitive | src/app/components/tables/ContactsTable.tsx:49 | The same text "Ana" passes the name query "an" but fails the phone query "an". |
| ContactsTable.EmailCriterion | src/app/components/tables/ContactsTable.tsx:48 | A non-empty email query keeps a row iff the email contains it ignoring case and the rest passes. |
| ContactsTable.MoreCriteriaFewerRows | src/app/components/tables/ContactsTable.tsx:46-53 | Adding criteria never adds rows. |
| ContactsTable.UniqueLocations | src/app/components/tables/ContactsTable.tsx:35-38 | Distinct, non-empty, exactly the values present, in first-seen order. |
| ContactsTable.UniqueCountries | src/app/components/tables/ContactsTable.tsx:40-43 | The same, for countries. |
| LocationsTable.Matches | src/app/components/tables/LocationsTable.tsx:55-60 | The `data.filter` callback: exact location name, city, state and country, each only when set. |
| LocationsTable.FilteredData | src/app/components/tables/LocationsTable.tsx:54-63 | `filteredData`: the rows that match, in their original order. |
| LocationsTable.FilteredDataShape | src/app/components/tables/LocationsTable.tsx:54-63 | An order-preserving subsequence, and all rows when every criterion is empty. |
| LocationsTable.FilteredDataExact | src/app/components/tables/LocationsTable.tsx:55-61 | Every kept row equals each non-empty criterion, and every dropped row differs on at least one of them. |
| LocationsTable.MoreCriteriaFewerRows | src/app/components/tables/LocationsTable.tsx:55-61 | Adding criteria never adds rows. |
| LocationsTable.UniqueLocations | src/app/components/tables/LocationsTable.tsx:34-37 | Distinct, non-empty, exactly the values present, in first-seen order. |
| LocationsTable.UniqueCities | src/app/components/tables/LocationsTable.tsx:39-42 | The same, for cities. |
| LocationsTable.UniqueStates | src/app/components/tables/LocationsTable.tsx:44-47 | The same, for states. |
| LocationsTable.UniqueCountries | src/app/components/tables/LocationsTable.tsx:49-52 | The same, for countries. |
| OpportunitiesTable.TableMatches | src/app/components/tables/OpportunitiesTable.tsx:51-57 | The table's `data.filter` callback, written from its own lines: exact location, stage and type, and the two date bounds on `date_created`. |
| OpportunitiesTable.FilteredData | src/app/components/tables/OpportunitiesTable.tsx:50-60 | `filteredData`: the rows that match, in their original order. |
| OpportunitiesTable.SameRowsAsSummary | src/app/components/tables/OpportunitiesTable.tsx:51-57 | For the same data and criteria, the table keeps exactly the rows the opportunities summary keeps. |
| OpportunitiesTable.FilteredDataShape | src/app/components/tables/OpportunitiesTable.tsx:50-60 | An order-preserving subsequence, and all rows when every criterion is empty. |
| OpportunitiesTable.UndatedNeverDateExcluded | src/app/components/tables/OpportunitiesTable.tsx:55-56 | A row with no `date_created` is never excluded by the date bounds. |
| PipelinesTable.TableMatches | src/app/components/tables/PipelinesTable.tsx:45-50 | The table's `data.filter` callback: exact location and stage, and the two date bounds on `created_at`. |
| PipelinesTable.FilteredData | src/app/components/tables/PipelinesTable.tsx:44-53 | `filteredData`: the rows that match, in their original order. |
| PipelinesTable.FilteredDataShape | src/app/components/tables/PipelinesTable.tsx:44-53 | An order-preserving subsequence, and all rows when every criterion is empty. |
| PipelinesTable.FilteredDataMembers | src/app/components/tables/PipelinesTable.tsx:46-47 | A row is kept iff it matches, and kept rows equal the location and stage criteria exactly. |
| PipelinesTable.UndatedNeverDateExcluded | src/app/components/tables/PipelinesTable.tsx:48-49 | A row with no `created_at` is never excluded by the date bounds. |
| PipelinesTable.AgreesWithSummaryWhenDatesCoincide | src/app/components/tables/PipelinesTable.tsx:48-49 | When every row's `created_at` equals its `date_created`, the table keeps what the summary (with no status filter) keeps. |
| PipelinesTable.CreatedAtDecides | src/app/components/tables/PipelinesTable.tsx:48 | A row created just before the start date but dated on it is dropped by the table and kept by the summary. |

## Left out

- Data fetching (the `page.tsx` files) is I/O. The loaded records and the contact creation dates are inputs; each creation date is given as the `Date` made of it, and a contact without one is absent from the map.
- Rendering, table sorting and pagination, the layout and the filter widgets are presentation. A widget's `{ ...filters, [key]: value }` is a datatype update of the filter record.
- `new Date(timestamp)` on the records' ISO timestamps is not modelled: each timestamp is given as the `Instant` it denotes, or as absent when the field is null or empty.
- `new Date("YYYY-MM-DD")` is modelled only for strings of exactly that shape; other spellings are Invalid here, though engines may parse some of them.
- A day past the end of its month in an ISO date string carries into the next month here. Engines differ on that input.
- Local time is one fixed offset `tz` from UTC; daylight-saving changes are not modelled.
- `Number(...)` in `parseLocalDate` is modelled on runs of ASCII digits (the empty run being 0); signs, spaces, exponents and other spellings are NaN here.
- Numbers are exact integers and reals, not IEEE-754 doubles, so rounding errors of floating-point division are not modelled.
- `toLowerCase` is the ASCII mapping; other Unicode case mappings are not modelled.
- `Object.values` lists integer-like keys first in JavaScript. The model keeps insertion order; the average over the values does not depend on their order.
- The percentage badges computed while rendering are presentation.
- src/app/types/contacts.ts and src/app/types/locations.ts are not part of this model; the contact and location records hold the fields the tables read.
- Grouping.Bump, Grouping.GroupCountsSnoc, Grouping.CountByKey, Calls.ResponseTimesByContact: the group maps and `responseTimesByContact` are plain `{}` objects in the source, and the model assumes no key (a stage, pipeline, campaign type, location or contact id) is the name of an `Object.prototype` property. For such a key the source behaves otherwise. With `constructor` or `toString`, `m[k]` reads the inherited function, which is truthy, so `(m[k] || 0) + 1` stores a string. An assignment to `__proto__` adds no key at all. At CallsClient.tsx:137-140, a contact id `constructor` or `__proto__` skips the creation of the list, and `.push` then throws a TypeError.
- Calls.StartOnlyRule, Calls.EndOnlyRule, Calls.BothDatesRule: stated for call times within the valid `Date` range, about 273,000 years around 1970.
- Calls.AvgResponseTimePositive: `avgResponseTime` is 0 when no call has a positive delta, but not only then. A per-contact mean under 500 ms also rounds to 0, so the "iff" holds only in the direction stated by Calls.NoResponsesNoResponseTime.
