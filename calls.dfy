/**
 * The calls summary view: the call filter with its day-granularity date window, the
 * global call metrics, the per-contact response times and the per-location segments.
 */
module Calls {
  import opened Options
  import opened Sequences
  import opened Grouping
  import opened Segmenter
  import opened Rounding
  import opened Dates

  /**
   * A call record. A timestamp is `None` when the record holds no time (null or empty) and
   * `Some(d)` with `d` the `Date` that `new Date(...)` makes of the text it holds.
   */
  datatype Call = Call(
    idContact: Option<string>,
    locationName: Option<string>,
    phoneStartTime: Option<Instant>,
    phoneEndTime: Option<Instant>,
    phoneDuration: Option<int>,
    phoneCallStatus: Option<string>,
    phoneDirection: Option<string>)

  /** The three filter inputs; the dates are the strings of `<input type="date">`. */
  datatype CallFilters = CallFilters(location: string, startDate: string, endDate: string)

  // ---------------------------------------------------------------------------------------
  // Time units

  datatype TimeUnit = Seg | Min | Hrs | Dias

  /**
   * `convertTime(seconds)`: seconds in the chosen unit, rounded to the nearest whole unit
   * with halves rounded up.
   */
  function ConvertTime(unit: TimeUnit, seconds: int): (r: int)
    ensures unit == Seg ==> r == seconds
    ensures unit == Min ==> 60 * r - 30 <= seconds < 60 * r + 30
    ensures unit == Hrs ==> 3600 * r - 1800 <= seconds < 3600 * r + 1800
    ensures unit == Dias ==> 86400 * r - 43200 <= seconds < 86400 * r + 43200
  {
    match unit
    case Min => Round(seconds as real / 60.0)
    case Hrs => Round(seconds as real / 3600.0)
    case Dias => Round(seconds as real / 86400.0)
    case Seg => seconds
  }

  /** More seconds never show as fewer units. */
  lemma ConvertTimeMonotone(unit: TimeUnit, s: int, t: int)
    requires s <= t
    ensures ConvertTime(unit, s) <= ConvertTime(unit, t)
  {
    match unit
    case Min => RoundMonotone(s as real / 60.0, t as real / 60.0);
    case Hrs => RoundMonotone(s as real / 3600.0, t as real / 3600.0);
    case Dias => RoundMonotone(s as real / 86400.0, t as real / 86400.0);
    case Seg =>
  }

  /** A whole number of units converts back to itself. */
  lemma ConvertTimeExact(n: int)
    ensures ConvertTime(Min, 60 * n) == n
    ensures ConvertTime(Hrs, 3600 * n) == n
    ensures ConvertTime(Dias, 86400 * n) == n
  {
  }

  /** `getTimeUnitLabel()`. */
  function UnitLabel(unit: TimeUnit): (name: string)
    ensures unit == Dias <==> name == "días"
    ensures unit == Seg <==> name == "seg"
  {
    match unit
    case Min => "min"
    case Hrs => "hrs"
    case Dias => "días"
    case Seg => "seg"
  }

  /** Every unit has its own label. */
  lemma UnitLabelsDistinct(u: TimeUnit, v: TimeUnit)
    ensures UnitLabel(u) == UnitLabel(v) <==> u == v
  {
  }

  // ---------------------------------------------------------------------------------------
  // The call filter

  /** `callStart` once set to midnight: `null` when the call has no start time. */
  function StartDay(call: Call, tz: int): Option<Instant> {
    if call.phoneStartTime.Some? then Some(SetMidnight(call.phoneStartTime.value, tz)) else None
  }

  /** `callEnd` once set to midnight: the end time, or the start time when there is none. */
  function EndDay(call: Call, tz: int): Option<Instant> {
    if call.phoneEndTime.Some? then Some(SetMidnight(call.phoneEndTime.value, tz)) else StartDay(call, tz)
  }

  /** `rangeStart` / `rangeEnd`: the parsed filter date set to midnight, `null` when empty. */
  function RangeDay(date: string, tz: int): Option<Instant> {
    if date != "" then Some(SetMidnight(ParseLocalDate(date, tz), tz)) else None
  }

  /** The three date rules; a `Date` object counts as present even when it is invalid. */
  predicate KeptByDates(callStart: Option<Instant>, callEnd: Option<Instant>,
                        rangeStart: Option<Instant>, rangeEnd: Option<Instant>)
  {
    !(rangeStart.Some? && rangeEnd.None? && callStart.Some? && Before(callStart.value, rangeStart.value))
    && !(rangeStart.None? && rangeEnd.Some? && callEnd.Some? && Before(rangeEnd.value, callEnd.value))
    && !(rangeStart.Some? && rangeEnd.Some? && callStart.Some? && callEnd.Some?
         && (Before(callStart.value, rangeStart.value) || Before(rangeEnd.value, callEnd.value)))
  }

  /** The date part of the filter, applied only when some filter date is set. */
  predicate DatesKeep(call: Call, filters: CallFilters, tz: int) {
    (filters.startDate == "" && filters.endDate == "")
    || KeptByDates(StartDay(call, tz), EndDay(call, tz), RangeDay(filters.startDate, tz), RangeDay(filters.endDate, tz))
  }

  /** The callback of `calls.filter(...)`. */
  predicate CallMatches(call: Call, filters: CallFilters, tz: int) {
    (filters.location == "" || call.locationName == Some(filters.location))
    && DatesKeep(call, filters, tz)
  }

  /**
   * The filter callback as written: it builds `Date` objects, lets `callEnd` alias
   * `callStart` when the call has no end time, and sets all four to midnight in place.
   */
  method KeepCall(call: Call, filters: CallFilters, tz: int) returns (keep: bool)
    ensures keep == CallMatches(call, filters, tz)
  {
    if filters.location != "" && call.locationName != Some(filters.location) {
      return false;
    }
    if filters.startDate != "" || filters.endDate != "" {
      var callStart: JsDate? := null;
      if call.phoneStartTime.Some? {
        callStart := new JsDate(call.phoneStartTime.value);
      }
      var callEnd: JsDate? := callStart;
      if call.phoneEndTime.Some? {
        callEnd := new JsDate(call.phoneEndTime.value);
      }
      var rangeStart: JsDate? := null;
      if filters.startDate != "" {
        rangeStart := new JsDate(ParseLocalDate(filters.startDate, tz));
      }
      var rangeEnd: JsDate? := null;
      if filters.endDate != "" {
        rangeEnd := new JsDate(ParseLocalDate(filters.endDate, tz));
      }

      if callStart != null {
        callStart.SetHoursToMidnight(tz);
      }
      if callEnd != null {
        if callEnd == callStart {
          SetMidnightIdempotent(call.phoneStartTime.value, tz);
        }
        callEnd.SetHoursToMidnight(tz);
      }
      if rangeStart != null {
        rangeStart.SetHoursToMidnight(tz);
      }
      if rangeEnd != null {
        rangeEnd.SetHoursToMidnight(tz);
      }
      assert (callStart != null) == StartDay(call, tz).Some?;
      assert callStart != null ==> callStart.time == StartDay(call, tz).value;
      assert (callEnd != null) == EndDay(call, tz).Some?;
      assert callEnd != null ==> callEnd.time == EndDay(call, tz).value;
      assert (rangeStart != null) == RangeDay(filters.startDate, tz).Some?;
      assert rangeStart != null ==> rangeStart.time == RangeDay(filters.startDate, tz).value;
      assert (rangeEnd != null) == RangeDay(filters.endDate, tz).Some?;
      assert rangeEnd != null ==> rangeEnd.time == RangeDay(filters.endDate, tz).value;

      if rangeStart != null && rangeEnd == null && callStart != null {
        if Before(callStart.time, rangeStart.time) {
          return false;
        }
      }
      if rangeStart == null && rangeEnd != null && callEnd != null {
        if Before(rangeEnd.time, callEnd.time) {
          return false;
        }
      }
      if rangeStart != null && rangeEnd != null && callStart != null && callEnd != null {
        if Before(callStart.time, rangeStart.time) || Before(rangeEnd.time, callEnd.time) {
          return false;
        }
      }
    }
    return true;
  }

  /** `filteredCalls`. */
  function FilterCalls(calls: seq<Call>, filters: CallFilters, tz: int): seq<Call> {
    Filter(calls, c => CallMatches(c, filters, tz))
  }

  /** The filtered calls keep their order and come from `calls`; with no criteria they are all of them. */
  lemma FilterCallsShape(calls: seq<Call>, filters: CallFilters, tz: int)
    ensures Subseq(FilterCalls(calls, filters, tz), calls)
    ensures filters == CallFilters("", "", "") ==> FilterCalls(calls, filters, tz) == calls
  {
    FilterSubseq(calls, c => CallMatches(c, filters, tz));
  }

  /** A call is kept iff it matches; a location filter keeps only calls at that location. */
  lemma FilterCallsMembers(calls: seq<Call>, filters: CallFilters, tz: int)
    ensures forall i :: 0 <= i < |calls| ==>
      (calls[i] in FilterCalls(calls, filters, tz) <==> CallMatches(calls[i], filters, tz))
    ensures filters.location != "" ==> forall i :: 0 <= i < |FilterCalls(calls, filters, tz)| ==>
      FilterCalls(calls, filters, tz)[i].locationName == Some(filters.location)
  {
    var kept := FilterCalls(calls, filters, tz);
    forall i | 0 <= i < |kept| ensures CallMatches(kept[i], filters, tz) {
      assert kept[i] in kept;
    }
  }

  // ---------------------------------------------------------------------------------------
  // The date rules in calendar days

  /** The call's timestamps lie at least a day inside the range of valid time values. */
  predicate TimesInRange(call: Call) {
    (call.phoneStartTime.Some? && call.phoneStartTime.value.At? ==>
      -MaxTimeValue + MsPerDay <= call.phoneStartTime.value.ms <= MaxTimeValue)
    && (call.phoneEndTime.Some? && call.phoneEndTime.value.At? ==>
      -MaxTimeValue + MsPerDay <= call.phoneEndTime.value.ms <= MaxTimeValue)
  }

  /** Local day of the call's start, when it has a valid one. */
  function StartLocalDay(call: Call, tz: int): Option<int> {
    if call.phoneStartTime.Some? && call.phoneStartTime.value.At?
    then Some(LocalDay(call.phoneStartTime.value.ms, tz)) else None
  }

  /** Local day of the call's end, falling back to its start when it has no end time. */
  function EndLocalDay(call: Call, tz: int): Option<int> {
    if call.phoneEndTime.Some? then
      if call.phoneEndTime.value.At? then Some(LocalDay(call.phoneEndTime.value.ms, tz)) else None
    else StartLocalDay(call, tz)
  }

  lemma MidnightOf(d: Instant, tz: int)
    requires d.At? ==> -MaxTimeValue + MsPerDay <= d.ms <= MaxTimeValue
    ensures SetMidnight(d, tz) == if d.At? then At(LocalDay(d.ms, tz) * MsPerDay - tz) else Invalid
  {
  }

  lemma CallDays(call: Call, tz: int)
    requires TimesInRange(call)
    ensures StartDay(call, tz).Some? <==> call.phoneStartTime.Some?
    ensures StartDay(call, tz).Some? ==>
      StartDay(call, tz).value == if StartLocalDay(call, tz).Some? then At(StartLocalDay(call, tz).value * MsPerDay - tz) else Invalid
    ensures EndDay(call, tz).Some? <==> call.phoneEndTime.Some? || call.phoneStartTime.Some?
    ensures EndDay(call, tz).Some? ==>
      EndDay(call, tz).value == if EndLocalDay(call, tz).Some? then At(EndLocalDay(call, tz).value * MsPerDay - tz) else Invalid
  {
    if call.phoneStartTime.Some? {
      MidnightOf(call.phoneStartTime.value, tz);
    }
    if call.phoneEndTime.Some? {
      MidnightOf(call.phoneEndTime.value, tz);
    }
  }

  /** A valid filter date stands for the local midnight that starts that date. */
  lemma RangeDayFormatted(y: int, m: int, d: int, tz: int)
    requires 100 <= y <= 9999 && ValidDate(y, m, d)
    requires -MsPerDay < tz < MsPerDay
    ensures RangeDay(FormatDate(y, m, d), tz) == Some(At(DayNumber(y, m, d) * MsPerDay - tz))
  {
    ParseLocalDateFormatted(y, m, d, tz);
    ParseLocalDateIsMidnight(FormatDate(y, m, d), tz);
  }

  /** Start date only: a call is dropped iff it starts on an earlier local day. */
  lemma StartOnlyRule(call: Call, location: string, y: int, m: int, d: int, tz: int)
    requires 100 <= y <= 9999 && ValidDate(y, m, d)
    requires -MsPerDay < tz < MsPerDay && TimesInRange(call)
    ensures DatesKeep(call, CallFilters(location, FormatDate(y, m, d), ""), tz) <==>
      !(StartLocalDay(call, tz).Some? && StartLocalDay(call, tz).value < DayNumber(y, m, d))
  {
    RangeDayFormatted(y, m, d, tz);
    CallDays(call, tz);
  }

  /** End date only: a call is dropped iff it ends (or, without an end, starts) on a later local day. */
  lemma EndOnlyRule(call: Call, location: string, y: int, m: int, d: int, tz: int)
    requires 100 <= y <= 9999 && ValidDate(y, m, d)
    requires -MsPerDay < tz < MsPerDay && TimesInRange(call)
    ensures DatesKeep(call, CallFilters(location, "", FormatDate(y, m, d)), tz) <==>
      !(EndLocalDay(call, tz).Some? && EndLocalDay(call, tz).value > DayNumber(y, m, d))
  {
    RangeDayFormatted(y, m, d, tz);
    CallDays(call, tz);
  }

  /**
   * Both dates: a call is dropped iff it has a start time and either its start day is
   * before the first date or its end day is after the second.
   */
  lemma BothDatesRule(call: Call, location: string, y1: int, m1: int, d1: int, y2: int, m2: int, d2: int, tz: int)
    requires 100 <= y1 <= 9999 && ValidDate(y1, m1, d1)
    requires 100 <= y2 <= 9999 && ValidDate(y2, m2, d2)
    requires -MsPerDay < tz < MsPerDay && TimesInRange(call)
    ensures DatesKeep(call, CallFilters(location, FormatDate(y1, m1, d1), FormatDate(y2, m2, d2)), tz) <==>
      !(call.phoneStartTime.Some?
        && ((StartLocalDay(call, tz).Some? && StartLocalDay(call, tz).value < DayNumber(y1, m1, d1))
            || (EndLocalDay(call, tz).Some? && EndLocalDay(call, tz).value > DayNumber(y2, m2, d2))))
  {
    RangeDayFormatted(y1, m1, d1, tz);
    RangeDayFormatted(y2, m2, d2, tz);
    CallDays(call, tz);
  }

  /** A call with neither a start nor an end time passes every date filter. */
  lemma UntimedCallKept(call: Call, filters: CallFilters, tz: int)
    requires call.phoneStartTime.None? && call.phoneEndTime.None?
    ensures DatesKeep(call, filters, tz)
  {
  }

  // ---------------------------------------------------------------------------------------
  // Call metrics

  datatype CallMetrics = CallMetrics(
    totalCalls: nat,
    totalDuration: int,
    avgDuration: int,
    avgResponseTime: int,
    receivedCalls: nat,
    answeredCalls: nat,
    madeCalls: nat,
    avgCallsPerLead: int)

  /** `call.phone_duration || 0`. */
  function Duration(call: Call): int {
    if call.phoneDuration.Some? then call.phoneDuration.value else 0
  }

  predicate Inbound(call: Call) {
    call.phoneDirection == Some("inbound")
  }

  predicate Answered(call: Call) {
    Inbound(call) && call.phoneCallStatus == Some("completed")
  }

  predicate Outbound(call: Call) {
    call.phoneDirection == Some("outbound")
  }

  function TotalDuration(calls: seq<Call>): int {
    SumBy(calls, Duration)
  }

  /** `Math.round(totalDuration / totalCalls)`, or 0 for no calls. */
  function AvgDuration(calls: seq<Call>): int {
    if |calls| > 0 then Round(TotalDuration(calls) as real / |calls| as real) else 0
  }

  /** The distinct truthy contact ids of the calls (`new Set(...filter(Boolean))`). */
  function Contacts(calls: seq<Call>): seq<string> {
    DistinctValues(calls, ContactId)
  }

  function ContactId(call: Call): Option<string> {
    call.idContact
  }

  /** `Math.round(totalCalls / uniqueContacts.size)`, or 0 without contacts. */
  function AvgCallsPerLead(calls: seq<Call>): int {
    if |Contacts(calls)| > 0 then Round(|calls| as real / |Contacts(calls)| as real) else 0
  }

  // ---------------------------------------------------------------------------------------
  // Response times

  /**
   * The delay from a contact's creation to the start of a call to it, when the call has a
   * truthy contact id, the contact a creation date, the call a start time, and the
   * difference of the two time values is a positive number (NaN is not).
   */
  function ResponseDelta(call: Call, creation: map<string, Instant>): Option<int> {
    if Present(call.idContact) && call.idContact.value in creation && call.phoneStartTime.Some?
       && call.phoneStartTime.value.At? && creation[call.idContact.value].At?
       && call.phoneStartTime.value.ms - creation[call.idContact.value].ms > 0
    then Some(call.phoneStartTime.value.ms - creation[call.idContact.value].ms)
    else None
  }

  /** The contact id under which a call files a response time, if it files one. */
  function ResponseKeys(calls: seq<Call>, creation: map<string, Instant>): seq<Option<string>> {
    MapSeq(calls, (c: Call) => if ResponseDelta(c, creation).Some? then c.idContact else None)
  }

  /** The keys of `responseTimesByContact`, in insertion order. */
  function Responders(calls: seq<Call>, creation: map<string, Instant>): seq<string> {
    Unique(ResponseKeys(calls, creation))
  }

  /** `responseTimesByContact[id]`: the positive delays of the calls to `id`, in call order. */
  function DeltasOf(calls: seq<Call>, creation: map<string, Instant>, id: string): (ds: seq<int>)
    ensures forall j :: 0 <= j < |ds| ==> ds[j] > 0
    decreases |calls|
  {
    if calls == [] then []
    else
      var init, last := calls[..|calls| - 1], calls[|calls| - 1];
      var rest := DeltasOf(init, creation, id);
      var d := ResponseDelta(last, creation);
      if d.Some? && last.idContact == Some(id) then rest + [d.value] else rest
  }

  function Total(xs: seq<int>): int
    decreases |xs|
  {
    if xs == [] then 0 else Total(xs[..|xs| - 1]) + xs[|xs| - 1]
  }

  /** `times.reduce((s, t) => s + t, 0) / times.length`. */
  function Mean(xs: seq<int>): real {
    if |xs| == 0 then 0.0 else Total(xs) as real / |xs| as real
  }

  function SumReals(xs: seq<real>): real
    decreases |xs|
  {
    if xs == [] then 0.0 else SumReals(xs[..|xs| - 1]) + xs[|xs| - 1]
  }

  /** `Math.round(mean of the per-contact means / 1000)`, or 0 when there is none. */
  function RoundedSeconds(means: seq<real>): int {
    if |means| > 0 then Round(SumReals(means) / |means| as real / 1000.0) else 0
  }

  /** The mean delay of one contact: never negative, the delays being positive. */
  function MeanDelay(calls: seq<Call>, creation: map<string, Instant>, id: string): (r: real)
    ensures r >= 0.0
  {
    var ds := DeltasOf(calls, creation, id);
    TotalPositive(ds);
    Mean(ds)
  }

  /** `avgResponseTimes`: one mean delay per responding contact, in insertion order. */
  function ContactMeans(calls: seq<Call>, creation: map<string, Instant>): (means: seq<real>)
    ensures forall i :: 0 <= i < |means| ==> means[i] >= 0.0
  {
    MapSeq(Responders(calls, creation), id => MeanDelay(calls, creation, id))
  }

  /** `avgResponseTime`, in seconds. */
  function AvgResponseTime(calls: seq<Call>, creation: map<string, Instant>): (r: int)
    ensures r >= 0
  {
    var means := ContactMeans(calls, creation);
    SumRealsNonNegative(means);
    RoundedSeconds(means)
  }

  lemma {:induction false} TotalPositive(xs: seq<int>)
    requires forall j :: 0 <= j < |xs| ==> xs[j] > 0
    ensures Total(xs) >= |xs|
    decreases |xs|
  {
    if xs != [] {
      TotalPositive(xs[..|xs| - 1]);
    }
  }

  lemma {:induction false} SumRealsNonNegative(xs: seq<real>)
    requires forall i :: 0 <= i < |xs| ==> xs[i] >= 0.0
    ensures SumReals(xs) >= 0.0
    decreases |xs|
  {
    if xs != [] {
      SumRealsNonNegative(xs[..|xs| - 1]);
    }
  }

  lemma ResponseKeysSnoc(calls: seq<Call>, call: Call, creation: map<string, Instant>)
    ensures ResponseKeys(calls + [call], creation) ==
      ResponseKeys(calls, creation) + [if ResponseDelta(call, creation).Some? then call.idContact else None]
  {
  }

  lemma RespondersSnoc(calls: seq<Call>, call: Call, creation: map<string, Instant>)
    ensures Responders(calls + [call], creation) ==
      var before := Responders(calls, creation);
      if ResponseDelta(call, creation).Some? && call.idContact.value !in before
      then before + [call.idContact.value] else before
  {
    var vs := ResponseKeys(calls, creation);
    ResponseKeysSnoc(calls, call, creation);
    var v := if ResponseDelta(call, creation).Some? then call.idContact else None;
    assert (vs + [v])[..|vs|] == vs;
  }

  /**
   * The `forEach` that fills `responseTimesByContact`: the object's keys in insertion order
   * and the array of delays pushed under each.
   */
  method ResponseTimesByContact(calls: seq<Call>, creation: map<string, Instant>)
    returns (order: seq<string>, times: map<string, seq<int>>)
    ensures order == Responders(calls, creation)
    ensures forall id :: id in times <==> id in order
    ensures forall id :: id in times ==> times[id] == DeltasOf(calls, creation, id)
  {
    order, times := [], map[];
    for i := 0 to |calls|
      invariant order == Responders(calls[..i], creation)
      invariant forall id :: id in times <==> id in order
      invariant forall id :: id in times ==> times[id] == DeltasOf(calls[..i], creation, id)
    {
      PrefixSnoc(calls, i);
      order, times := FileResponse(calls[..i], calls[i], creation, order, times);
    }
    assert calls[..|calls|] == calls;
  }

  /** One step of that `forEach`: the call pushes its delay, if it has one, under its contact. */
  method FileResponse(done: seq<Call>, call: Call, creation: map<string, Instant>,
                      order: seq<string>, times: map<string, seq<int>>)
    returns (order': seq<string>, times': map<string, seq<int>>)
    requires order == Responders(done, creation)
    requires forall id :: id in times <==> id in order
    requires forall id :: id in times ==> times[id] == DeltasOf(done, creation, id)
    ensures order' == Responders(done + [call], creation)
    ensures forall id :: id in times' <==> id in order'
    ensures forall id :: id in times' ==> times'[id] == DeltasOf(done + [call], creation, id)
  {
    order', times' := order, times;
    if call.idContact.Some? && call.idContact.value != "" {
      var id := call.idContact.value;
      if id in creation && call.phoneStartTime.Some? {
        var start, created := call.phoneStartTime.value, creation[id];
        if start.At? && created.At? && start.ms - created.ms > 0 {
          FiledStep(done, call, creation);
          if id !in times' {
            DeltasOfNonResponder(done, creation, id);
            times' := times'[id := []];
            order' := order' + [id];
          }
          times' := times'[id := times'[id] + [start.ms - created.ms]];
        } else {
          UnfiledStep(done, call, creation);
        }
      } else {
        UnfiledStep(done, call, creation);
      }
    } else {
      UnfiledStep(done, call, creation);
    }
  }

  /** A call without a response time leaves the responders and their delays as they were. */
  lemma UnfiledStep(done: seq<Call>, call: Call, creation: map<string, Instant>)
    requires ResponseDelta(call, creation).None?
    ensures Responders(done + [call], creation) == Responders(done, creation)
    ensures forall id :: DeltasOf(done + [call], creation, id) == DeltasOf(done, creation, id)
  {
    RespondersSnoc(done, call, creation);
    forall id {
      DeltasOfSnoc(done, call, creation, id);
    }
  }

  /** A call with a response time files it under its contact, a new responder or not. */
  lemma FiledStep(done: seq<Call>, call: Call, creation: map<string, Instant>)
    requires ResponseDelta(call, creation).Some?
    ensures var id := call.idContact.value;
      var before := Responders(done, creation);
      Responders(done + [call], creation) == if id in before then before else before + [id]
    ensures forall other :: other != call.idContact.value ==>
      DeltasOf(done + [call], creation, other) == DeltasOf(done, creation, other)
    ensures DeltasOf(done + [call], creation, call.idContact.value)
      == DeltasOf(done, creation, call.idContact.value) + [ResponseDelta(call, creation).value]
  {
    RespondersSnoc(done, call, creation);
    forall id {
      DeltasOfSnoc(done, call, creation, id);
    }
  }

  // ---------------------------------------------------------------------------------------
  // Putting the metrics together

  /** The metrics of a list of calls, as the view computes them. */
  function CallMetricsOf(calls: seq<Call>, creation: map<string, Instant>): CallMetrics {
    CallMetrics(
      |calls|,
      TotalDuration(calls),
      AvgDuration(calls),
      AvgResponseTime(calls, creation),
      |Filter(calls, Inbound)|,
      |Filter(calls, Answered)|,
      |Filter(calls, Outbound)|,
      AvgCallsPerLead(calls))
  }

  /**
   * `metrics`: built with its counters and zero averages, then the averages assigned one by
   * one as the view does.
   */
  method ComputeCallMetrics(calls: seq<Call>, creation: map<string, Instant>) returns (m: CallMetrics)
    ensures m == CallMetricsOf(calls, creation)
  {
    m := CallMetrics(|calls|, TotalDuration(calls), 0, 0,
                     |Filter(calls, Inbound)|, |Filter(calls, Answered)|, |Filter(calls, Outbound)|, 0);
    if m.totalCalls > 0 {
      m := m.(avgDuration := Round(m.totalDuration as real / m.totalCalls as real));
    }
    var avgResponseTime := ComputeAvgResponseTime(calls, creation);
    m := m.(avgResponseTime := avgResponseTime);
    var uniqueContacts := Contacts(calls);
    if |uniqueContacts| > 0 {
      m := m.(avgCallsPerLead := Round(m.totalCalls as real / |uniqueContacts| as real));
    }
  }

  /** `avgResponseTime`: the per-contact means of the delays, averaged and rounded to seconds. */
  method ComputeAvgResponseTime(calls: seq<Call>, creation: map<string, Instant>) returns (avg: int)
    ensures avg == AvgResponseTime(calls, creation)
  {
    var order, times := ResponseTimesByContact(calls, creation);
    var means := MapSeq(order, id => if id in times then Mean(times[id]) else 0.0);
    ghost var spec := ContactMeans(calls, creation);
    forall i | 0 <= i < |means| ensures means[i] == spec[i] {
    }
    assert means == spec;
    avg := if |means| > 0 then Round(SumReals(means) / |means| as real / 1000.0) else 0;
  }

  /** Answered calls are received calls, and no call is both received and made. */
  lemma CountersBounded(calls: seq<Call>, creation: map<string, Instant>)
    ensures var m := CallMetricsOf(calls, creation);
      m.answeredCalls <= m.receivedCalls && m.receivedCalls + m.madeCalls <= m.totalCalls
  {
    FilterNarrows(calls, Answered, Inbound);
    SubseqLength(Filter(calls, Answered), Filter(calls, Inbound));
    FilterDisjoint(calls, Inbound, Outbound);
  }

  lemma {:induction false} TotalDurationBounds(calls: seq<Call>, longest: int)
    requires forall i :: 0 <= i < |calls| ==> 0 <= Duration(calls[i]) <= longest
    ensures 0 <= TotalDuration(calls) <= |calls| * longest
    decreases |calls|
  {
    if calls != [] {
      TotalDurationBounds(calls[..|calls| - 1], longest);
      assert TotalDuration(calls) == TotalDuration(calls[..|calls| - 1]) + Duration(calls[|calls| - 1]);
      assert (|calls| - 1) * longest + longest == |calls| * longest;
    }
  }

  /** The average duration lies between 0 and the longest duration. */
  lemma AvgDurationBounds(calls: seq<Call>, longest: int)
    requires forall i :: 0 <= i < |calls| ==> 0 <= Duration(calls[i]) <= longest
    ensures 0 <= AvgDuration(calls) <= (if calls == [] then 0 else longest)
  {
    if calls != [] {
      TotalDurationBounds(calls, longest);
      var n := |calls| as real;
      var t := TotalDuration(calls) as real;
      assert t <= n * longest as real;
      assert t / n <= longest as real;
      RoundBetween(t / n, 0, longest);
    }
  }

  /** With at least one contact, there is at least one call per contact on average. */
  lemma AvgCallsPerLeadBounds(calls: seq<Call>)
    ensures Contacts(calls) == [] ==> AvgCallsPerLead(calls) == 0
    ensures Contacts(calls) != [] ==> 1 <= AvgCallsPerLead(calls) <= |calls|
  {
    var vs := MapSeq(calls, ContactId);
    UniqueLength(vs);
    PresentCountBound(vs);
    if Contacts(calls) != [] {
      var n, k := |calls| as real, |Contacts(calls)| as real;
      QuotientBounds(n, k);
      RoundBetween(n / k, 1, |calls|);
    }
  }

  lemma QuotientBounds(n: real, k: real)
    requires 1.0 <= k <= n
    ensures 1.0 <= n / k <= n
  {
    var q := n / k;
    assert q * k == n;
    assert n <= n * k;
  }

  /** Only responders have delays on file. */
  lemma {:induction false} DeltasOfNonResponder(calls: seq<Call>, creation: map<string, Instant>, id: string)
    requires id !in Responders(calls, creation)
    ensures DeltasOf(calls, creation, id) == []
    decreases |calls|
  {
    if calls != [] {
      var init, last := calls[..|calls| - 1], calls[|calls| - 1];
      assert calls == init + [last];
      RespondersSnoc(init, last, creation);
      DeltasOfNonResponder(init, creation, id);
    }
  }

  lemma DeltasOfSnoc(calls: seq<Call>, call: Call, creation: map<string, Instant>, id: string)
    ensures DeltasOf(calls + [call], creation, id) ==
      if ResponseDelta(call, creation).Some? && call.idContact == Some(id)
      then DeltasOf(calls, creation, id) + [ResponseDelta(call, creation).value]
      else DeltasOf(calls, creation, id)
  {
    assert (calls + [call])[..|calls|] == calls;
  }

  /** Calls that file no response time can be dropped without changing the response metrics. */
  lemma {:induction false} RespondingCallsSuffice(calls: seq<Call>, creation: map<string, Instant>)
    ensures var kept := Filter(calls, (c: Call) => ResponseDelta(c, creation).Some?);
      Responders(kept, creation) == Responders(calls, creation)
      && forall id :: DeltasOf(kept, creation, id) == DeltasOf(calls, creation, id)
    decreases |calls|
  {
    var p := (c: Call) => ResponseDelta(c, creation).Some?;
    if calls == [] {
    } else {
      var init, last := calls[..|calls| - 1], calls[|calls| - 1];
      assert calls == init + [last];
      RespondingCallsSuffice(init, creation);
      var kept := Filter(init, p);
      FilterSnoc(init, last, p);
      RespondersSnoc(init, last, creation);
      if p(last) {
        assert Filter(calls, p) == kept + [last];
        RespondersSnoc(kept, last, creation);
        forall id ensures DeltasOf(kept + [last], creation, id) == DeltasOf(calls, creation, id) {
          DeltasOfSnoc(init, last, creation, id);
          DeltasOfSnoc(kept, last, creation, id);
        }
      } else {
        assert Filter(calls, p) == kept;
        forall id ensures DeltasOf(calls, creation, id) == DeltasOf(init, creation, id) {
          DeltasOfSnoc(init, last, creation, id);
        }
      }
    }
  }

  /** Hence the average response time is that of the calls that file a response time. */
  lemma AvgResponseTimeOfRespondingCalls(calls: seq<Call>, creation: map<string, Instant>)
    ensures AvgResponseTime(Filter(calls, (c: Call) => ResponseDelta(c, creation).Some?), creation)
         == AvgResponseTime(calls, creation)
  {
    var kept := Filter(calls, (c: Call) => ResponseDelta(c, creation).Some?);
    RespondingCallsSuffice(calls, creation);
    assert ContactMeans(kept, creation) == ContactMeans(calls, creation);
  }

  /** Without any call that files a response time, the average response time is 0. */
  lemma {:induction false} NoResponsesNoResponseTime(calls: seq<Call>, creation: map<string, Instant>)
    requires forall i :: 0 <= i < |calls| ==> ResponseDelta(calls[i], creation).None?
    ensures Responders(calls, creation) == []
    ensures AvgResponseTime(calls, creation) == 0
    decreases |calls|
  {
    if calls != [] {
      var init, last := calls[..|calls| - 1], calls[|calls| - 1];
      assert calls == init + [last];
      NoResponsesNoResponseTime(init, creation);
      RespondersSnoc(init, last, creation);
    }
  }

  /**
   * The converse fails: a single call one millisecond after the contact was created files
   * a response time, yet the average rounds to 0 seconds.
   */
  lemma SubSecondResponseRoundsToZero()
    ensures var call := Call(Some("c"), None, Some(At(1)), None, None, None, None);
      var creation := map["c" := At(0)];
      ResponseDelta(call, creation) == Some(1) && AvgResponseTime([call], creation) == 0
  {
    var call := Call(Some("c"), None, Some(At(1)), None, None, None, None);
    var creation := map["c" := At(0)];
    var keys := ResponseKeys([call], creation);
    assert keys == [Some("c")];
    assert keys[..0] == [];
    assert Unique(keys[..0]) == [];
    assert Responders([call], creation) == ["c"];
    assert [call][..0] == [];
    assert DeltasOf([call], creation, "c") == [1];
    assert Total([1]) == 1 by {
      assert [1][..0] == [];
    }
    var means := ContactMeans([call], creation);
    assert means == [1.0];
    assert SumReals(means) == 1.0 by {
      assert means[..0] == [];
    }
  }

  /** The average response time is positive exactly when the mean delay is at least half a second. */
  lemma AvgResponseTimePositive(calls: seq<Call>, creation: map<string, Instant>)
    ensures AvgResponseTime(calls, creation) > 0 <==>
      var means := ContactMeans(calls, creation);
      |means| > 0 && SumReals(means) / |means| as real >= 500.0
  {
  }

  // ---------------------------------------------------------------------------------------
  // Segmenting by location

  datatype LocationMetrics = LocationMetrics(locationName: string, metrics: CallMetrics)

  function CallLocation(call: Call): Option<string> {
    call.locationName
  }

  /** `uniqueLocations`: the distinct truthy locations of all loaded calls, first seen first. */
  function UniqueLocations(calls: seq<Call>): (r: seq<string>)
    ensures NoDuplicates(r)
    ensures forall k :: k in r <==> k != "" && exists i :: 0 <= i < |calls| && CallLocation(calls[i]) == Some(k)
    ensures InFirstSeenOrder(calls, CallLocation, r)
  {
    DistinctValuesFirstSeen(calls, CallLocation);
    DistinctValues(calls, CallLocation)
  }

  /** `locationMetrics`: one entry per segment, labelled `location_name || 'Sin Ubicación'`. */
  function LocationMetricsOf(calls: seq<Call>, filtered: seq<Call>, location: string, creation: map<string, Instant>)
    : (r: seq<LocationMetrics>)
    ensures location != "" ==> |r| <= 1 && (|r| == 1 <==> location in UniqueLocations(calls))
    ensures location != "" ==> forall i :: 0 <= i < |r| ==> r[i].locationName == location
    ensures location == "" ==> |r| == |UniqueLocations(calls)|
    ensures location == "" ==> forall i :: 0 <= i < |r| ==> r[i].locationName == UniqueLocations(calls)[i]
    ensures forall i :: 0 <= i < |r| ==>
      r[i].metrics == CallMetricsOf(WithValue(filtered, CallLocation, r[i].locationName), creation)
  {
    var segs := Segments(calls, filtered, location, CallLocation);
    assert location != "" ==> (Some(location) in MapSeq(calls, CallLocation) <==> location in UniqueLocations(calls));
    MapSeq(segs, EntryOf(creation))
  }

  /** The `.map` callback: a segment's entry, labelled `'Sin Ubicación'` for an empty location name. */
  function EntryOf(creation: map<string, Instant>): Segment<Call> -> LocationMetrics {
    (seg: Segment<Call>) => LocationMetrics(SegmentLabel(seg.location), CallMetricsOf(seg.rows, creation))
  }

  /** `location_name || 'Sin Ubicación'`. */
  function SegmentLabel(location: string): string {
    if location != "" then location else "Sin Ubicación"
  }

  /**
   * The fallback label is never reached: every segment's location is a non-empty name, so
   * each entry is labelled with the location of the calls it counts.
   */
  lemma FallbackLabelUnused(calls: seq<Call>, filtered: seq<Call>, location: string, creation: map<string, Instant>)
    ensures var segs := Segments(calls, filtered, location, CallLocation);
      var r := LocationMetricsOf(calls, filtered, location, creation);
      |r| == |segs| && forall i :: 0 <= i < |r| ==>
        segs[i].location != "" && r[i].locationName == segs[i].location
        && r[i].metrics == CallMetricsOf(segs[i].rows, creation)
  {
    var segs := Segments(calls, filtered, location, CallLocation);
    var r := LocationMetricsOf(calls, filtered, location, creation);
    assert r == MapSeq(segs, EntryOf(creation));
    forall i | 0 <= i < |r|
      ensures segs[i].location != "" && r[i].locationName == segs[i].location
    {
      assert r[i] == EntryOf(creation)(segs[i]);
    }
  }

  function SegmentCalls(segments: seq<LocationMetrics>): int {
    SumBy(segments, (l: LocationMetrics) => l.metrics.totalCalls as int)
  }

  /** Without a location filter, the segments share out the filtered calls that have a location. */
  lemma SegmentTotals(calls: seq<Call>, filtered: seq<Call>, creation: map<string, Instant>)
    requires forall i :: 0 <= i < |filtered| ==> filtered[i] in calls
    ensures SegmentCalls(LocationMetricsOf(calls, filtered, "", creation)) == |Located(filtered, CallLocation)|
  {
    var segs := Segments(calls, filtered, "", CallLocation);
    assert LocationMetricsOf(calls, filtered, "", creation) == MapSeq(segs, EntryOf(creation));
    SegmentsPartition(calls, filtered, CallLocation);
    EntriesTotal(segs, creation);
  }

  /** The calls counted by the entries of some segments are the rows of those segments. */
  lemma EntriesTotal(segs: seq<Segment<Call>>, creation: map<string, Instant>)
    ensures SegmentCalls(MapSeq(segs, EntryOf(creation))) == TotalRows(segs)
  {
    var r := MapSeq(segs, EntryOf(creation));
    forall i | 0 <= i < |r| ensures r[i].metrics.totalCalls == |segs[i].rows| {
    }
    SumByPointwise(r, (l: LocationMetrics) => l.metrics.totalCalls as int, segs, (s: Segment<Call>) => |s.rows|);
  }

  /** With a location selected, the one segment there is covers every filtered call. */
  lemma SegmentOfSelectedLocation(calls: seq<Call>, filters: CallFilters, tz: int, creation: map<string, Instant>)
    requires filters.location != ""
    ensures var filtered := FilterCalls(calls, filters, tz);
      var r := LocationMetricsOf(calls, filtered, filters.location, creation);
      SegmentCalls(r) == |filtered| && (filtered != [] ==> |r| == 1)
  {
    var filtered := FilterCalls(calls, filters, tz);
    var segs := Segments(calls, filtered, filters.location, CallLocation);
    assert LocationMetricsOf(calls, filtered, filters.location, creation) == MapSeq(segs, EntryOf(creation));
    FilterCallsMembers(calls, filters, tz);
    forall i | 0 <= i < |filtered| ensures filtered[i] in calls {
      assert filtered[i] in filtered;
    }
    SegmentsSelected(calls, filtered, filters.location, CallLocation);
    EntriesTotal(segs, creation);
  }

  /**
   * The `.map` over the segments: each segment's metrics computed the way the global ones
   * are, under the segment's location name.
   */
  method ComputeLocationMetrics(calls: seq<Call>, filtered: seq<Call>, location: string, creation: map<string, Instant>)
    returns (r: seq<LocationMetrics>)
    ensures r == LocationMetricsOf(calls, filtered, location, creation)
  {
    var segs := Segments(calls, filtered, location, CallLocation);
    r := ComputeSegmentEntries(segs, creation);
  }

  /** The `.map` callback applied to each segment in turn. */
  method ComputeSegmentEntries(segs: seq<Segment<Call>>, creation: map<string, Instant>)
    returns (r: seq<LocationMetrics>)
    ensures r == MapSeq(segs, EntryOf(creation))
  {
    r := [];
    for i := 0 to |segs|
      invariant r == MapSeq(segs[..i], EntryOf(creation))
    {
      var entry := ComputeSegmentEntry(segs[i], creation);
      PrefixSnoc(segs, i);
      MapSeqSnoc(segs[..i], segs[i], EntryOf(creation));
      r := r + [entry];
    }
    assert segs[..|segs|] == segs;
  }

  /** The entry of one segment: its label and the metrics of its calls. */
  method ComputeSegmentEntry(seg: Segment<Call>, creation: map<string, Instant>) returns (entry: LocationMetrics)
    ensures entry == EntryOf(creation)(seg)
  {
    var m := ComputeCallMetrics(seg.rows, creation);
    var name := if seg.location != "" then seg.location else "Sin Ubicación";
    entry := LocationMetrics(name, m);
  }

  // ---------------------------------------------------------------------------------------
  // Worked examples

  /** Two inbound calls (one completed, one missed) and one outbound, of 30, 60 and 90 seconds. */
  lemma CountersExample()
    ensures var calls := [
        Call(None, None, None, None, Some(30), Some("completed"), Some("inbound")),
        Call(None, None, None, None, Some(60), Some("no-answer"), Some("inbound")),
        Call(None, None, None, None, Some(90), Some("completed"), Some("outbound"))];
      var m := CallMetricsOf(calls, map[]);
      m.totalCalls == 3 && m.receivedCalls == 2 && m.answeredCalls == 1 && m.madeCalls == 1
      && m.totalDuration == 180 && m.avgDuration == 60
  {
    var a := Call(None, None, None, None, Some(30), Some("completed"), Some("inbound"));
    var b := Call(None, None, None, None, Some(60), Some("no-answer"), Some("inbound"));
    var c := Call(None, None, None, None, Some(90), Some("completed"), Some("outbound"));
    var calls := [a, b, c];
    FilterOfThree(a, b, c, Inbound);
    FilterOfThree(a, b, c, Answered);
    FilterOfThree(a, b, c, Outbound);
    SumByOfThree(a, b, c, Duration);
    RoundOfInt(60);
    assert 180.0 / 3.0 == 60 as real;
  }

  /**
   * One contact created at some instant and called one and three days later: the mean
   * delay is two days, 172800 seconds.
   */
  lemma ResponseTimeExample(created: int)
    ensures var calls := [
        Call(Some("c"), None, Some(At(created + MsPerDay)), None, None, None, Some("outbound")),
        Call(Some("c"), None, Some(At(created + 3 * MsPerDay)), None, None, None, Some("outbound"))];
      AvgResponseTime(calls, map["c" := At(created)]) == 172800
  {
    var creation := map["c" := At(created)];
    var a := Call(Some("c"), None, Some(At(created + MsPerDay)), None, None, None, Some("outbound"));
    var b := Call(Some("c"), None, Some(At(created + 3 * MsPerDay)), None, None, None, Some("outbound"));
    ExampleResponders(a, b, creation, created);
    ExampleDeltas(a, b, creation, created);
    var ds := DeltasOf([a, b], creation, "c");
    assert ds[..1] == [MsPerDay] && ds[..1][..0] == [];
    assert Total(ds[..1]) == MsPerDay;
    assert Total(ds) == 345600000;
    assert ContactMeans([a, b], creation) == [Mean(ds)];
    TwoDaysRoundsTo172800();
  }

  /** A single mean of two days, in milliseconds, is 172800 seconds. */
  lemma TwoDaysRoundsTo172800()
    ensures RoundedSeconds([345600000 as real / 2 as real]) == 172800
  {
    var means := [345600000 as real / 2 as real];
    assert means[..0] == [];
    assert SumReals(means) == 172800000.0;
    assert SumReals(means) / |means| as real / 1000.0 == 172800.0;
    RoundOfInt(172800);
  }

  /** The two calls of that example file one responder. */
  lemma ExampleResponders(a: Call, b: Call, creation: map<string, Instant>, created: int)
    requires creation == map["c" := At(created)]
    requires a == Call(Some("c"), None, Some(At(created + MsPerDay)), None, None, None, Some("outbound"))
    requires b == Call(Some("c"), None, Some(At(created + 3 * MsPerDay)), None, None, None, Some("outbound"))
    ensures Responders([a, b], creation) == ["c"]
  {
    ExampleDelta(a, creation, created, MsPerDay);
    ExampleDelta(b, creation, created, 3 * MsPerDay);
    assert Responders([a], creation) == ["c"] by {
      assert [] + [a] == [a];
      assert ResponseKeys([], creation) == [];
      RespondersSnoc([], a, creation);
    }
    assert [a] + [b] == [a, b];
    RespondersSnoc([a], b, creation);
  }

  /** ... and under it the delays of one and three days. */
  lemma ExampleDeltas(a: Call, b: Call, creation: map<string, Instant>, created: int)
    requires creation == map["c" := At(created)]
    requires a == Call(Some("c"), None, Some(At(created + MsPerDay)), None, None, None, Some("outbound"))
    requires b == Call(Some("c"), None, Some(At(created + 3 * MsPerDay)), None, None, None, Some("outbound"))
    ensures DeltasOf([a, b], creation, "c") == [MsPerDay, 3 * MsPerDay]
  {
    ExampleDelta(a, creation, created, MsPerDay);
    ExampleDelta(b, creation, created, 3 * MsPerDay);
    assert DeltasOf([a], creation, "c") == [MsPerDay] by {
      assert [] + [a] == [a];
      DeltasOfSnoc([], a, creation, "c");
    }
    assert [a] + [b] == [a, b];
    DeltasOfSnoc([a], b, creation, "c");
  }

  /** A call to contact "c" started `delay` after its creation files that delay. */
  lemma ExampleDelta(call: Call, creation: map<string, Instant>, created: int, delay: int)
    requires creation == map["c" := At(created)] && delay > 0
    requires call == Call(Some("c"), None, Some(At(created + delay)), None, None, None, Some("outbound"))
    ensures ResponseDelta(call, creation) == Some(delay) && call.idContact == Some("c")
  {
  }

  /** 2024-01-01 is day 19723 after the epoch. */
  /**
   * Start and end date both set to one date (2024-03-10, say): a call from 23:00 local that
   * day to 00:30 local the next day is dropped, because its end day is after the end date.
   */
  lemma StraddlingCallDropped(y: int, m: int, d: int, tz: int)
    requires 100 <= y <= 9999 && ValidDate(y, m, d)
    requires -MsPerDay < tz < MsPerDay
    ensures var day := DayNumber(y, m, d);
      var call := Call(None, None, Some(At(day * MsPerDay - tz + 23 * 3600000)),
                       Some(At((day + 1) * MsPerDay - tz + 1800000)), None, None, None);
      var date := FormatDate(y, m, d);
      !CallMatches(call, CallFilters("", date, date), tz)
  {
    var day := DayNumber(y, m, d);
    DayNumberRange(y, m, d);
    var call := Call(None, None, Some(At(day * MsPerDay - tz + 23 * 3600000)),
                     Some(At((day + 1) * MsPerDay - tz + 1800000)), None, None, None);
    assert TimesInRange(call);
    assert StartLocalDay(call, tz) == Some(day);
    assert EndLocalDay(call, tz) == Some(day + 1);
    var date := FormatDate(y, m, d);
    BothDatesRule(call, "", y, m, d, y, m, d, tz);
    assert !DatesKeep(call, CallFilters("", date, date), tz);
  }
}
