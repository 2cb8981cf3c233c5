/** The telemetry list endpoint (backend/src/routes/telemetry.ts): the query
    is validated, the stored samples are filtered by sensor and time range, and
    the response carries the last `limit` matches and their total. Reading the
    mock file is left out; `Date.parse` is the `parseTime` parameter, `None`
    standing for NaN, and `isDateTime` is the schema's ISO date-time check. */
module TelemetryRoute {
  import opened Common

  const DEFAULT_LIMIT := 25
  const MIN_LIMIT := 1
  const MAX_LIMIT := 100
  const INVALID_QUERY := "Invalid telemetry query"

  /** The query string as it arrives: every parameter is optional text. */
  datatype RawQuery = RawQuery(from: Option<string>, to: Option<string>, limit: Option<string>, sensor: Option<string>)

  /** The validated query (TelemetryQuery). */
  datatype TelemetryQuery = TelemetryQuery(from: Option<string>, to: Option<string>, limit: int, sensor: Option<string>)

  /** The response body: the selected samples and how many matched. */
  datatype TelemetryList = TelemetryList(items: seq<TelemetrySample>, total: nat)

  /** `z.coerce.number().int().min(1).max(100).default(25)`: an absent limit is
      25; present text is converted by Number and must be a whole number in
      1..100. */
  function ParseLimit(raw: Option<string>): (r: Result<int, string>)
    ensures r.Success? ==> MIN_LIMIT <= r.value <= MAX_LIMIT
    ensures raw.None? ==> r == Success(DEFAULT_LIMIT)
  {
    if raw.None? then Success(DEFAULT_LIMIT)
    else
      match NumberOf(raw.value)
      case Finite(x) =>
        if x.Floor as real == x && MIN_LIMIT as real <= x <= MAX_LIMIT as real then Success(x.Floor)
        else Failure(INVALID_QUERY)
      case _ => Failure(INVALID_QUERY)
  }

  /** A decimal limit is accepted exactly when it lies in 1..100, and then it
      is taken as written. */
  lemma ParseLimitOfNat(n: nat)
    ensures ParseLimit(Some(NatToString(n))).Success? <==> MIN_LIMIT <= n <= MAX_LIMIT
    ensures ParseLimit(Some(NatToString(n))).Success? ==> ParseLimit(Some(NatToString(n))).value == n
  {
    NumberOfNatString(n);
    assert (n as real).Floor == n;
  }

  /** An empty limit parameter is the number 0, below the minimum. */
  lemma ParseLimitBlank(s: string)
    requires IsBlank(s)
    ensures ParseLimit(Some(s)).Failure?
  {
    NumberOfBlank(s);
  }

  /** `TelemetryQuery.parse`: from and to must be ISO date-times when present,
      and the limit must pass `ParseLimit`. */
  function ParseQuery(raw: RawQuery, isDateTime: string -> bool): (r: Result<TelemetryQuery, string>)
    ensures r.Success? <==>
              (raw.from.Some? ==> isDateTime(raw.from.value)) && (raw.to.Some? ==> isDateTime(raw.to.value))
              && ParseLimit(raw.limit).Success?
    ensures r.Success? ==>
              r.value.from == raw.from && r.value.to == raw.to && r.value.sensor == raw.sensor
              && r.value.limit == ParseLimit(raw.limit).value
  {
    if raw.from.Some? && !isDateTime(raw.from.value) then Failure(INVALID_QUERY)
    else if raw.to.Some? && !isDateTime(raw.to.value) then Failure(INVALID_QUERY)
    else
      match ParseLimit(raw.limit)
      case Failure(e) => Failure(e)
      case Success(limit) => Success(TelemetryQuery(raw.from, raw.to, limit, raw.sensor))
  }

  /** The filter callback: a requested (non-empty) sensor must match, the
      timestamp must parse, and a given bound excludes samples strictly
      outside it. A bound that itself does not parse compares false with
      everything and so excludes nothing. */
  predicate Keep(q: TelemetryQuery, parseTime: string -> Option<int>, sample: TelemetrySample) {
    && !(Truthy(q.sensor) && sample.sensor != q.sensor)
    && parseTime(sample.timestamp).Some?
    && !(Truthy(q.from) && parseTime(q.from.value).Some?
         && parseTime(sample.timestamp).value < parseTime(q.from.value).value)
    && !(Truthy(q.to) && parseTime(q.to.value).Some?
         && parseTime(sample.timestamp).value > parseTime(q.to.value).value)
  }

  /** The samples the filter keeps, in stored order. */
  function Matching(samples: seq<TelemetrySample>, q: TelemetryQuery, parseTime: string -> Option<int>)
    : seq<TelemetrySample>
  {
    Filter(samples, s => Keep(q, parseTime, s))
  }

  /** The handler's result for a validated query: `total` before limiting and
      `filtered.slice(-limit)` as the items. */
  function ListTelemetry(samples: seq<TelemetrySample>, q: TelemetryQuery, parseTime: string -> Option<int>)
    : (r: TelemetryList)
  {
    var filtered := Matching(samples, q, parseTime);
    TelemetryList(SliceFrom(filtered, -q.limit), |filtered|)
  }

  /** The whole GET handler: a query that fails validation is an error,
      otherwise the list. */
  function HandleTelemetry(raw: RawQuery, samples: seq<TelemetrySample>, isDateTime: string -> bool,
                           parseTime: string -> Option<int>): (r: Result<TelemetryList, string>)
    ensures r.Success? <==> ParseQuery(raw, isDateTime).Success?
  {
    match ParseQuery(raw, isDateTime)
    case Failure(e) => Failure(e)
    case Success(q) => Success(ListTelemetry(samples, q, parseTime))
  }

  /** A sample is counted exactly when it is stored, carries the requested
      sensor (if one is requested), has a parseable timestamp, and lies within
      both given bounds, inclusively. */
  lemma MatchingMembers(samples: seq<TelemetrySample>, q: TelemetryQuery, parseTime: string -> Option<int>,
                        x: TelemetrySample)
    ensures x in Matching(samples, q, parseTime) <==>
              && x in samples
              && (Truthy(q.sensor) ==> x.sensor == q.sensor)
              && parseTime(x.timestamp).Some?
              && (Truthy(q.from) && parseTime(q.from.value).Some? ==>
                    parseTime(q.from.value).value <= parseTime(x.timestamp).value)
              && (Truthy(q.to) && parseTime(q.to.value).Some? ==>
                    parseTime(x.timestamp).value <= parseTime(q.to.value).value)
  {
    FilterMembers(samples, s => Keep(q, parseTime, s), x);
  }

  /** Filtering keeps stored order: the matches of two stretches of samples
      are the matches of the first followed by those of the second. */
  lemma MatchingAppend(a: seq<TelemetrySample>, b: seq<TelemetrySample>, q: TelemetryQuery,
                       parseTime: string -> Option<int>)
    ensures Matching(a + b, q, parseTime) == Matching(a, q, parseTime) + Matching(b, q, parseTime)
  {
    FilterAppend(a, b, s => Keep(q, parseTime, s));
  }

  /** With no sensor and no bounds every sample with a parseable timestamp is
      counted; when all of them parse, the total is the number stored. */
  lemma UnfilteredTotal(samples: seq<TelemetrySample>, limit: int, parseTime: string -> Option<int>)
    requires forall i :: 0 <= i < |samples| ==> parseTime(samples[i].timestamp).Some?
    ensures ListTelemetry(samples, TelemetryQuery(None, None, limit, None), parseTime).total == |samples|
  {
    FilterAll(samples, s => Keep(TelemetryQuery(None, None, limit, None), parseTime, s));
  }

  /** For a validated query the items are the last `limit` matches (all of
      them when fewer match), in stored order, so at most 100 are returned and
      never more than the total. */
  lemma HandleItemsAreLastMatches(raw: RawQuery, samples: seq<TelemetrySample>, isDateTime: string -> bool,
                                  parseTime: string -> Option<int>)
    requires HandleTelemetry(raw, samples, isDateTime, parseTime).Success?
    ensures var q := ParseQuery(raw, isDateTime).value;
            var m := Matching(samples, q, parseTime);
            var r := HandleTelemetry(raw, samples, isDateTime, parseTime).value;
            && r.total == |m|
            && |r.items| == (if q.limit < |m| then q.limit else |m|)
            && r.items == m[|m| - |r.items|..]
            && (m != [] ==> |r.items| >= 1)
            && |r.items| <= MAX_LIMIT && |r.items| <= r.total
  {
  }
}
