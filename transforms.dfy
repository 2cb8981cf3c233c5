/** Chart transforms of the telemetry pages
    (frontend/src/features/telemetry/transforms.ts): sorting by timestamp,
    cutting a trailing time window, and averaging per minute. Items are of any
    type; `Date.parse(item.timestamp)` is the parameter `ts`, with `None` for
    NaN. Sorting and bucketing are stated for items whose timestamps all
    parse. */
module Transforms {
  import opened Common
  import opened Sorting

  /** WindowKey. */
  datatype WindowKey = OneHour | SixHours | OneDay

  const MS_PER_MINUTE := 60000

  /** WINDOW_TO_MS. */
  function WindowMs(w: WindowKey): (ms: int)
    ensures ms > 0
  {
    match w
    case OneHour => 60 * 60 * 1000
    case SixHours => 6 * 60 * 60 * 1000
    case OneDay => 24 * 60 * 60 * 1000
  }

  /** The three windows are one, six and twenty-four hours of milliseconds. */
  lemma WindowLengths()
    ensures WindowMs(OneHour) == 3600000 && WindowMs(SixHours) == 6 * WindowMs(OneHour)
    ensures WindowMs(OneDay) == 24 * WindowMs(OneHour)
  {
  }

  predicate AllParse<T>(items: seq<T>, ts: T -> Option<int>) {
    forall i :: 0 <= i < |items| ==> ts(items[i]).Some?
  }

  /** The sort key of an item whose timestamp parses. */
  function TimeKey<T>(ts: T -> Option<int>): T -> real {
    x => if ts(x).Some? then ts(x).value as real else 0.0
  }

  /** sortByTimestamp: a sorted copy (the input is a value and so untouched),
      ascending by time. */
  function SortByTimestamp<T>(items: seq<T>, ts: T -> Option<int>): (r: seq<T>)
    requires AllParse(items, ts)
    ensures multiset(r) == multiset(items) && |r| == |items|
    ensures AllParse(r, ts)
    ensures forall i, j :: 0 <= i < j < |r| ==> ts(r[i]).value <= ts(r[j]).value
  {
    var r := SortBy(items, TimeKey(ts));
    PermutationAllParse(items, r, ts);
    r
  }

  /** A permutation of items whose timestamps parse has parseable timestamps. */
  lemma PermutationAllParse<T>(items: seq<T>, r: seq<T>, ts: T -> Option<int>)
    requires AllParse(items, ts) && multiset(r) == multiset(items)
    ensures AllParse(r, ts)
  {
    forall i | 0 <= i < |r|
      ensures ts(r[i]).Some?
    {
      assert r[i] in multiset(r);
      assert r[i] in items;
    }
  }

  /** Sorting an already sorted list gives it back unchanged, so sorting twice
      is sorting once. */
  lemma SortByTimestampIdempotent<T>(items: seq<T>, ts: T -> Option<int>)
    requires AllParse(items, ts)
    ensures SortByTimestamp(SortByTimestamp(items, ts), ts) == SortByTimestamp(items, ts)
  {
    SortBySorted(SortByTimestamp(items, ts), TimeKey(ts));
  }

  /** An item is kept when its time is at least `threshold`; NaN compares
      false with everything. */
  predicate InWindow<T>(ts: T -> Option<int>, threshold: Option<int>, x: T) {
    threshold.Some? && ts(x).Some? && ts(x).value >= threshold.value
  }

  /** filterByWindow: the items no older than the window length before the
      last item's time. An empty list is returned as it is. */
  function FilterByWindow<T>(items: seq<T>, w: WindowKey, ts: T -> Option<int>): (r: seq<T>)
    ensures items == [] ==> r == []
    ensures |r| <= |items|
  {
    if items == [] then items
    else
      var reference := ts(items[|items| - 1]);
      var threshold := if reference.Some? then Some(reference.value - WindowMs(w)) else None;
      Filter(items, x => InWindow(ts, threshold, x))
  }

  /** An item is kept exactly when its time is within the window length of
      the last item's time; the last item itself is kept when its time parses. */
  lemma FilterByWindowMembers<T>(items: seq<T>, w: WindowKey, ts: T -> Option<int>, x: T)
    requires items != [] && ts(items[|items| - 1]).Some?
    ensures x in FilterByWindow(items, w, ts) <==>
              x in items && ts(x).Some? && ts(x).value >= ts(items[|items| - 1]).value - WindowMs(w)
    ensures items[|items| - 1] in FilterByWindow(items, w, ts)
  {
    var t := Some(ts(items[|items| - 1]).value - WindowMs(w));
    FilterMembers(items, y => InWindow(ts, t, y), x);
    FilterMembers(items, y => InWindow(ts, t, y), items[|items| - 1]);
  }

  /** The kept items are a subsequence in input order: the window of a split
      list is the items of each part that pass the same threshold. */
  lemma FilterByWindowOrder<T>(a: seq<T>, b: seq<T>, w: WindowKey, ts: T -> Option<int>)
    requires b != [] && ts(b[|b| - 1]).Some?
    ensures var t := Some(ts(b[|b| - 1]).value - WindowMs(w));
            FilterByWindow(a + b, w, ts) == Filter(a, x => InWindow(ts, t, x)) + FilterByWindow(b, w, ts)
  {
    assert (a + b)[|a + b| - 1] == b[|b| - 1];
    FilterAppend(a, b, x => InWindow(ts, Some(ts(b[|b| - 1]).value - WindowMs(w)), x));
  }

  /** When the last timestamp does not parse the threshold is NaN and nothing
      is kept. */
  lemma FilterByWindowNaN<T>(items: seq<T>, w: WindowKey, ts: T -> Option<int>)
    requires items != [] && ts(items[|items| - 1]).None?
    ensures FilterByWindow(items, w, ts) == []
  {
    FilterNone(items, x => InWindow(ts, None, x));
  }

  // ---------------------------------------------------------------------------
  // bucketByMinute

  /** `date.setSeconds(0, 0)`: the start of the minute holding `t`, counted in
      UTC; local time agrees wherever the zone offset is whole minutes. */
  function MinuteOf(t: int): (m: int)
    ensures m % MS_PER_MINUTE == 0 && m <= t < m + MS_PER_MINUTE
  {
    t - t % MS_PER_MINUTE
  }

  /** A point of the averaged series. */
  datatype Point = Point(timestamp: int, value: real)

  /** The minute keys in the order they first occur (the Map's insertion
      order). */
  function MinuteKeys<T>(items: seq<T>, ts: T -> Option<int>): (keys: seq<int>)
    requires AllParse(items, ts)
    ensures forall i, j :: 0 <= i < j < |keys| ==> keys[i] != keys[j]
    ensures |keys| <= |items|
  {
    if items == [] then []
    else
      var keys := MinuteKeys(items[..|items| - 1], ts);
      var k := MinuteOf(ts(items[|items| - 1]).value);
      if k in keys then keys else keys + [k]
  }

  /** The picked values of the items falling in minute `k`, in input order. */
  function MinuteValues<T>(items: seq<T>, ts: T -> Option<int>, pick: T -> real, k: int): seq<real>
    requires AllParse(items, ts)
  {
    if items == [] then []
    else
      var x := items[|items| - 1];
      MinuteValues(items[..|items| - 1], ts, pick, k) + (if MinuteOf(ts(x).value) == k then [pick(x)] else [])
  }

  function Sum(values: seq<real>): real {
    if values == [] then 0.0 else Sum(values[..|values| - 1]) + values[|values| - 1]
  }

  /** `values.reduce(+, 0) / values.length`. */
  function Average(values: seq<real>): real
    requires values != []
  {
    Sum(values) / |values| as real
  }

  /** Every key is the minute of some item, and every item's minute is a key. */
  lemma {:induction false} MinuteKeysMembers<T>(items: seq<T>, ts: T -> Option<int>, k: int)
    requires AllParse(items, ts)
    ensures k in MinuteKeys(items, ts) <==>
              exists i :: 0 <= i < |items| && MinuteOf(ts(items[i]).value) == k
  {
    if items != [] {
      var p := items[..|items| - 1];
      MinuteKeysMembers(p, ts, k);
      if exists i :: 0 <= i < |items| && MinuteOf(ts(items[i]).value) == k {
        var i :| 0 <= i < |items| && MinuteOf(ts(items[i]).value) == k;
        if i < |p| {
          assert p[i] == items[i];
        }
      }
      if exists i :: 0 <= i < |p| && MinuteOf(ts(p[i]).value) == k {
        var i :| 0 <= i < |p| && MinuteOf(ts(p[i]).value) == k;
        assert items[i] == p[i];
      }
    }
  }

  /** A key's values are non-empty: each key came from at least one item. */
  lemma {:induction false} MinuteValuesOfKey<T>(items: seq<T>, ts: T -> Option<int>, pick: T -> real, k: int)
    requires AllParse(items, ts)
    requires k in MinuteKeys(items, ts)
    ensures MinuteValues(items, ts, pick, k) != []
  {
    var p := items[..|items| - 1];
    if k in MinuteKeys(p, ts) {
      MinuteValuesOfKey(p, ts, pick, k);
    }
  }

  /** A minute that is not a key has no values. */
  lemma {:induction false} MinuteValuesOfNonKey<T>(items: seq<T>, ts: T -> Option<int>, pick: T -> real, k: int)
    requires AllParse(items, ts)
    requires k !in MinuteKeys(items, ts)
    ensures MinuteValues(items, ts, pick, k) == []
  {
    if items != [] {
      MinuteValuesOfNonKey(items[..|items| - 1], ts, pick, k);
    }
  }

  /** The bucket of each key in first-occurrence order, before sorting. */
  /** A point is the bucket of its minute: the minute is a key and the value
      is the mean of the minute's values. */
  ghost predicate IsBucket<T>(items: seq<T>, ts: T -> Option<int>, pick: T -> real, p: Point)
    requires AllParse(items, ts)
  {
    && p.timestamp in MinuteKeys(items, ts)
    && MinuteValues(items, ts, pick, p.timestamp) != []
    && p.value == Average(MinuteValues(items, ts, pick, p.timestamp))
  }

  function Entries<T>(items: seq<T>, ts: T -> Option<int>, pick: T -> real, keys: seq<int>): (r: seq<Point>)
    requires AllParse(items, ts)
    requires forall j :: 0 <= j < |keys| ==> keys[j] in MinuteKeys(items, ts)
    ensures |r| == |keys|
    ensures forall j :: 0 <= j < |keys| ==> r[j].timestamp == keys[j] && IsBucket(items, ts, pick, r[j])
  {
    if keys == [] then []
    else
      var k := keys[|keys| - 1];
      MinuteValuesOfKey(items, ts, pick, k);
      Entries(items, ts, pick, keys[..|keys| - 1]) + [Point(k, Average(MinuteValues(items, ts, pick, k)))]
  }

  function PointKey(p: Point): real {
    p.timestamp as real
  }

  /** The specification of bucketByMinute: one averaged point per minute,
      ascending by minute. */
  function Buckets<T>(items: seq<T>, ts: T -> Option<int>, pick: T -> real): seq<Point>
    requires AllParse(items, ts)
  {
    var keys := MinuteKeys(items, ts);
    SortBy(Entries(items, ts, pick, keys), PointKey)
  }

  /** A bucket sits on a whole minute. */
  lemma BucketOnMinute<T>(items: seq<T>, ts: T -> Option<int>, pick: T -> real, p: Point)
    requires AllParse(items, ts) && IsBucket(items, ts, pick, p)
    ensures p.timestamp % MS_PER_MINUTE == 0
  {
    MinuteKeysMembers(items, ts, p.timestamp);
  }

  /** The sorted points are the entries, so each is a bucket, and no two are
      equal. */
  lemma SortedEntries<T>(items: seq<T>, ts: T -> Option<int>, pick: T -> real)
    requires AllParse(items, ts)
    ensures var r := Buckets(items, ts, pick);
            Distinct(r) && forall i :: 0 <= i < |r| ==> IsBucket(items, ts, pick, r[i])
  {
    var e := Entries(items, ts, pick, MinuteKeys(items, ts));
    var r := SortBy(e, PointKey);
    assert Distinct(e);
    PermutationDistinct(e, r);
    forall i | 0 <= i < |r|
      ensures IsBucket(items, ts, pick, r[i])
    {
      assert r[i] in multiset(e);
      assert r[i] in e;
    }
  }

  /** The points of bucketByMinute are one per distinct minute, strictly
      ascending, never more than the items; each sits on a whole minute and
      carries the mean of the values picked from that minute's items. */
  lemma BucketsShape<T>(items: seq<T>, ts: T -> Option<int>, pick: T -> real)
    requires AllParse(items, ts)
    ensures var r := Buckets(items, ts, pick);
            && |r| <= |items|
            && (forall i, j :: 0 <= i < j < |r| ==> r[i].timestamp < r[j].timestamp)
            && forall i :: 0 <= i < |r| ==>
                 && r[i].timestamp % MS_PER_MINUTE == 0
                 && MinuteValues(items, ts, pick, r[i].timestamp) != []
                 && r[i].value == Average(MinuteValues(items, ts, pick, r[i].timestamp))
  {
    var r := Buckets(items, ts, pick);
    SortedEntries(items, ts, pick);
    forall i | 0 <= i < |r|
      ensures r[i].timestamp % MS_PER_MINUTE == 0
    {
      BucketOnMinute(items, ts, pick, r[i]);
    }
    forall i, j | 0 <= i < j < |r|
      ensures r[i].timestamp < r[j].timestamp
    {
      assert PointKey(r[i]) <= PointKey(r[j]);
      assert r[i] != r[j];
    }
  }

  /** Some point of `r` sits at minute `k`. */
  ghost predicate HasPointAt(r: seq<Point>, k: int) {
    exists j :: 0 <= j < |r| && r[j].timestamp == k
  }

  /** Every item's minute has a point. */
  lemma BucketsCover<T>(items: seq<T>, ts: T -> Option<int>, pick: T -> real, i: nat)
    requires AllParse(items, ts) && i < |items|
    ensures HasPointAt(Buckets(items, ts, pick), MinuteOf(ts(items[i]).value))
  {
    var keys := MinuteKeys(items, ts);
    var k := MinuteOf(ts(items[i]).value);
    MinuteKeysMembers(items, ts, k);
    var a :| 0 <= a < |keys| && keys[a] == k;
    var e := Entries(items, ts, pick, keys);
    assert e[a].timestamp == k;
    InPermutation(e, Buckets(items, ts, pick), a);
  }

  /** One step of the forEach: the keys and values after one more item. */
  lemma MinuteStep<T>(items: seq<T>, ts: T -> Option<int>, pick: T -> real, i: nat, k: int)
    requires AllParse(items, ts) && i < |items|
    ensures var p := items[..i + 1];
            var m := MinuteOf(ts(items[i]).value);
            && MinuteKeys(p, ts) == (if m in MinuteKeys(items[..i], ts) then MinuteKeys(items[..i], ts)
                                     else MinuteKeys(items[..i], ts) + [m])
            && MinuteValues(p, ts, pick, k) == MinuteValues(items[..i], ts, pick, k)
                                               + (if m == k then [pick(items[i])] else [])
  {
    assert items[..i + 1][..i] == items[..i];
  }

  /** The Map the forEach of bucketByMinute builds: each minute seen so far
      to the picked values of its items. */
  function GroupMap<T>(items: seq<T>, ts: T -> Option<int>, pick: T -> real): map<int, seq<real>>
    requires AllParse(items, ts)
  {
    if items == [] then map[]
    else
      var m := GroupMap(items[..|items| - 1], ts, pick);
      var x := items[|items| - 1];
      var k := MinuteOf(ts(x).value);
      m[k := (if k in m then m[k] else []) + [pick(x)]]
  }

  /** The map holds exactly the minute keys, each with its values in input
      order. */
  lemma {:induction false} GroupMapContents<T>(items: seq<T>, ts: T -> Option<int>, pick: T -> real, k: int)
    requires AllParse(items, ts)
    ensures k in GroupMap(items, ts, pick) <==> k in MinuteKeys(items, ts)
    ensures k in GroupMap(items, ts, pick) ==> GroupMap(items, ts, pick)[k] == MinuteValues(items, ts, pick, k)
  {
    if items != [] {
      var p := items[..|items| - 1];
      GroupMapContents(p, ts, pick, k);
      if k !in MinuteKeys(p, ts) {
        MinuteValuesOfNonKey(p, ts, pick, k);
      }
    }
  }

  /** The forEach of bucketByMinute: the map from minute to the picked
      values, with its keys in insertion order. */
  method GroupByMinute<T>(items: seq<T>, ts: T -> Option<int>, pick: T -> real)
    returns (keys: seq<int>, buckets: map<int, seq<real>>)
    requires AllParse(items, ts)
    ensures keys == MinuteKeys(items, ts)
    ensures buckets == GroupMap(items, ts, pick)
  {
    buckets := map[];
    keys := [];
    var i := 0;
    while i < |items|
      invariant 0 <= i <= |items|
      invariant keys == MinuteKeys(items[..i], ts)
      invariant buckets == GroupMap(items[..i], ts, pick)
    {
      var key := MinuteOf(ts(items[i]).value);
      var value := pick(items[i]);
      assert items[..i + 1][..i] == items[..i];
      assert GroupMap(items[..i + 1], ts, pick)
          == buckets[key := (if key in buckets then buckets[key] else []) + [value]];
      GroupMapContents(items[..i], ts, pick, key);
      if key !in buckets {
        assert [] + [value] == [value];
        buckets := buckets[key := [value]];
        keys := keys + [key];
      } else {
        buckets := buckets[key := buckets[key] + [value]];
      }
      i := i + 1;
    }
    assert items[..i] == items;
  }

  /** One more key adds its averaged point at the end. */
  lemma EntriesSnoc<T>(items: seq<T>, ts: T -> Option<int>, pick: T -> real, keys: seq<int>, j: nat)
    requires AllParse(items, ts)
    requires keys == MinuteKeys(items, ts) && j < |keys|
    ensures MinuteValues(items, ts, pick, keys[j]) != []
    ensures Entries(items, ts, pick, keys[..j + 1])
         == Entries(items, ts, pick, keys[..j]) + [Point(keys[j], Average(MinuteValues(items, ts, pick, keys[j])))]
  {
    MinuteValuesOfKey(items, ts, pick, keys[j]);
    assert keys[..j + 1][..j] == keys[..j];
  }

  /** The map of bucketByMinute turned into averaged points, in key order. */
  method AveragePoints<T>(items: seq<T>, ts: T -> Option<int>, pick: T -> real,
                          keys: seq<int>, buckets: map<int, seq<real>>) returns (points: seq<Point>)
    requires AllParse(items, ts)
    requires keys == MinuteKeys(items, ts)
    requires buckets == GroupMap(items, ts, pick)
    ensures points == Entries(items, ts, pick, keys)
  {
    points := [];
    var j := 0;
    while j < |keys|
      invariant 0 <= j <= |keys|
      invariant points == Entries(items, ts, pick, keys[..j])
    {
      GroupMapContents(items, ts, pick, keys[j]);
      EntriesSnoc(items, ts, pick, keys, j);
      var values := buckets[keys[j]];
      points := points + [Point(keys[j], Sum(values) / |values| as real)];
      j := j + 1;
    }
    assert keys[..j] == keys;
  }

  /** bucketByMinute: groups the values by minute, averages each group and
      sorts the points by minute. */
  method BucketByMinute<T>(items: seq<T>, ts: T -> Option<int>, pick: T -> real) returns (r: seq<Point>)
    requires AllParse(items, ts)
    ensures r == Buckets(items, ts, pick)
  {
    var keys, buckets := GroupByMinute(items, ts, pick);
    var points := AveragePoints(items, ts, pick, keys, buckets);
    r := SortBy(points, PointKey);
  }
}
