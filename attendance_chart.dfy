/**
 * The per-day bucketing of the weekly attendance chart in
 * src/components/admin/AttendanceChart.tsx.
 */
module AttendanceChart {
  import opened Types
  import opened Tables

  /** One bar of the chart: a day name and its number of check-ins. */
  datatype ChartPoint = ChartPoint(day: string, count: int)

  predicate Distinct(s: seq<string>) {
    forall i, j :: 0 <= i < j < |s| ==> s[i] != s[j]
  }

  function Days(chart: seq<ChartPoint>): (ds: seq<string>)
    ensures |ds| == |chart|
  {
    seq(|chart|, i requires 0 <= i < |chart| => chart[i].day)
  }

  /** The day name of every instant of `days`, in order. */
  function DayNames(days: seq<Time>, dayKey: Time -> string): (names: seq<string>)
    ensures |names| == |days|
    ensures forall j :: 0 <= j < |days| ==> names[j] == dayKey(days[j])
  {
    seq(|days|, j requires 0 <= j < |days| => dayKey(days[j]))
  }

  /** The distinct names of `names`, each where it first occurs. */
  function FirstSeen(names: seq<string>): (r: seq<string>)
    ensures Distinct(r)
    ensures forall k :: k in r <==> k in names
  {
    if names == [] then []
    else
      var init, last := names[..|names| - 1], names[|names| - 1];
      assert forall k :: k in names <==> k in init || k == last;
      var d := FirstSeen(init);
      if last in d then d else d + [last]
  }

  /** The number of records at or after the week start. */
  function InWeekCount(records: seq<Attendance>, weekStart: Time): nat {
    if records == [] then 0
    else InWeekCount(records[..|records| - 1], weekStart) + (if records[|records| - 1].checkIn >= weekStart then 1 else 0)
  }

  /** The number of records at or after the week start whose day name is `k`. */
  function DayCount(records: seq<Attendance>, weekStart: Time, dayKey: Time -> string, k: string): nat {
    if records == [] then 0
    else
      var last := records[|records| - 1];
      DayCount(records[..|records| - 1], weekStart, dayKey, k)
        + (if last.checkIn >= weekStart && dayKey(last.checkIn) == k then 1 else 0)
  }

  function CountsDay(weekStart: Time, dayKey: Time -> string, k: string): Attendance -> bool {
    (a: Attendance) => a.checkIn >= weekStart && dayKey(a.checkIn) == k
  }

  /** The per-day count is the size of the selection of that day's in-week records. */
  lemma {:induction false} DayCountIsSelection(records: seq<Attendance>, weekStart: Time, dayKey: Time -> string, k: string)
    ensures DayCount(records, weekStart, dayKey, k) == |Filter(records, CountsDay(weekStart, dayKey, k))|
    decreases |records|
  {
    if records != [] {
      var init, last := records[..|records| - 1], records[|records| - 1];
      assert records == init + [last];
      DayCountIsSelection(init, weekStart, dayKey, k);
      FilterAppend(init, [last], CountsDay(weekStart, dayKey, k));
      assert Filter([last], CountsDay(weekStart, dayKey, k))
          == (if CountsDay(weekStart, dayKey, k)(last) then [last] else []) + Filter([], CountsDay(weekStart, dayKey, k));
    }
  }

  /** A day none of whose in-week records falls on it counts 0. */
  lemma {:induction false} DayCountZero(records: seq<Attendance>, weekStart: Time, dayKey: Time -> string, k: string)
    requires forall i :: 0 <= i < |records| && records[i].checkIn >= weekStart ==> dayKey(records[i].checkIn) != k
    ensures DayCount(records, weekStart, dayKey, k) == 0
    decreases |records|
  {
    if records != [] {
      var init := records[..|records| - 1];
      assert forall i :: 0 <= i < |init| ==> init[i] == records[i];
      DayCountZero(init, weekStart, dayKey, k);
    }
  }

  /** The sum of the counts along `order`. */
  function SumAlong(order: seq<string>, counts: map<string, int>): int
    requires forall k :: k in order ==> k in counts
  {
    if order == [] then 0 else SumAlong(order[..|order| - 1], counts) + counts[order[|order| - 1]]
  }

  /** The sum of a chart's counts. */
  function Total(chart: seq<ChartPoint>): int {
    if chart == [] then 0 else Total(chart[..|chart| - 1]) + chart[|chart| - 1].count
  }

  /** `Object.entries(attendanceByDay).map(...)`: one point per key, in insertion order. */
  function Entries(order: seq<string>, counts: map<string, int>): (chart: seq<ChartPoint>)
    requires forall k :: k in order ==> k in counts
    ensures Days(chart) == order
    ensures forall i :: 0 <= i < |chart| ==> chart[i].count == counts[order[i]]
  {
    seq(|order|, i requires 0 <= i < |order| => ChartPoint(order[i], counts[order[i]]))
  }

  lemma {:induction false} TotalEntries(order: seq<string>, counts: map<string, int>)
    requires forall k :: k in order ==> k in counts
    ensures Total(Entries(order, counts)) == SumAlong(order, counts)
    decreases |order|
  {
    if order != [] {
      var init := order[..|order| - 1];
      assert Entries(order, counts)[..|order| - 1] == Entries(init, counts);
      TotalEntries(init, counts);
    }
  }

  /** Changing a key that is not along `order` does not change the sum. */
  lemma {:induction false} SumAlongFrame(order: seq<string>, counts: map<string, int>, k: string, v: int)
    requires forall x :: x in order ==> x in counts
    requires k !in order
    ensures SumAlong(order, counts[k := v]) == SumAlong(order, counts)
    decreases |order|
  {
    if order != [] {
      var init := order[..|order| - 1];
      assert forall x :: x in init ==> x in order;
      SumAlongFrame(init, counts, k, v);
    }
  }

  /** Adding one to a key that occurs once along `order` adds one to the sum. */
  lemma {:induction false} SumAlongIncrement(order: seq<string>, counts: map<string, int>, k: string)
    requires forall x :: x in order ==> x in counts
    requires Distinct(order) && k in order
    ensures SumAlong(order, counts[k := counts[k] + 1]) == SumAlong(order, counts) + 1
    decreases |order|
  {
    var init, last := order[..|order| - 1], order[|order| - 1];
    assert forall x :: x in init ==> x in order;
    if last == k {
      assert k !in init by {
        forall j | 0 <= j < |init| ensures init[j] != k {
          assert init[j] == order[j];
        }
      }
      SumAlongFrame(init, counts, k, counts[k] + 1);
    } else {
      assert k in init by {
        var j :| 0 <= j < |order| && order[j] == k;
        assert init[j] == k;
      }
      SumAlongIncrement(init, counts, k);
    }
  }

  /** Appending a new key with value `v` adds `v` to the sum. */
  lemma SumAlongAppend(order: seq<string>, counts: map<string, int>, k: string, v: int)
    requires forall x :: x in order ==> x in counts
    requires k !in order
    ensures SumAlong(order + [k], counts[k := v]) == SumAlong(order, counts) + v
  {
    assert (order + [k])[..|order|] == order;
    SumAlongFrame(order, counts, k, v);
  }

  /** A sum of zeros is zero. */
  lemma {:induction false} SumAlongZeros(order: seq<string>, counts: map<string, int>)
    requires forall x :: x in order ==> x in counts && counts[x] == 0
    ensures SumAlong(order, counts) == 0
    decreases |order|
  {
    if order != [] {
      var init := order[..|order| - 1];
      assert forall x :: x in init ==> x in order;
      SumAlongZeros(init, counts);
    }
  }

  /**
   * The first `forEach`: a zero bucket for every day of the week so far and for
   * nothing else, keys in first-seen order.
   */
  method InitBuckets(days: seq<Time>, dayKey: Time -> string) returns (order: seq<string>, counts: map<string, int>)
    ensures order == FirstSeen(DayNames(days, dayKey))
    ensures Distinct(order)
    ensures forall k :: k in order <==> k in counts
    ensures forall j :: 0 <= j < |days| ==> dayKey(days[j]) in counts
    ensures forall k :: k in counts ==> exists j :: 0 <= j < |days| && dayKey(days[j]) == k
    ensures forall k :: k in counts ==> counts[k] == 0
  {
    counts := map[];
    order := [];
    for i := 0 to |days|
      invariant order == FirstSeen(DayNames(days[..i], dayKey))
      invariant forall k :: k in order <==> k in counts
      invariant forall k :: k in counts ==> counts[k] == 0
    {
      var key := dayKey(days[i]);
      assert DayNames(days[..i + 1], dayKey)[..i] == DayNames(days[..i], dayKey);
      if key !in counts {
        order := order + [key];
      }
      counts := counts[key := 0];
    }
    assert days[..|days|] == days;
    forall k | k in counts
      ensures exists j :: 0 <= j < |days| && dayKey(days[j]) == k
    {
      assert k in DayNames(days, dayKey);
    }
  }

  /** Buckets keyed along `order`: the keys are distinct and are exactly the map's keys. */
  ghost predicate Buckets(order: seq<string>, counts: map<string, int>) {
    Distinct(order) && forall k :: k in order <==> k in counts
  }

  /** The buckets once the second `forEach` has seen `records`, starting from `counts0`. */
  function CountsAfter(records: seq<Attendance>, weekStart: Time, dayKey: Time -> string, counts0: map<string, int>)
    : map<string, int>
  {
    if records == [] then counts0
    else
      var c := CountsAfter(records[..|records| - 1], weekStart, dayKey, counts0);
      var last := records[|records| - 1];
      if last.checkIn < weekStart then c
      else
        var k := dayKey(last.checkIn);
        if k in c then c[k := c[k] + 1] else c[k := 1]
  }

  /** The key order once the second `forEach` has seen `records`: a day seen for the first time is appended. */
  function OrderAfter(records: seq<Attendance>, weekStart: Time, dayKey: Time -> string, order0: seq<string>, counts0: map<string, int>)
    : seq<string>
  {
    if records == [] then order0
    else
      var init, last := records[..|records| - 1], records[|records| - 1];
      var o := OrderAfter(init, weekStart, dayKey, order0, counts0);
      if last.checkIn >= weekStart && dayKey(last.checkIn) !in CountsAfter(init, weekStart, dayKey, counts0)
      then o + [dayKey(last.checkIn)]
      else o
  }

  /** Counting keeps the buckets well formed, keeps the first loop's keys, and only appends to their order. */
  lemma {:induction false} CountingKeepsBuckets(records: seq<Attendance>, weekStart: Time, dayKey: Time -> string, order0: seq<string>, counts0: map<string, int>)
    requires Buckets(order0, counts0)
    ensures var o, c := OrderAfter(records, weekStart, dayKey, order0, counts0), CountsAfter(records, weekStart, dayKey, counts0);
      && Buckets(o, c)
      && |order0| <= |o| && o[..|order0|] == order0
      && (forall k :: k in counts0 ==> k in c)
    decreases |records|
  {
    if records != [] {
      var init, last := records[..|records| - 1], records[|records| - 1];
      CountingKeepsBuckets(init, weekStart, dayKey, order0, counts0);
      var o, c := OrderAfter(init, weekStart, dayKey, order0, counts0), CountsAfter(init, weekStart, dayKey, counts0);
      if last.checkIn >= weekStart && dayKey(last.checkIn) !in c {
        var k := dayKey(last.checkIn);
        assert (o + [k])[..|order0|] == o[..|order0|];
        assert forall x :: x in o + [k] <==> x in o || x == k;
        forall i, j | 0 <= i < j < |o + [k]|
          ensures (o + [k])[i] != (o + [k])[j]
        {
          assert (o + [k])[i] == o[i] && o[i] in o;
        }
      }
    }
  }

  /** A bucket the first loop did not create is the day of some in-week record. */
  lemma {:induction false} NewBucketsFromRecords(records: seq<Attendance>, weekStart: Time, dayKey: Time -> string, counts0: map<string, int>)
    ensures forall k :: k in CountsAfter(records, weekStart, dayKey, counts0) && k !in counts0 ==>
      exists j :: 0 <= j < |records| && records[j].checkIn >= weekStart && dayKey(records[j].checkIn) == k
    decreases |records|
  {
    if records != [] {
      var init, last := records[..|records| - 1], records[|records| - 1];
      NewBucketsFromRecords(init, weekStart, dayKey, counts0);
      var c := CountsAfter(init, weekStart, dayKey, counts0);
      forall k | k in CountsAfter(records, weekStart, dayKey, counts0) && k !in counts0
        ensures exists j :: 0 <= j < |records| && records[j].checkIn >= weekStart && dayKey(records[j].checkIn) == k
      {
        if k in c {
          var j :| 0 <= j < |init| && init[j].checkIn >= weekStart && dayKey(init[j].checkIn) == k;
          assert records[j] == init[j];
        } else {
          assert records[|records| - 1] == last;
        }
      }
    }
  }

  /** Starting from zero buckets, every bucket ends as its day's in-week count, and a day without a bucket counts 0. */
  lemma {:induction false} CountsAreDayCounts(records: seq<Attendance>, weekStart: Time, dayKey: Time -> string, counts0: map<string, int>)
    requires forall k :: k in counts0 ==> counts0[k] == 0
    ensures var c := CountsAfter(records, weekStart, dayKey, counts0);
      forall k ::
        && (k in c ==> c[k] == DayCount(records, weekStart, dayKey, k))
        && (k !in c ==> DayCount(records, weekStart, dayKey, k) == 0)
    decreases |records|
  {
    if records != [] {
      CountsAreDayCounts(records[..|records| - 1], weekStart, dayKey, counts0);
    }
  }

  /** The buckets add up to the number of in-week records. */
  lemma {:induction false} CountsSum(records: seq<Attendance>, weekStart: Time, dayKey: Time -> string, order0: seq<string>, counts0: map<string, int>)
    requires Buckets(order0, counts0)
    requires forall k :: k in counts0 ==> counts0[k] == 0
    ensures var o, c := OrderAfter(records, weekStart, dayKey, order0, counts0), CountsAfter(records, weekStart, dayKey, counts0);
      Buckets(o, c) && SumAlong(o, c) == InWeekCount(records, weekStart)
    decreases |records|
  {
    CountingKeepsBuckets(records, weekStart, dayKey, order0, counts0);
    if records == [] {
      SumAlongZeros(order0, counts0);
    } else {
      var init, last := records[..|records| - 1], records[|records| - 1];
      CountsSum(init, weekStart, dayKey, order0, counts0);
      var o, c := OrderAfter(init, weekStart, dayKey, order0, counts0), CountsAfter(init, weekStart, dayKey, counts0);
      if last.checkIn >= weekStart {
        var k := dayKey(last.checkIn);
        if k in c {
          SumAlongIncrement(o, c, k);
        } else {
          SumAlongAppend(o, c, k, 1);
        }
      }
    }
  }

  /**
   * The second `forEach`: each record at or after the week start adds one to
   * its day's bucket, creating the bucket when its day had none.
   */
  method CountRecords(records: seq<Attendance>, weekStart: Time, dayKey: Time -> string, order0: seq<string>, counts0: map<string, int>)
    returns (order: seq<string>, counts: map<string, int>)
    requires Distinct(order0)
    requires forall k :: k in order0 <==> k in counts0
    requires forall k :: k in counts0 ==> counts0[k] == 0
    ensures Distinct(order)
    ensures forall k :: k in order <==> k in counts
    ensures forall k :: k in counts0 ==> k in counts
    ensures |order0| <= |order| && order[..|order0|] == order0
    ensures forall k :: k in counts && k !in counts0 ==>
      exists j :: 0 <= j < |records| && records[j].checkIn >= weekStart && dayKey(records[j].checkIn) == k
    ensures forall k :: k in counts ==> counts[k] == DayCount(records, weekStart, dayKey, k)
    ensures SumAlong(order, counts) == InWeekCount(records, weekStart)
  {
    order, counts := order0, counts0;
    for n := 0 to |records|
      invariant order == OrderAfter(records[..n], weekStart, dayKey, order0, counts0)
      invariant counts == CountsAfter(records[..n], weekStart, dayKey, counts0)
    {
      var record := records[n];
      assert records[..n + 1][..n] == records[..n] && records[..n + 1][n] == record;
      if record.checkIn >= weekStart {
        var key := dayKey(record.checkIn);
        if key in counts {
          counts := counts[key := counts[key] + 1];
        } else {
          order := order + [key];
          counts := counts[key := 1];
        }
      }
    }
    assert records[..|records|] == records;
    CountingKeepsBuckets(records, weekStart, dayKey, order0, counts0);
    NewBucketsFromRecords(records, weekStart, dayKey, counts0);
    CountsAreDayCounts(records, weekStart, dayKey, counts0);
    CountsSum(records, weekStart, dayKey, order0, counts0);
  }

  /**
   * The bucketing. `fetched` is the fetched data (None when the response failed
   * or carried no data), `days` the instants from the week's start to today,
   * `weekStart` the start of the week and `dayKey` the day-name formatter.
   * Every day gets a bar, each bar counts the in-week records of its day, and
   * the bars add up to the number of in-week records.
   */
  method Bucket(fetched: Option<seq<Attendance>>, days: seq<Time>, weekStart: Time, dayKey: Time -> string)
    returns (chart: seq<ChartPoint>)
    ensures fetched.None? ==> chart == []
    ensures fetched.Some? ==> Distinct(Days(chart))
    ensures fetched.Some? ==> forall j :: 0 <= j < |days| ==> dayKey(days[j]) in Days(chart)
    ensures fetched.Some? ==>
      var first := FirstSeen(DayNames(days, dayKey));
      |first| <= |chart| && Days(chart)[..|first|] == first
    ensures fetched.Some? ==> forall i :: 0 <= i < |chart| ==>
      || (exists j :: 0 <= j < |days| && dayKey(days[j]) == chart[i].day)
      || (exists j :: 0 <= j < |fetched.value| && fetched.value[j].checkIn >= weekStart
                       && dayKey(fetched.value[j].checkIn) == chart[i].day)
    ensures fetched.Some? ==> forall i :: 0 <= i < |chart| ==> chart[i].count == DayCount(fetched.value, weekStart, dayKey, chart[i].day)
    ensures fetched.Some? ==> Total(chart) == InWeekCount(fetched.value, weekStart)
  {
    if fetched.None? {
      return [];
    }
    var order0, counts0 := InitBuckets(days, dayKey);
    var order, counts := CountRecords(fetched.value, weekStart, dayKey, order0, counts0);
    chart := Entries(order, counts);
    TotalEntries(order, counts);
    assert Days(chart) == order && order[..|order0|] == order0 == FirstSeen(DayNames(days, dayKey));
    forall i | 0 <= i < |chart|
      ensures chart[i].day in counts
      ensures || (exists j :: 0 <= j < |days| && dayKey(days[j]) == chart[i].day)
              || (exists j :: 0 <= j < |fetched.value| && fetched.value[j].checkIn >= weekStart
                               && dayKey(fetched.value[j].checkIn) == chart[i].day)
    {
      assert Days(chart)[i] == chart[i].day == order[i];
      if chart[i].day !in counts0 {
        assert chart[i].day in counts;
      }
    }
  }
}
