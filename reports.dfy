/** The admin revenue report (GET /api/admin/reports,
    app/api/admin/reports/route.ts): the auth guard, the choice of bucket
    format and lookback window from the `range` parameter, and the shaping of
    the query results into the response. The two SQL queries are supplied as
    functions of the parameters the handler passes them. */
module Reports {
  import opened Common

  /** The handler's `interval`, `format` and `limit` variables. */
  datatype RangeSettings = RangeSettings(interval: string, format: string, limit: int)

  /** The settings of the four ranges the report knows. */
  const DaySettings := RangeSettings("1 hour", "HH24:00", 24)
  const WeekSettings := RangeSettings("1 day", "DD/MM", 7)
  const MonthSettings := RangeSettings("1 day", "DD/MM", 30)
  const YearSettings := RangeSettings("1 month", "MM/YYYY", 12)

  /** The requested range, or `day` when the parameter is absent or empty. */
  function EffectiveRange(param: Option<string>): string {
    if Truthy(param) then param.value else "day"
  }

  /** The settings of a range; any unknown name gets the day settings. */
  function Settings(range: string): RangeSettings {
    match range
    case "week" => WeekSettings
    case "month" => MonthSettings
    case "year" => YearSettings
    case _ => DaySettings
  }

  /** The handler's if-chain: start from the day settings and overwrite them
      for week, month or year. */
  method SelectRange(param: Option<string>) returns (interval: string, format: string, limit: int)
    ensures RangeSettings(interval, format, limit) == Settings(EffectiveRange(param))
  {
    var range := if Truthy(param) then param.value else "day";
    interval := "1 hour";
    format := "HH24:00";
    limit := 24;
    if range == "week" {
      interval := "1 day";
      format := "DD/MM";
      limit := 7;
    } else if range == "month" {
      interval := "1 day";
      format := "DD/MM";
      limit := 30;
    } else if range == "year" {
      interval := "1 month";
      format := "MM/YYYY";
      limit := 12;
    }
  }

  // ------------------------------------------------------------ lookback window

  /** JavaScript's `s.split(sep)`: the pieces between separators, empty pieces
      included. */
  function Split(s: string, sep: char): (parts: seq<string>)
    ensures |parts| >= 1
    ensures forall k :: 0 <= k < |parts| ==> sep !in parts[k]
    decreases |s|
  {
    if s == [] then [""]
    else
      var rest := Split(s[1..], sep);
      if s[0] == sep then [""] + rest
      else [[s[0]] + rest[0]] + rest[1..]
  }

  /** The pieces glued back together with the separator between them. */
  function Join(parts: seq<string>, sep: char): string
    requires |parts| >= 1
  {
    if |parts| == 1 then parts[0] else parts[0] + [sep] + Join(parts[1..], sep)
  }

  /** Splitting loses nothing: joining the pieces gives the string back. */
  lemma {:induction false} SplitJoin(s: string, sep: char)
    ensures Join(Split(s, sep), sep) == s
    decreases |s|
  {
    if s != [] {
      var rest := Split(s[1..], sep);
      SplitJoin(s[1..], sep);
      if s[0] == sep {
        assert Split(s, sep)[1..] == rest;
      } else {
        var parts := Split(s, sep);
        if |rest| == 1 {
          assert parts == [[s[0]] + rest[0]];
        } else {
          assert parts[1..] == rest[1..];
          assert Join(rest, sep) == rest[0] + [sep] + Join(rest[1..], sep);
        }
      }
    }
  }

  /** The SQL window `INTERVAL '<limit> <unit>'`, where the unit is
      `interval.split(' ')[1]` (absent if the interval has no space). */
  datatype Lookback = Lookback(count: int, unit: Option<string>)

  function LookbackOf(s: RangeSettings): Lookback {
    var parts := Split(s.interval, ' ');
    Lookback(s.limit, if |parts| > 1 then Some(parts[1]) else None)
  }

  /** The windows: 24 hours, 7 days, 30 days, 12 months; the bucket labels are
      per hour for a day and per day or month otherwise. */
  lemma DayWindow()
    ensures LookbackOf(Settings("day")) == Lookback(24, Some("hour")) && Settings("day").format == "HH24:00"
  {
    UnitOf(DaySettings.interval, "1", "hour");
  }

  lemma WeekWindow()
    ensures LookbackOf(Settings("week")) == Lookback(7, Some("day")) && Settings("week").format == "DD/MM"
  {
    UnitOf(WeekSettings.interval, "1", "day");
  }

  lemma MonthWindow()
    ensures LookbackOf(Settings("month")) == Lookback(30, Some("day")) && Settings("month").format == "DD/MM"
  {
    UnitOf(MonthSettings.interval, "1", "day");
  }

  lemma YearWindow()
    ensures LookbackOf(Settings("year")) == Lookback(12, Some("month")) && Settings("year").format == "MM/YYYY"
  {
    UnitOf(YearSettings.interval, "1", "month");
  }

  /** The unit of an interval written `<n> <unit>` is `<unit>`. */
  lemma UnitOf(interval: string, n: string, unit: string)
    requires interval == n + " " + unit && ' ' !in n && ' ' !in unit
    ensures forall f, l :: LookbackOf(RangeSettings(interval, f, l)) == Lookback(l, Some(unit))
  {
    SplitWords(n, unit);
  }

  lemma {:induction false} SplitWords(a: string, b: string)
    requires ' ' !in a && ' ' !in b
    ensures Split(a + " " + b, ' ') == [a, b]
    decreases |a|
  {
    if a == [] {
      assert a + " " + b == [' '] + b;
      SplitNoSeparator(b, ' ');
    } else {
      SplitWords(a[1..], b);
      var s := a + " " + b;
      assert s[0] == a[0] && a[0] != ' ';
      assert s[1..] == a[1..] + " " + b;
      assert [a[0]] + a[1..] == a;
    }
  }

  lemma {:induction false} SplitNoSeparator(s: string, sep: char)
    requires sep !in s
    ensures Split(s, sep) == [s]
    decreases |s|
  {
    if s != [] {
      SplitNoSeparator(s[1..], sep);
      assert s[0] != sep;
      assert [s[0]] + s[1..] == s;
    }
  }

  // ------------------------------------------------------------------ response

  /** One row of the bucket query: bucket label and the two sums, which SQL reports
      as null for an all-null group. */
  datatype BucketRow = BucketRow(bucket: string, revenue: Option<int>, profit: Option<int>)

  /** The totals row; `orderCount` is absent when the count does not parse as
      an integer. */
  datatype Totals = Totals(totalRevenue: Option<int>, totalProfit: Option<int>, orderCount: Option<int>)

  datatype ReportData = ReportData(
    labels: seq<string>,
    revenue: seq<int>,
    profit: seq<int>,
    totalRevenue: int,
    totalProfit: int,
    orderCount: int)

  /** The response `data`: three parallel series with one entry per bucket row,
      in row order, and the totals; every null becomes 0. */
  function Shape(rows: seq<BucketRow>, totals: Totals): (d: ReportData)
    ensures |d.labels| == |rows| && |d.revenue| == |rows| && |d.profit| == |rows|
    ensures forall k :: 0 <= k < |rows| ==>
      && d.labels[k] == rows[k].bucket
      && d.revenue[k] == (if rows[k].revenue.Some? then rows[k].revenue.value else 0)
      && d.profit[k] == (if rows[k].profit.Some? then rows[k].profit.value else 0)
    ensures d.totalRevenue == (if totals.totalRevenue.Some? then totals.totalRevenue.value else 0)
    ensures d.totalProfit == (if totals.totalProfit.Some? then totals.totalProfit.value else 0)
    ensures d.orderCount == (if totals.orderCount.Some? then totals.orderCount.value else 0)
  {
    ReportData(
      seq(|rows|, k requires 0 <= k < |rows| => rows[k].bucket),
      seq(|rows|, k requires 0 <= k < |rows| => rows[k].revenue.GetOr(0)),
      seq(|rows|, k requires 0 <= k < |rows| => rows[k].profit.GetOr(0)),
      totals.totalRevenue.GetOr(0),
      totals.totalProfit.GetOr(0),
      totals.orderCount.GetOr(0))
  }

  datatype Response = Unauthorized | Report(data: ReportData)

  function Status(r: Response): int {
    if r.Unauthorized? then 401 else 200
  }

  /** GET /api/admin/reports. `isAdmin` is the session check's verdict;
      `buckets(format, window)` and `totals(window)` stand for the two
      queries. A request without a valid session is answered 401 whatever
      the queries would return, so neither is consulted. */
  method Get(isAdmin: bool, rangeParam: Option<string>,
             buckets: (string, Lookback) -> seq<BucketRow>, totals: Lookback -> Totals)
    returns (resp: Response)
    ensures !isAdmin ==> resp == Unauthorized && Status(resp) == 401
    ensures isAdmin ==>
      var s := Settings(EffectiveRange(rangeParam));
      resp == Report(Shape(buckets(s.format, LookbackOf(s)), totals(LookbackOf(s))))
  {
    if !isAdmin {
      return Unauthorized;
    }
    var interval, format, limit := SelectRange(rangeParam);
    var parts := Split(interval, ' ');
    var window := Lookback(limit, if |parts| > 1 then Some(parts[1]) else None);
    var rows := buckets(format, window);
    var stats := totals(window);
    resp := Report(Shape(rows, stats));
  }
}
