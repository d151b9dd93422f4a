/**
 The data layer of the bike-rental dashboard: the rental table with its
 derived `month` and `season` columns, the inclusive date-range filter the
 sidebar feeds, and the three aggregations the dashboard displays (rentals
 per month and per season, visitors per day, rentals per temperature).
 */
module Dashboard {
  import opened Grouping
  import opened Calendar

  datatype Option<T> = None | Some(value: T)

  // ---------------------------------------------------------------------------
  // Seasons

  datatype Season = Winter | Spring | Summer | Fall

  /** The fixed month-to-season dictionary of the loader. */
  const SeasonByMonth: map<int, Season> := map[
    1 := Winter, 2 := Winter, 3 := Spring, 4 := Spring,
    5 := Spring, 6 := Summer, 7 := Summer, 8 := Summer,
    9 := Fall, 10 := Fall, 11 := Fall, 12 := Winter]

  /** The season label stored in the `season` column. */
  function SeasonName(s: Season): string
  {
    match s
    case Winter => "Winter"
    case Spring => "Spring"
    case Summer => "Summer"
    case Fall => "Fall"
  }

  /** Position of a season's label in alphabetical order, the order grouping sorts string keys in. */
  function SeasonRank(s: Season): int
  {
    match s
    case Fall => 0
    case Spring => 1
    case Summer => 2
    case Winter => 3
  }

  predicate SeasonBefore(a: Season, b: Season)
  {
    SeasonRank(a) < SeasonRank(b)
  }

  /** Lexicographic order of strings. */
  predicate LabelBefore(a: string, b: string)
  {
    if |a| == 0 then |b| > 0
    else if |b| == 0 then false
    else if a[0] != b[0] then a[0] < b[0]
    else LabelBefore(a[1..], b[1..])
  }

  /** The months whose dictionary entry is `s`. */
  function MonthsOf(s: Season): set<int>
  {
    set m | m in SeasonByMonth && SeasonByMonth[m] == s
  }

  /** The season of a month number, looked up in the dictionary. */
  function SeasonOf(m: Month): (s: Season)
    ensures m in MonthsOf(s)
    ensures s == Winter <==> m in {12, 1, 2}
    ensures s == Spring <==> m in {3, 4, 5}
    ensures s == Summer <==> m in {6, 7, 8}
    ensures s == Fall <==> m in {9, 10, 11}
  {
    SeasonByMonth[m]
  }

  // ---------------------------------------------------------------------------
  // The rental table

  /** A row as read from the data file, with its date already parsed. */
  datatype RawRow = RawRow(dteday: CalendarDate, cnt: int, casual: int, registered: int, temp: real)

  /** A row of the prepared table: the raw columns plus `month` and `season`. */
  datatype Row = Row(
    dteday: CalendarDate, cnt: int, casual: int, registered: int, temp: real,
    month: Month, season: Season)

  /** The loader's per-row step: keep the raw columns, add the date's month and that month's season. */
  function PrepareRow(raw: RawRow): (r: Row)
    ensures KeepsRaw(raw, r)
    ensures r.month == raw.dteday.month
    ensures r.month in MonthsOf(r.season)
  {
    var m := MonthOf(raw.dteday);
    Row(raw.dteday, raw.cnt, raw.casual, raw.registered, raw.temp, m, SeasonOf(m))
  }

  /** The raw columns of a prepared row are those of `raw`. */
  ghost predicate KeepsRaw(raw: RawRow, r: Row)
  {
    && r.dteday == raw.dteday && r.cnt == raw.cnt && r.casual == raw.casual
    && r.registered == raw.registered && r.temp == raw.temp
  }

  /** Every row's `month` is its date's month and its `season` that month's dictionary entry. */
  ghost predicate Prepared(table: seq<Row>)
  {
    forall i :: 0 <= i < |table| ==>
      table[i].month == table[i].dteday.month && table[i].month in MonthsOf(table[i].season)
  }

  /** The derivation step of the loader: add `month` and `season` to each row. */
  function LoadAndPrepare(raw: seq<RawRow>): (table: seq<Row>)
    ensures |table| == |raw|
    ensures forall i :: 0 <= i < |raw| ==> KeepsRaw(raw[i], table[i])
    ensures Prepared(table)
  {
    seq(|raw|, i requires 0 <= i < |raw| => PrepareRow(raw[i]))
  }

  // Columns, as function values for grouping.

  function MonthKey(r: Row): int { r.month }
  function SeasonKey(r: Row): Season { r.season }
  function DayKey(r: Row): CalendarDate { r.dteday }
  function TempKey(r: Row): real { r.temp }
  function Cnt(r: Row): int { r.cnt }
  function Casual(r: Row): int { r.casual }
  function Registered(r: Row): int { r.registered }
  function Visitors(r: Row): int { r.casual + r.registered }
  function One(r: Row): int { 1 }

  predicate IntLess(a: int, b: int) { a < b }
  predicate RealLess(a: real, b: real) { a < b }

  /** The four key orders used for grouping are strict total orders. */
  lemma KeyOrdersAreStrictTotal()
    ensures StrictTotalOrder(IntLess)
    ensures StrictTotalOrder(SeasonBefore)
    ensures StrictTotalOrder(Before)
    ensures StrictTotalOrder(RealLess)
  {
    forall a: CalendarDate, b: CalendarDate, c: CalendarDate
      ensures !Before(a, a)
      ensures Before(a, b) && Before(b, c) ==> Before(a, c)
      ensures a != b ==> Before(a, b) || Before(b, a)
    {
      BeforeIsStrictTotalOrder(a, b, c);
    }
  }

  // ---------------------------------------------------------------------------
  // Date-range filter

  predicate InRange(d: CalendarDate, start: CalendarDate, end: CalendarDate)
  {
    AtOrBefore(start, d) && AtOrBefore(d, end)
  }

  /** The rows dated from `start` to `end`, both inclusive, in table order. */
  function FilterByDate(table: seq<Row>, start: CalendarDate, end: CalendarDate): (selected: seq<Row>)
    ensures forall r :: r in selected <==> r in table && InRange(r.dteday, start, end)
    ensures |selected| <= |table|
  {
    if |table| == 0 then []
    else
      (if InRange(table[0].dteday, start, end) then [table[0]] else [])
      + FilterByDate(table[1..], start, end)
  }

  datatype DateRange = DateRange(start: CalendarDate, end: CalendarDate)

  /** The earliest date of a non-empty table (`min()` of `dteday`). */
  function EarliestDate(table: seq<Row>): (d: CalendarDate)
    requires |table| > 0
    ensures exists i :: 0 <= i < |table| && table[i].dteday == d
    ensures forall i :: 0 <= i < |table| ==> AtOrBefore(d, table[i].dteday)
  {
    if |table| == 1 then table[0].dteday
    else
      var rest := EarliestDate(table[1..]);
      BeforeIsStrictTotalOrder(table[0].dteday, rest, rest);
      assert forall i :: 1 <= i < |table| ==> AtOrBefore(rest, table[i].dteday) by {
        forall i | 1 <= i < |table| ensures AtOrBefore(rest, table[i].dteday) {
          assert table[1..][i - 1] == table[i];
        }
      }
      var d := if Before(table[0].dteday, rest) then table[0].dteday else rest;
      assert forall i :: 0 <= i < |table| ==> AtOrBefore(d, table[i].dteday) by {
        forall i | 0 <= i < |table| ensures AtOrBefore(d, table[i].dteday) {
          BeforeIsStrictTotalOrder(d, rest, table[i].dteday);
        }
      }
      assert exists i :: 0 <= i < |table| && table[i].dteday == d by {
        if d != table[0].dteday {
          var i :| 0 <= i < |table[1..]| && table[1..][i].dteday == rest;
          assert table[i + 1].dteday == d;
        }
      }
      d
  }

  /** The latest date of a non-empty table (`max()` of `dteday`). */
  function LatestDate(table: seq<Row>): (d: CalendarDate)
    requires |table| > 0
    ensures exists i :: 0 <= i < |table| && table[i].dteday == d
    ensures forall i :: 0 <= i < |table| ==> AtOrBefore(table[i].dteday, d)
  {
    if |table| == 1 then table[0].dteday
    else
      var rest := LatestDate(table[1..]);
      BeforeIsStrictTotalOrder(rest, table[0].dteday, rest);
      assert forall i :: 1 <= i < |table| ==> AtOrBefore(table[i].dteday, rest) by {
        forall i | 1 <= i < |table| ensures AtOrBefore(table[i].dteday, rest) {
          assert table[1..][i - 1] == table[i];
        }
      }
      var d := if Before(rest, table[0].dteday) then table[0].dteday else rest;
      assert forall i :: 0 <= i < |table| ==> AtOrBefore(table[i].dteday, d) by {
        forall i | 0 <= i < |table| ensures AtOrBefore(table[i].dteday, d) {
          BeforeIsStrictTotalOrder(table[i].dteday, rest, d);
        }
      }
      assert exists i :: 0 <= i < |table| && table[i].dteday == d by {
        if d != table[0].dteday {
          var i :| 0 <= i < |table[1..]| && table[1..][i].dteday == rest;
          assert table[i + 1].dteday == d;
        }
      }
      d
  }

  /**
   The range the date picker starts with, from the earliest to the latest
   date of the table; a table without rows has no date to start from.
   */
  function DefaultRange(table: seq<Row>): (r: Option<DateRange>)
    ensures r.Some? <==> |table| > 0
    ensures r.Some? ==> AtOrBefore(r.value.start, r.value.end)
    ensures r.Some? ==> forall i :: 0 <= i < |table| ==> InRange(table[i].dteday, r.value.start, r.value.end)
    ensures r.Some? ==> exists i :: 0 <= i < |table| && table[i].dteday == r.value.start
    ensures r.Some? ==> exists i :: 0 <= i < |table| && table[i].dteday == r.value.end
  {
    if |table| == 0 then None
    else
      var start, end := EarliestDate(table), LatestDate(table);
      assert AtOrBefore(start, table[0].dteday) && AtOrBefore(table[0].dteday, end);
      BeforeIsStrictTotalOrder(start, table[0].dteday, end);
      Some(DateRange(start, end))
  }

  // ---------------------------------------------------------------------------
  // Aggregations

  /** `monthly_rentals` and `seasonal_rentals`: the sum of `cnt` per month and per season. */
  datatype Rentals = Rentals(monthly: seq<Group<int>>, seasonal: seq<Group<Season>>)

  /**
   `monthly_rentals` has an entry exactly for each month present, in
   ascending month order, and `seasonal_rentals` one for each season present,
   in the alphabetical order of the labels; each entry is the sum of `cnt`
   over its rows, and the entries of either add up to the sum of `cnt` over
   the table.
   */
  function CalculateRentals(table: seq<Row>): (r: Rentals)
    ensures forall m :: (exists j :: 0 <= j < |r.monthly| && r.monthly[j].key == m) <==> Present(table, MonthKey, m)
    ensures forall i, j :: 0 <= i < j < |r.monthly| ==> r.monthly[i].key < r.monthly[j].key
    ensures forall j :: 0 <= j < |r.monthly| ==> r.monthly[j].total == SumBy(table, MonthKey, r.monthly[j].key, Cnt)
    ensures Sum(r.monthly, GroupTotal) == Sum(table, Cnt)
    ensures forall s :: (exists j :: 0 <= j < |r.seasonal| && r.seasonal[j].key == s) <==> Present(table, SeasonKey, s)
    ensures forall i, j :: 0 <= i < j < |r.seasonal| ==> SeasonBefore(r.seasonal[i].key, r.seasonal[j].key)
    ensures forall j :: 0 <= j < |r.seasonal| ==> r.seasonal[j].total == SumBy(table, SeasonKey, r.seasonal[j].key, Cnt)
    ensures Sum(r.seasonal, GroupTotal) == Sum(table, Cnt)
  {
    KeyOrdersAreStrictTotal();
    Rentals(GroupBySum(table, MonthKey, Cnt, IntLess), GroupBySum(table, SeasonKey, Cnt, SeasonBefore))
  }

  /** One row of `day_df`: a date and the sums of `registered`, `casual` and `cnt` over its rows. */
  datatype DayTotals = DayTotals(dteday: CalendarDate, registered: int, casual: int, cnt: int)

  function DayOf(d: DayTotals): CalendarDate { d.dteday }
  function DayRegistered(d: DayTotals): int { d.registered }
  function DayCasual(d: DayTotals): int { d.casual }
  function DayCnt(d: DayTotals): int { d.cnt }

  /** `total_visitor_day` and `day_df`. */
  datatype VisitorCounts = VisitorCounts(totalVisitorDay: int, days: seq<DayTotals>)

  /**
   `day_df`: one row per distinct date, in ascending date order, holding the
   sums of `registered`, `casual` and `cnt` over that date's rows; each of the
   three columns sums to the same column of the table.
   */
  function DailyTotals(table: seq<Row>): (days: seq<DayTotals>)
    ensures forall d :: (exists j :: 0 <= j < |days| && days[j].dteday == d) <==> Present(table, DayKey, d)
    ensures forall i, j :: 0 <= i < j < |days| ==> Before(days[i].dteday, days[j].dteday)
    ensures forall j :: 0 <= j < |days| ==>
      && days[j].registered == SumBy(table, DayKey, days[j].dteday, Registered)
      && days[j].casual == SumBy(table, DayKey, days[j].dteday, Casual)
      && days[j].cnt == SumBy(table, DayKey, days[j].dteday, Cnt)
    ensures Sum(days, DayRegistered) == Sum(table, Registered)
    ensures Sum(days, DayCasual) == Sum(table, Casual)
    ensures Sum(days, DayCnt) == Sum(table, Cnt)
  {
    var keys := Keys(table, DayKey, Before);
    var days := seq(|keys|, i requires 0 <= i < |keys| =>
      DayTotals(keys[i],
                SumBy(table, DayKey, keys[i], Registered),
                SumBy(table, DayKey, keys[i], Casual),
                SumBy(table, DayKey, keys[i], Cnt)));
    KeyOrdersAreStrictTotal();
    KeyedEntries(table, DayKey, Before, days, DayOf);
    KeyedSumConserves(table, DayKey, Before, Registered, days, DayRegistered);
    KeyedSumConserves(table, DayKey, Before, Casual, days, DayCasual);
    KeyedSumConserves(table, DayKey, Before, Cnt, days, DayCnt);
    days
  }

  /** `total_visitor_day`, the sum of `casual + registered` over the table, returned with `day_df`. */
  function CalculateTotalVisitors(table: seq<Row>): (r: VisitorCounts)
    ensures r.totalVisitorDay == Sum(table, Visitors)
    ensures r.days == DailyTotals(table)
  {
    var dayDf := DailyTotals(table);
    SumAdd(table, Casual, Registered, Visitors);
    VisitorCounts(Sum(dayDf, DayCasual) + Sum(dayDf, DayRegistered), dayDf)
  }

  /**
   One row of the temperature analysis: a temperature value, the number of
   rows with it and the sum of their `cnt` (the average is the quotient).
   */
  datatype TempRentals = TempRentals(temp: real, rows: int, totalRentals: int)

  function TempOf(t: TempRentals): real { t.temp }
  function TempRows(t: TempRentals): int { t.rows }
  function TempTotal(t: TempRentals): int { t.totalRentals }

  /**
   The temperature analysis: one entry per distinct `temp` value, in
   ascending order, without bucketing; each entry counts its rows (at least
   one, so its average is defined) and sums their `cnt`. The counts add up to
   the number of rows and the sums to the sum of `cnt` over the table.
   */
  function AnalyzeRentalsByTemp(table: seq<Row>): (temps: seq<TempRentals>)
    ensures forall t :: (exists j :: 0 <= j < |temps| && temps[j].temp == t) <==> Present(table, TempKey, t)
    ensures forall i, j :: 0 <= i < j < |temps| ==> temps[i].temp < temps[j].temp
    ensures forall j :: 0 <= j < |temps| ==>
      && temps[j].rows >= 1
      && temps[j].rows == SumBy(table, TempKey, temps[j].temp, One)
      && temps[j].totalRentals == SumBy(table, TempKey, temps[j].temp, Cnt)
    ensures Sum(temps, TempRows) == |table|
    ensures Sum(temps, TempTotal) == Sum(table, Cnt)
  {
    var keys := Keys(table, TempKey, RealLess);
    var temps := seq(|keys|, i requires 0 <= i < |keys| =>
      TempRentals(keys[i], SumBy(table, TempKey, keys[i], One), SumBy(table, TempKey, keys[i], Cnt)));
    KeyOrdersAreStrictTotal();
    KeyedEntries(table, TempKey, RealLess, temps, TempOf);
    assert forall j :: 0 <= j < |temps| ==> temps[j].rows >= 1 by {
      forall j | 0 <= j < |temps| ensures temps[j].rows >= 1 {
        SumByPositive(table, TempKey, keys[j], One);
      }
    }
    KeyedSumConserves(table, TempKey, RealLess, One, temps, TempRows);
    SumOfOnes(table, One);
    KeyedSumConserves(table, TempKey, RealLess, Cnt, temps, TempTotal);
    temps
  }
}
