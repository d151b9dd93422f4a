/**
 What the dashboard's data layer promises: the season dictionary is total on
 the twelve months, the filter keeps exactly the rows of its range, and each
 aggregation has one entry per key present, in ascending key order, and
 loses no part of the column it sums.
 */
module DashboardProperties {
  import opened Grouping
  import opened Calendar
  import opened Dashboard

  // ---------------------------------------------------------------------------
  // Seasons

  /** The dictionary has an entry for exactly the months 1 to 12. */
  lemma SeasonLookupIsTotal()
    ensures forall m :: m in SeasonByMonth <==> 1 <= m <= 12
  {
  }

  /** Winter is December to February, spring March to May, summer June to August, fall September to November. */
  lemma SeasonsHaveThreeMonths(s: Season)
    ensures MonthsOf(Winter) == {12, 1, 2}
    ensures MonthsOf(Spring) == {3, 4, 5}
    ensures MonthsOf(Summer) == {6, 7, 8}
    ensures MonthsOf(Fall) == {9, 10, 11}
    ensures |MonthsOf(s)| == 3
  {
  }

  /** Season entries come out in the alphabetical order of their labels. */
  lemma SeasonOrderIsAlphabetical(a: Season, b: Season)
    ensures SeasonBefore(a, b) <==> LabelBefore(SeasonName(a), SeasonName(b))
  {
    assert LabelBefore("Fall", "Spring") && LabelBefore("Fall", "Summer") && LabelBefore("Fall", "Winter");
    assert LabelBefore("Spring", "Summer") && LabelBefore("Spring", "Winter") && LabelBefore("Summer", "Winter");
    assert !LabelBefore("Spring", "Fall") && !LabelBefore("Summer", "Fall") && !LabelBefore("Winter", "Fall");
    assert !LabelBefore("Summer", "Spring") && !LabelBefore("Winter", "Spring") && !LabelBefore("Winter", "Summer");
    assert !LabelBefore(SeasonName(a), SeasonName(a));
  }

  // ---------------------------------------------------------------------------
  // Date-range filter

  /** The filter keeps the order of the table: filtering a concatenation concatenates the filtered parts. */
  lemma {:induction false} FilterByDateAppend(a: seq<Row>, b: seq<Row>, start: CalendarDate, end: CalendarDate)
    ensures FilterByDate(a + b, start, end) == FilterByDate(a, start, end) + FilterByDate(b, start, end)
  {
    if |a| > 0 {
      assert (a + b)[0] == a[0];
      assert (a + b)[1..] == a[1..] + b;
      FilterByDateAppend(a[1..], b, start, end);
    } else {
      assert a + b == b;
    }
  }

  /** A table whose every row is dated within the range passes the filter whole. */
  lemma {:induction false} FilterByDateKeepsAll(table: seq<Row>, start: CalendarDate, end: CalendarDate)
    requires forall i :: 0 <= i < |table| ==> InRange(table[i].dteday, start, end)
    ensures FilterByDate(table, start, end) == table
  {
    if |table| > 0 {
      FilterByDateKeepsAll(table[1..], start, end);
      assert [table[0]] + table[1..] == table;
    }
  }

  /** Filtering again with the same range changes nothing. */
  lemma FilterByDateIdempotent(table: seq<Row>, start: CalendarDate, end: CalendarDate)
    ensures FilterByDate(FilterByDate(table, start, end), start, end) == FilterByDate(table, start, end)
  {
    var selected := FilterByDate(table, start, end);
    forall i | 0 <= i < |selected| ensures InRange(selected[i].dteday, start, end) {
      assert selected[i] in selected;
    }
    FilterByDateKeepsAll(selected, start, end);
  }

  /** A range that ends before it starts selects no row. */
  lemma FilterByDateInvertedRange(table: seq<Row>, start: CalendarDate, end: CalendarDate)
    requires Before(end, start)
    ensures FilterByDate(table, start, end) == []
  {
    var selected := FilterByDate(table, start, end);
    if |selected| > 0 {
      var d := selected[0].dteday;
      assert selected[0] in selected;
      BeforeIsStrictTotalOrder(start, d, end);
      BeforeIsStrictTotalOrder(end, start, d);
      BeforeIsStrictTotalOrder(d, end, start);
      assert false;
    }
  }

  /** The derived columns stay consistent in the filtered table. */
  lemma FilterByDateKeepsPrepared(table: seq<Row>, start: CalendarDate, end: CalendarDate)
    requires Prepared(table)
    ensures Prepared(FilterByDate(table, start, end))
  {
    var selected := FilterByDate(table, start, end);
    forall i | 0 <= i < |selected|
      ensures selected[i].month == selected[i].dteday.month && selected[i].month in MonthsOf(selected[i].season)
    {
      assert selected[i] in table;
    }
  }

  /**
   The picker's initial range exists exactly when the table has a row, runs
   from the earliest to the latest date, and selects the whole table.
   */
  lemma DefaultRangeSelectsWholeTable(table: seq<Row>)
    ensures DefaultRange(table).Some? <==> |table| > 0
    ensures DefaultRange(table).Some? ==>
      var range := DefaultRange(table).value;
      && AtOrBefore(range.start, range.end)
      && FilterByDate(table, range.start, range.end) == table
  {
    if |table| > 0 {
      var range := DefaultRange(table).value;
      FilterByDateKeepsAll(table, range.start, range.end);
    }
  }

  // ---------------------------------------------------------------------------
  // Rentals per month and per season

  /** The rentals of a season are the sum of the monthly entries of its months. */
  lemma SeasonTotalIsSumOfMonths(table: seq<Row>, s: Season)
    requires Prepared(table)
    ensures SumBy(table, SeasonKey, s, Cnt) == Sum(Select(CalculateRentals(table).monthly, MonthsOf(s)), GroupTotal)
  {
    var months := Keys(table, MonthKey, IntLess);
    var inSeason := Where(months, MonthsOf(s));
    KeyOrdersAreStrictTotal();
    KeysAscending(table, MonthKey, IntLess);
    WhereDistinct(months, MonthsOf(s));
    SelectTally(months, table, MonthKey, Cnt, MonthsOf(s));
    forall i | 0 <= i < |table| ensures SeasonKey(table[i]) == s <==> MonthKey(table[i]) in inSeason {
      assert Present(table, MonthKey, MonthKey(table[i]));
      SeasonsHaveThreeMonths(s);
      SeasonsHaveThreeMonths(table[i].season);
    }
    SumByCoarsen(table, MonthKey, inSeason, SeasonKey, s, Cnt);
  }

  /** Each entry of `seasonal_rentals` is the sum of the `monthly_rentals` entries of its months. */
  lemma SeasonalIsSumOfMonthly(table: seq<Row>)
    requires Prepared(table)
    ensures var r := CalculateRentals(table);
      forall j :: 0 <= j < |r.seasonal| ==>
        r.seasonal[j].total == Sum(Select(r.monthly, MonthsOf(r.seasonal[j].key)), GroupTotal)
  {
    var r := CalculateRentals(table);
    forall j | 0 <= j < |r.seasonal|
      ensures r.seasonal[j].total == Sum(Select(r.monthly, MonthsOf(r.seasonal[j].key)), GroupTotal)
    {
      SeasonTotalIsSumOfMonths(table, r.seasonal[j].key);
    }
  }

  // ---------------------------------------------------------------------------
  // The empty table

  /** A table without rows, e.g. after a range that selects nothing, gives empty groupings and a zero total. */
  lemma EmptyTableGivesEmptyResults()
    ensures CalculateRentals([]) == Rentals([], [])
    ensures CalculateTotalVisitors([]) == VisitorCounts(0, [])
    ensures AnalyzeRentalsByTemp([]) == []
  {
  }

  // ---------------------------------------------------------------------------
  // A worked example

  const JanuaryRow := Row(Date(2011, 1, 1), 10, 2, 8, 0.3, 1, Winter)
  const JuneRow := Row(Date(2011, 6, 15), 20, 5, 15, 0.6, 6, Summer)

  lemma ExampleSeasonKeys()
    ensures Keys([JanuaryRow, JuneRow], SeasonKey, SeasonBefore) == [Summer, Winter]
  {
    assert [JanuaryRow, JuneRow][1..] == [JuneRow];
    assert Keys([JuneRow], SeasonKey, SeasonBefore) == [Summer];
    assert !SeasonBefore(Winter, Summer);
    assert Insert([Summer], Winter, SeasonBefore) == [Summer] + Insert([], Winter, SeasonBefore);
  }

  lemma ExampleMonthKeys()
    ensures Keys([JanuaryRow, JuneRow], MonthKey, IntLess) == [1, 6]
  {
    assert [JanuaryRow, JuneRow][1..] == [JuneRow];
    assert Keys([JuneRow], MonthKey, IntLess) == [6];
  }

  lemma ExampleFilter()
    ensures FilterByDate([JanuaryRow, JuneRow], Date(2011, 6, 1), Date(2011, 6, 30)) == [JuneRow]
  {
    assert [JanuaryRow, JuneRow][1..] == [JuneRow];
    assert !InRange(JanuaryRow.dteday, Date(2011, 6, 1), Date(2011, 6, 30));
    assert InRange(JuneRow.dteday, Date(2011, 6, 1), Date(2011, 6, 30));
  }

  lemma ExampleMonthly()
    ensures CalculateRentals([JanuaryRow, JuneRow]).monthly == [Group(1, 10), Group(6, 20)]
  {
    var table := [JanuaryRow, JuneRow];
    ExampleMonthKeys();
    assert table[1..] == [JuneRow] && [JuneRow][1..] == [];
    assert SumBy([JuneRow], MonthKey, 1, Cnt) == 0 && SumBy([JuneRow], MonthKey, 6, Cnt) == 20;
    assert SumBy(table, MonthKey, 1, Cnt) == 10 && SumBy(table, MonthKey, 6, Cnt) == 20;
  }

  lemma ExampleSeasonal()
    ensures CalculateRentals([JanuaryRow, JuneRow]).seasonal == [Group(Summer, 20), Group(Winter, 10)]
  {
    var table := [JanuaryRow, JuneRow];
    ExampleSeasonKeys();
    assert table[1..] == [JuneRow] && [JuneRow][1..] == [];
    assert SumBy([JuneRow], SeasonKey, Summer, Cnt) == 20 && SumBy([JuneRow], SeasonKey, Winter, Cnt) == 0;
    assert SumBy(table, SeasonKey, Summer, Cnt) == 20 && SumBy(table, SeasonKey, Winter, Cnt) == 10;
  }

  lemma ExampleFilteredRentals()
    ensures CalculateRentals(FilterByDate([JanuaryRow, JuneRow], Date(2011, 6, 1), Date(2011, 6, 30))).monthly == [Group(6, 20)]
  {
    ExampleFilter();
    assert Keys([JuneRow], MonthKey, IntLess) == [6];
  }

  lemma ExampleVisitors()
    ensures CalculateTotalVisitors([JanuaryRow, JuneRow]).totalVisitorDay == 30
  {
    assert [JanuaryRow, JuneRow][1..] == [JuneRow] && [JuneRow][1..] == [];
    assert Sum([JuneRow], Visitors) == 20;
    assert Sum([JanuaryRow, JuneRow], Visitors) == 10 + 20;
  }

  /** The raw rows of the example, as read from the data file. */
  const ExampleRaw: seq<RawRow> := [
    RawRow(Date(2011, 1, 1), 10, 2, 8, 0.3),
    RawRow(Date(2011, 6, 15), 20, 5, 15, 0.6)]

  lemma ExampleLoad()
    ensures LoadAndPrepare(ExampleRaw) == [JanuaryRow, JuneRow]
  {
  }

  /**
   Two rows, 2011-01-01 (cnt 10 = 2 casual + 8 registered) and 2011-06-15
   (cnt 20 = 5 + 15): January and June, winter and summer, 30 visitors; the
   range June 1 to June 30 keeps only the June row.
   */
  lemma TwoRowExample()
    ensures var table := LoadAndPrepare(ExampleRaw);
      && CalculateRentals(table) == Rentals([Group(1, 10), Group(6, 20)], [Group(Summer, 20), Group(Winter, 10)])
      && CalculateTotalVisitors(table).totalVisitorDay == 30
      && FilterByDate(table, Date(2011, 6, 1), Date(2011, 6, 30)) == [table[1]]
      && CalculateRentals(FilterByDate(table, Date(2011, 6, 1), Date(2011, 6, 30))).monthly == [Group(6, 20)]
  {
    ExampleLoad();
    ExampleMonthly();
    ExampleSeasonal();
    ExampleVisitors();
    ExampleFilter();
    ExampleFilteredRentals();
  }
}
