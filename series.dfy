/** Shaping the grouped sums into the dashboard's chart series. */
module Series {
  import opened Seqs
  import opened Models
  import opened Aggregation

  /** Number of most recent dates the dashboard charts. */
  const WINDOW: nat := 7

  /** `GROUP BY date ORDER BY date DESC LIMIT 7`. */
  function LastWeek(es: seq<FoodEntry>): seq<DayTotals>
  {
    var recentFirst := GroupByDate(es, Descending);
    recentFirst[..Min(WINDOW, |recentFirst|)]
  }

  /** Taking the seven most recent groups and reversing them gives the last (at most
      seven) groups of the chronological list: no padding when fewer dates exist. */
  lemma LastWeekReversed(es: seq<FoodEntry>)
    ensures
      var asc := GroupByDate(es, Ascending);
      var k := Min(WINDOW, |DatesOf(es)|);
      |asc| == |DatesOf(es)| && Reverse(LastWeek(es)) == asc[|asc| - k..]
  {
    var asc := GroupByDate(es, Ascending);
    GroupCount(es, Ascending);
    assert GroupByDate(es, Descending) == Reverse(asc);
    ReversedPrefix(asc, Min(WINDOW, |asc|));
  }

  /** The five dashboard lists, each reversed with `[::-1]`. */
  datatype WeekSeries = WeekSeries(
    dates: seq<Date>,
    calories: seq<real>,
    protein: seq<real>,
    carbs: seq<real>,
    fat: seq<real>)

  function WeekSeriesOf(es: seq<FoodEntry>): WeekSeries
  {
    var week := LastWeek(es);
    WeekSeries(
      Reverse(DateColumn(week)),
      Reverse(Column(week, Calories)),
      Reverse(Column(week, Protein)),
      Reverse(Column(week, Carbs)),
      Reverse(Column(week, Fat)))
  }

  /** The series formed directly from a list of groups. */
  function SeriesOfRows(rows: seq<DayTotals>): WeekSeries
  {
    WeekSeries(DateColumn(rows), Column(rows, Calories), Column(rows, Protein), Column(rows, Carbs),
               Column(rows, Fat))
  }

  /** Reversing every list separately is reversing the window once. */
  lemma WeekSeriesIsRecentGroups(es: seq<FoodEntry>)
    ensures
      var asc := GroupByDate(es, Ascending);
      var k := Min(WINDOW, |DatesOf(es)|);
      |asc| == |DatesOf(es)| && WeekSeriesOf(es) == SeriesOfRows(asc[|asc| - k..])
  {
    var week := LastWeek(es);
    LastWeekReversed(es);
    ColumnReverse(week, Calories);
    ColumnReverse(week, Protein);
    ColumnReverse(week, Carbs);
    ColumnReverse(week, Fat);
  }

  /** The last k groups of the chronological list: ascending dates of the entries, each
      later than every date left out. */
  lemma RecentGroupDates(es: seq<FoodEntry>, asc: seq<DayTotals>, k: nat)
    requires GroupedBy(es, Ascending, asc)
    requires k <= |asc|
    ensures
      var ds := DateColumn(asc[|asc| - k..]);
      && StrictlyAscending(ds)
      && (forall i :: 0 <= i < k ==> ds[i] in DatesOf(es))
      && (forall d, i :: d in DatesOf(es) && d !in ds && 0 <= i < k ==> Before(d, ds[i]))
  {
    var n := |asc|;
    var ds := DateColumn(asc[n - k..]);
    assert forall i :: 0 <= i < k ==> ds[i] == asc[n - k + i].date;
    forall i | 0 <= i < k
      ensures ds[i] in DatesOf(es)
    {
      assert asc[n - k + i].date == ds[i];
    }
    forall j | n - k <= j < n
      ensures asc[j].date in ds
    {
      assert ds[j - (n - k)] == asc[j].date;
    }
    forall d, i | d in DatesOf(es) && d !in ds && 0 <= i < k
      ensures Before(d, ds[i])
    {
      var j :| 0 <= j < n && asc[j].date == d;
    }
  }

  lemma GroupColumns(es: seq<FoodEntry>, rows: seq<DayTotals>)
    requires forall i :: 0 <= i < |rows| ==> rows[i] == GroupRow(es, rows[i].date)
    ensures
      var s := SeriesOfRows(rows);
      forall i :: 0 <= i < |rows| ==>
        && s.calories[i] == SumOn(es, s.dates[i], Calories)
        && s.protein[i] == SumOn(es, s.dates[i], Protein)
        && s.carbs[i] == SumOn(es, s.dates[i], Carbs)
        && s.fat[i] == SumOn(es, s.dates[i], Fat)
  {
  }

  /** The series show k dates of the entries, strictly ascending, every date left out
      being older than each one shown, and index i of every list is the sum of its
      measure on the date at index i. */
  ghost predicate RecentSeries(es: seq<FoodEntry>, s: WeekSeries, k: nat)
  {
    && |s.dates| == k && |s.calories| == k && |s.protein| == k && |s.carbs| == k && |s.fat| == k
    && StrictlyAscending(s.dates)
    && (forall i :: 0 <= i < k ==> s.dates[i] in DatesOf(es))
    && (forall i :: 0 <= i < k ==>
          && s.calories[i] == SumOn(es, s.dates[i], Calories)
          && s.protein[i] == SumOn(es, s.dates[i], Protein)
          && s.carbs[i] == SumOn(es, s.dates[i], Carbs)
          && s.fat[i] == SumOn(es, s.dates[i], Fat))
    && (forall d, i :: d in DatesOf(es) && d !in s.dates && 0 <= i < k ==> Before(d, s.dates[i]))
  }

  lemma RecentGroupsSeries(es: seq<FoodEntry>, asc: seq<DayTotals>, k: nat)
    requires GroupedBy(es, Ascending, asc)
    requires k <= |asc|
    ensures RecentSeries(es, SeriesOfRows(asc[|asc| - k..]), k)
  {
    var recent := asc[|asc| - k..];
    RecentGroupDates(es, asc, k);
    assert forall i :: 0 <= i < k ==> recent[i] == asc[|asc| - k + i];
    GroupColumns(es, recent);
  }

  /** The dashboard series hold the min(7, #dates) most recent dates, strictly ascending,
      and the five lists stay aligned: index i of every list belongs to the date at index i. */
  lemma WeekSeriesShape(es: seq<FoodEntry>)
    ensures RecentSeries(es, WeekSeriesOf(es), Min(WINDOW, |DatesOf(es)|))
  {
    var asc := GroupByDate(es, Ascending);
    WeekSeriesIsRecentGroups(es);
    RecentGroupsSeries(es, asc, Min(WINDOW, |DatesOf(es)|));
  }

  /** `[p + c for p, c in zip(protein, carbs)]`. */
  function ZipAdd(a: seq<real>, b: seq<real>): (r: seq<real>)
    ensures |r| == Min(|a|, |b|)
    ensures forall i :: 0 <= i < |r| ==> r[i] == a[i] + b[i]
  {
    if a == [] || b == [] then [] else [a[0] + b[0]] + ZipAdd(a[1..], b[1..])
  }

  /** The `bottom=` offsets of the stacked macro bars: carbs stand on protein,
      fat on protein plus carbs. */
  datatype BarBottoms = BarBottoms(carbs: seq<real>, fat: seq<real>)

  function BarBottomsOf(s: WeekSeries): BarBottoms
  {
    BarBottoms(s.protein, ZipAdd(s.protein, s.carbs))
  }

  /** The offsets are per date, not a running total across dates. */
  lemma BarBottomsPerDate(es: seq<FoodEntry>)
    ensures
      var s := WeekSeriesOf(es);
      var b := BarBottomsOf(s);
      && |b.carbs| == |s.dates| && |b.fat| == |s.dates|
      && forall i :: 0 <= i < |s.dates| ==>
           && b.carbs[i] == SumOn(es, s.dates[i], Protein)
           && b.fat[i] == SumOn(es, s.dates[i], Protein) + SumOn(es, s.dates[i], Carbs)
  {
    WeekSeriesShape(es);
  }

  lemma BarBottomsExample(d: Date)
    ensures BarBottomsOf(WeekSeries([d], [175.0], [10.0], [20.0], [5.0])) == BarBottoms([10.0], [30.0])
  {
  }
}
