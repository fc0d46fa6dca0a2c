/** The data the dashboard and reports pages hand to their charts, as functions of the
    entries of the store. */
module Views {
  import opened Seqs
  import opened Models
  import opened Aggregation
  import opened Series
  import opened Ranking

  datatype Dashboard = Dashboard(
    totalEntries: nat,
    avgCalories: real,
    week: WeekSeries,
    bottoms: BarBottoms,
    topFoods: seq<FoodCount>)

  function DashboardOf(es: seq<FoodEntry>): Dashboard
  {
    var week := WeekSeriesOf(es);
    Dashboard(|es|, DisplayedAverage(es), week, BarBottomsOf(week), TopFoods(es))
  }

  lemma DashboardParts(es: seq<FoodEntry>)
    ensures
      var d := DashboardOf(es);
      && d.totalEntries == |es|
      && d.avgCalories == DisplayedAverage(es)
      && d.week == WeekSeriesOf(es)
      && d.bottoms == BarBottomsOf(d.week)
      && d.topFoods == TopFoods(es)
  {
  }

  /** The dashboard's count and average. */
  lemma DashboardAverage(es: seq<FoodEntry>)
    ensures
      var d := DashboardOf(es);
      && d.totalEntries == |es|
      && (es == [] ==> d.avgCalories == 0.0)
      && (es != [] ==> d.avgCalories == Sum(es, Calories) / (|es| as real))
  {
    DashboardParts(es);
  }

  /** The dashboard's pie of foods is a top-five ranking. */
  lemma DashboardRanking(es: seq<FoodEntry>)
    ensures IsTopFoods(es, DashboardOf(es).topFoods)
  {
    DashboardParts(es);
    TopFoodsRanked(es);
  }

  /** An empty store shows average 0 and empty charts. */
  lemma EmptyDashboard(es: seq<FoodEntry>)
    requires es == []
    ensures
      var d := DashboardOf(es);
      && d.totalEntries == 0 && d.avgCalories == 0.0
      && d.week.dates == [] && d.week.calories == [] && d.week.protein == []
      && d.week.carbs == [] && d.week.fat == []
      && d.bottoms.carbs == [] && d.bottoms.fat == [] && d.topFoods == []
  {
    DashboardParts(es);
    assert DatesOf(es) == {};
    WeekSeriesShape(es);
    assert NamesOf(es) == {};
    TopFoodsRanked(es);
  }

  datatype Reports = Reports(
    totalProtein: real,
    totalCarbs: real,
    totalFat: real,
    dailyDates: seq<Date>,
    dailyCalories: seq<real>,
    calorieValues: seq<real>)

  function ReportsOf(es: seq<FoodEntry>): Reports
  {
    var daily := GroupByDate(es, Ascending);
    Reports(
      Total(es, Protein),
      Total(es, Carbs),
      Total(es, Fat),
      DateColumn(daily),
      Column(daily, Calories),
      seq(|es|, i requires 0 <= i < |es| => es[i].calories))
  }

  /** The reports series keep every date, oldest first, with no cap, each with its
      calorie sum; the daily sums add up to the calorie total, and the histogram gets
      one value per entry. */
  lemma ReportsSeries(es: seq<FoodEntry>)
    ensures
      var r := ReportsOf(es);
      && |r.dailyDates| == |DatesOf(es)| && |r.dailyCalories| == |DatesOf(es)|
      && StrictlyAscending(r.dailyDates)
      && (forall d :: d in DatesOf(es) <==> d in r.dailyDates)
      && (forall i :: 0 <= i < |r.dailyDates| ==> r.dailyCalories[i] == SumOn(es, r.dailyDates[i], Calories))
      && SumReals(r.dailyCalories) == Sum(es, Calories)
      && |r.calorieValues| == |es|
      && (forall i :: 0 <= i < |es| ==> r.calorieValues[i] == es[i].calories)
  {
    var daily := GroupByDate(es, Ascending);
    GroupCount(es, Ascending);
    GroupSumsPartition(es, Ascending, Calories);
    var ds := DateColumn(daily);
    assert forall i :: 0 <= i < |daily| ==> ds[i] == daily[i].date;
    forall d | d in DatesOf(es)
      ensures d in ds
    {
      var i :| 0 <= i < |daily| && daily[i].date == d;
      assert ds[i] == d;
    }
  }

  /** The macro pie's three totals are the global sums, 0 for an empty store, and equal
      the sums of the per-date groups. */
  lemma ReportsTotals(es: seq<FoodEntry>)
    ensures
      var r := ReportsOf(es);
      && r.totalProtein == Sum(es, Protein) == SumReals(Column(GroupByDate(es, Ascending), Protein))
      && r.totalCarbs == Sum(es, Carbs) == SumReals(Column(GroupByDate(es, Ascending), Carbs))
      && r.totalFat == Sum(es, Fat) == SumReals(Column(GroupByDate(es, Ascending), Fat))
      && (es == [] ==> r.totalProtein == 0.0 && r.totalCarbs == 0.0 && r.totalFat == 0.0)
  {
    GroupSumsPartition(es, Ascending, Protein);
    GroupSumsPartition(es, Ascending, Carbs);
    GroupSumsPartition(es, Ascending, Fat);
  }
}
