/** The aggregate queries of the dashboard and reports pages, as functions of the entries. */
module Aggregation {
  import opened Seqs
  import opened Models

  /** SUM of one measure over the given entries. */
  function Sum(es: seq<FoodEntry>, m: Macro): real
  {
    if es == [] then 0.0 else Value(es[0], m) + Sum(es[1..], m)
  }

  /** SQL AVG: NULL (None) over no rows. */
  function Average(es: seq<FoodEntry>, m: Macro): (r: Option<real>)
    ensures r.None? <==> es == []
    ensures r.Some? ==> r.value * (|es| as real) == Sum(es, m)
  {
    if es == [] then None else Some(Sum(es, m) / (|es| as real))
  }

  /** The average shown on the dashboard: `avg if avg else 0` (rounding is not modelled). */
  function DisplayedAverage(es: seq<FoodEntry>): (r: real)
    ensures es == [] ==> r == 0.0
    ensures es != [] ==> r == Sum(es, Calories) / (|es| as real)
  {
    match Average(es, Calories)
    case None => 0.0
    case Some(avg) => if avg == 0.0 then 0.0 else avg
  }

  /** The column of one measure that a query reads, one value per entry. */
  function Values(es: seq<FoodEntry>, m: Macro): (vs: seq<real>)
    ensures |vs| == |es|
  {
    seq(|es|, i requires 0 <= i < |es| => Value(es[i], m))
  }

  lemma {:induction false} SumOfValues(es: seq<FoodEntry>, m: Macro)
    ensures Sum(es, m) == SumReals(Values(es, m))
  {
    if es != [] {
      SumOfValues(es[1..], m);
      assert Values(es, m)[1..] == Values(es[1..], m);
    }
  }

  /** SQL SUM: NULL (None) over no rows, otherwise the sum of the column's values. */
  function SqlSum(es: seq<FoodEntry>, m: Macro): (r: Option<real>)
    ensures r.None? <==> es == []
    ensures r.Some? ==> r.value == SumReals(Values(es, m))
  {
    SumOfValues(es, m);
    if es == [] then None else Some(Sum(es, m))
  }

  /** Python's `x or 0` on a query scalar. */
  function OrZero(x: Option<real>): real
  {
    match x
    case None => 0.0
    case Some(v) => if v == 0.0 then 0.0 else v
  }

  /** A total on the reports page: `SUM(...) or 0`. */
  function Total(es: seq<FoodEntry>, m: Macro): (r: real)
    ensures r == Sum(es, m)
    ensures es == [] ==> r == 0.0
  {
    OrZero(SqlSum(es, m))
  }

  function DatesOf(es: seq<FoodEntry>): set<Date>
  {
    set e | e in es :: e.date
  }

  predicate StrictlyAscending(ds: seq<Date>)
  {
    forall i, j :: 0 <= i < j < |ds| ==> Before(ds[i], ds[j])
  }

  function InsertDate(ds: seq<Date>, d: Date): (r: seq<Date>)
    requires StrictlyAscending(ds)
    ensures StrictlyAscending(r)
    ensures forall x :: x in r <==> x in ds || x == d
  {
    if ds == [] then [d]
    else if d == ds[0] then ds
    else if Before(d, ds[0]) then [d] + ds
    else
      assert Before(ds[0], d);
      var rest := InsertDate(ds[1..], d);
      assert forall x :: x in rest ==> Before(ds[0], x);
      [ds[0]] + rest
  }

  /** The distinct dates of the entries, oldest first. */
  function SortedDates(es: seq<FoodEntry>): (ds: seq<Date>)
    ensures StrictlyAscending(ds)
    ensures forall x :: x in ds <==> x in DatesOf(es)
  {
    if es == [] then []
    else
      assert forall x :: x in DatesOf(es) <==> x == es[0].date || x in DatesOf(es[1..]) by {
        assert es == [es[0]] + es[1..];
      }
      InsertDate(SortedDates(es[1..]), es[0].date)
  }

  lemma SortedDatesCount(es: seq<FoodEntry>)
    ensures |SortedDates(es)| == |DatesOf(es)|
  {
    var ds := SortedDates(es);
    DistinctCardinality(ds);
    assert (set x | x in ds) == DatesOf(es);
  }

  /** SUM of one measure over the entries of one date. */
  function SumOn(es: seq<FoodEntry>, d: Date, m: Macro): real
  {
    if es == [] then 0.0
    else (if es[0].date == d then Value(es[0], m) else 0.0) + SumOn(es[1..], d, m)
  }

  /** One row of `GROUP BY date` with the four sums. */
  datatype DayTotals = DayTotals(date: Date, calories: real, protein: real, carbs: real, fat: real)

  function TotalOf(row: DayTotals, m: Macro): real
  {
    match m
    case Calories => row.calories
    case Protein => row.protein
    case Carbs => row.carbs
    case Fat => row.fat
  }

  function GroupRow(es: seq<FoodEntry>, d: Date): DayTotals
  {
    DayTotals(d, SumOn(es, d, Calories), SumOn(es, d, Protein), SumOn(es, d, Carbs), SumOn(es, d, Fat))
  }

  function GroupRows(es: seq<FoodEntry>, ds: seq<Date>): seq<DayTotals>
  {
    seq(|ds|, i requires 0 <= i < |ds| => GroupRow(es, ds[i]))
  }

  datatype Order = Ascending | Descending

  predicate InOrder(order: Order, a: Date, b: Date)
  {
    if order == Ascending then Before(a, b) else Before(b, a)
  }

  /** What GROUP BY date with ORDER BY date promises of its rows: sorted in the given
      order, one row per distinct date, each row holding that date's sums. */
  ghost predicate GroupedBy(es: seq<FoodEntry>, order: Order, rs: seq<DayTotals>)
  {
    && (forall i, j :: 0 <= i < j < |rs| ==> InOrder(order, rs[i].date, rs[j].date))
    && (forall d :: d in DatesOf(es) <==> exists i :: 0 <= i < |rs| && rs[i].date == d)
    && (forall i :: 0 <= i < |rs| ==> rs[i] == GroupRow(es, rs[i].date))
  }

  lemma AscendingGroups(es: seq<FoodEntry>)
    ensures GroupedBy(es, Ascending, GroupRows(es, SortedDates(es)))
  {
    var ds := SortedDates(es);
    var rows := GroupRows(es, ds);
    assert forall i :: 0 <= i < |rows| ==> rows[i].date == ds[i];
    forall d | d in DatesOf(es)
      ensures exists i :: 0 <= i < |rows| && rows[i].date == d
    {
      var i :| 0 <= i < |ds| && ds[i] == d;
      assert rows[i].date == d;
    }
  }

  lemma ReversedGroups(es: seq<FoodEntry>, rows: seq<DayTotals>)
    requires GroupedBy(es, Ascending, rows)
    ensures GroupedBy(es, Descending, Reverse(rows))
  {
    var rev := Reverse(rows);
    var n := |rows|;
    forall d | d in DatesOf(es)
      ensures exists i :: 0 <= i < n && rev[i].date == d
    {
      var i :| 0 <= i < n && rows[i].date == d;
      assert rev[n - 1 - i] == rows[i];
    }
    forall i, j | 0 <= i < j < n
      ensures InOrder(Descending, rev[i].date, rev[j].date)
    {
      assert rev[i] == rows[n - 1 - i] && rev[j] == rows[n - 1 - j];
    }
  }

  /** `GROUP BY date ORDER BY date` (ascending, or `.desc()`). */
  function GroupByDate(es: seq<FoodEntry>, order: Order): (rs: seq<DayTotals>)
    ensures GroupedBy(es, order, rs)
  {
    var rows := GroupRows(es, SortedDates(es));
    AscendingGroups(es);
    if order == Ascending then rows
    else
      ReversedGroups(es, rows);
      Reverse(rows)
  }

  lemma GroupCount(es: seq<FoodEntry>, order: Order)
    ensures |GroupByDate(es, order)| == |DatesOf(es)|
  {
    SortedDatesCount(es);
  }

  /** The list of one sum, row by row: `[row.total_x for row in rows]`. */
  function Column(rs: seq<DayTotals>, m: Macro): (c: seq<real>)
    ensures |c| == |rs|
  {
    seq(|rs|, i requires 0 <= i < |rs| => TotalOf(rs[i], m))
  }

  function DateColumn(rs: seq<DayTotals>): (c: seq<Date>)
    ensures |c| == |rs|
  {
    seq(|rs|, i requires 0 <= i < |rs| => rs[i].date)
  }

  /** Taking a column commutes with reversing the rows. */
  lemma ColumnReverse(rs: seq<DayTotals>, m: Macro)
    ensures Column(Reverse(rs), m) == Reverse(Column(rs, m))
    ensures DateColumn(Reverse(rs)) == Reverse(DateColumn(rs))
  {
  }

  function SumOverDates(es: seq<FoodEntry>, ds: seq<Date>, m: Macro): real
  {
    if ds == [] then 0.0 else SumOn(es, ds[0], m) + SumOverDates(es, ds[1..], m)
  }

  lemma {:induction false} SumOverNoEntries(ds: seq<Date>, m: Macro)
    ensures SumOverDates([], ds, m) == 0.0
  {
    if ds != [] {
      SumOverNoEntries(ds[1..], m);
    }
  }

  /** Adding one entry in front adds its value to the group of its date and to no other. */
  lemma {:induction false} SumOverDatesCons(e: FoodEntry, t: seq<FoodEntry>, ds: seq<Date>, m: Macro)
    requires Distinct(ds)
    ensures SumOverDates([e] + t, ds, m) == (if e.date in ds then Value(e, m) else 0.0) + SumOverDates(t, ds, m)
  {
    if ds != [] {
      SumOverDatesCons(e, t, ds[1..], m);
      assert ([e] + t)[1..] == t;
      assert e.date == ds[0] ==> e.date !in ds[1..];
      assert e.date in ds <==> e.date == ds[0] || e.date in ds[1..];
    }
  }

  lemma {:induction false} SumOverCoveringDates(es: seq<FoodEntry>, ds: seq<Date>, m: Macro)
    requires Distinct(ds)
    requires forall e :: e in es ==> e.date in ds
    ensures SumOverDates(es, ds, m) == Sum(es, m)
  {
    if es == [] {
      SumOverNoEntries(ds, m);
    } else {
      assert es == [es[0]] + es[1..];
      SumOverDatesCons(es[0], es[1..], ds, m);
      SumOverCoveringDates(es[1..], ds, m);
    }
  }

  lemma {:induction false} GroupRowsSum(es: seq<FoodEntry>, ds: seq<Date>, m: Macro)
    ensures SumReals(Column(GroupRows(es, ds), m)) == SumOverDates(es, ds, m)
  {
    if ds != [] {
      GroupRowsSum(es, ds[1..], m);
      assert Column(GroupRows(es, ds), m)[1..] == Column(GroupRows(es, ds[1..]), m);
    }
  }

  /** The per-date groups partition the entries: their sums add up to the global sum,
      in either order. */
  lemma GroupSumsPartition(es: seq<FoodEntry>, order: Order, m: Macro)
    ensures SumReals(Column(GroupByDate(es, order), m)) == Sum(es, m)
  {
    var ds := SortedDates(es);
    var rows := GroupRows(es, ds);
    assert Distinct(ds);
    assert forall e :: e in es ==> e.date in DatesOf(es);
    SumOverCoveringDates(es, ds, m);
    GroupRowsSum(es, ds, m);
    if order == Descending {
      ColumnReverse(rows, m);
      SumRealsReverse(Column(rows, m));
    }
  }
}
