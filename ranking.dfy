/** The dashboard's popularity ranking: `GROUP BY food_name ORDER BY count(id) DESC LIMIT 5`. */
module Ranking {
  import opened Seqs
  import opened Models

  const TOP_LIMIT: nat := 5

  datatype FoodCount = FoodCount(name: string, count: nat)

  /** Number of entries with the given food name. */
  function Occurrences(es: seq<FoodEntry>, name: string): nat
  {
    if es == [] then 0
    else (if es[0].foodName == name then 1 else 0) + Occurrences(es[1..], name)
  }

  function NamesOf(es: seq<FoodEntry>): set<string>
  {
    set e | e in es :: e.foodName
  }

  /** A food name is counted exactly when some entry carries it. */
  lemma {:induction false} OccurrencesPositive(es: seq<FoodEntry>, name: string)
    ensures Occurrences(es, name) > 0 <==> name in NamesOf(es)
  {
    if es != [] {
      OccurrencesPositive(es[1..], name);
      assert es == [es[0]] + es[1..];
      assert NamesOf(es) == {es[0].foodName} + NamesOf(es[1..]);
    }
  }

  /** The distinct food names, in order of first appearance. */
  function FirstSeenNames(es: seq<FoodEntry>): (ns: seq<string>)
    ensures Distinct(ns)
    ensures forall n :: n in ns <==> n in NamesOf(es)
  {
    if es == [] then []
    else
      var init := es[..|es| - 1];
      assert es == init + [es[|es| - 1]];
      assert NamesOf(es) == NamesOf(init) + {es[|es| - 1].foodName};
      var ns := FirstSeenNames(init);
      var name := es[|es| - 1].foodName;
      if name in ns then ns else ns + [name]
  }

  /** Names listed earlier occur earlier: before any entry carrying a later name, some
      entry carries each earlier one. */
  ghost predicate InFirstSeenOrder(es: seq<FoodEntry>, ns: seq<string>)
  {
    forall i, j, q :: 0 <= i < j < |ns| && 0 <= q < |es| && es[q].foodName == ns[j] ==>
      exists p :: 0 <= p < q && es[p].foodName == ns[i]
  }

  lemma NameOccurs(es: seq<FoodEntry>, n: string) returns (p: nat)
    requires n in NamesOf(es)
    ensures p < |es| && es[p].foodName == n
  {
    var e :| e in es && e.foodName == n;
    var k :| 0 <= k < |es| && es[k] == e;
    p := k;
  }

  /** The GROUP BY keys come in order of first appearance. */
  lemma {:induction false} FirstSeenOrder(es: seq<FoodEntry>)
    ensures InFirstSeenOrder(es, FirstSeenNames(es))
  {
    if es != [] {
      var init := es[..|es| - 1];
      var last := |es| - 1;
      var name := es[last].foodName;
      var ns0 := FirstSeenNames(init);
      var ns := FirstSeenNames(es);
      assert es == init + [es[last]];
      FirstSeenOrder(init);
      forall i, j, q | 0 <= i < j < |ns| && 0 <= q < |es| && es[q].foodName == ns[j]
        ensures exists p :: 0 <= p < q && es[p].foodName == ns[i]
      {
        if j < |ns0| {
          assert ns[i] == ns0[i] && ns[j] == ns0[j];
          var q0 := q;
          if q == last {
            q0 := NameOccurs(init, ns0[j]);
          }
          assert init[q0].foodName == ns0[j];
          var p :| 0 <= p < q0 && init[p].foodName == ns0[i];
          assert es[p] == init[p];
        } else {
          assert ns == ns0 + [name] && ns[i] == ns0[i];
          var p := NameOccurs(init, ns0[i]);
          assert es[p] == init[p];
        }
      }
    }
  }

  function Counted(es: seq<FoodEntry>, ns: seq<string>): seq<FoodCount>
  {
    seq(|ns|, i requires 0 <= i < |ns| => FoodCount(ns[i], Occurrences(es, ns[i])))
  }

  predicate ByCountDesc(xs: seq<FoodCount>)
  {
    forall i, j :: 0 <= i < j < |xs| ==> xs[i].count >= xs[j].count
  }

  predicate DistinctNames(xs: seq<FoodCount>)
  {
    forall i, j :: 0 <= i < j < |xs| ==> xs[i].name != xs[j].name
  }

  lemma HeadAboveRest(xs: seq<FoodCount>, x: FoodCount, rest: seq<FoodCount>)
    requires ByCountDesc(xs) && xs != [] && xs[0].count >= x.count
    requires forall y :: y in rest <==> y in xs[1..] || y == x
    ensures forall y :: y in rest ==> xs[0].count >= y.count
  {
    forall y | y in rest
      ensures xs[0].count >= y.count
    {
      if y != x {
        var j :| 0 <= j < |xs[1..]| && xs[1..][j] == y;
        assert xs[j + 1] == y;
      }
    }
  }

  lemma ConsByCount(h: FoodCount, t: seq<FoodCount>)
    requires ByCountDesc(t)
    requires forall y :: y in t ==> h.count >= y.count
    ensures ByCountDesc([h] + t)
  {
    var r := [h] + t;
    forall i, j | 0 <= i < j < |r|
      ensures r[i].count >= r[j].count
    {
      assert r[j] == t[j - 1];
      if i > 0 {
        assert r[i] == t[i - 1];
      }
    }
  }

  /** Inserts `x` after every element with an equal or larger count. */
  function InsertByCount(xs: seq<FoodCount>, x: FoodCount): (r: seq<FoodCount>)
    requires ByCountDesc(xs)
    ensures ByCountDesc(r)
    ensures |r| == |xs| + 1
    ensures forall y :: y in r <==> y in xs || y == x
    ensures multiset(r) == multiset(xs) + multiset{x}
  {
    if xs == [] then [x]
    else if xs[0].count >= x.count then
      var rest := InsertByCount(xs[1..], x);
      assert xs == [xs[0]] + xs[1..];
      HeadAboveRest(xs, x, rest);
      ConsByCount(xs[0], rest);
      [xs[0]] + rest
    else
      assert forall y :: y in xs ==> x.count >= y.count;
      ConsByCount(x, xs);
      [x] + xs
  }

  /** Inserting a food not yet ranked keeps the ranked names distinct. */
  lemma {:induction false} InsertKeepsNamesDistinct(xs: seq<FoodCount>, x: FoodCount)
    requires ByCountDesc(xs) && DistinctNames(xs)
    requires forall y :: y in xs ==> y.name != x.name
    ensures DistinctNames(InsertByCount(xs, x))
  {
    if xs != [] && xs[0].count >= x.count {
      var rest := InsertByCount(xs[1..], x);
      InsertKeepsNamesDistinct(xs[1..], x);
      forall y | y in rest
        ensures xs[0].name != y.name
      {
        if y != x {
          var j :| 0 <= j < |xs[1..]| && xs[1..][j] == y;
          assert xs[j + 1] == y;
        }
      }
      var r := [xs[0]] + rest;
      forall i, j | 0 <= i < j < |r|
        ensures r[i].name != r[j].name
      {
        assert r[j] == rest[j - 1];
        if i > 0 {
          assert r[i] == rest[i - 1];
        }
      }
    } else if xs != [] {
      var r := [x] + xs;
      forall i, j | 0 <= i < j < |r|
        ensures r[i].name != r[j].name
      {
        assert r[j] == xs[j - 1];
        if i > 0 {
          assert r[i] == xs[i - 1];
        }
      }
    }
  }

  /** Insertion sort by count, largest first; `SortByCountStable` shows it is stable. */
  function SortByCount(xs: seq<FoodCount>): (r: seq<FoodCount>)
    ensures ByCountDesc(r)
    ensures |r| == |xs|
    ensures forall y :: y in r <==> y in xs
    ensures multiset(r) == multiset(xs)
  {
    if xs == [] then []
    else
      var init := xs[..|xs| - 1];
      assert xs == init + [xs[|xs| - 1]];
      InsertByCount(SortByCount(init), xs[|xs| - 1])
  }

  /** The rows with count `c`, in their order. */
  function WithCount(xs: seq<FoodCount>, c: nat): seq<FoodCount>
  {
    if xs == [] then []
    else (if xs[0].count == c then [xs[0]] else []) + WithCount(xs[1..], c)
  }

  lemma {:induction false} WithCountAppend(a: seq<FoodCount>, b: seq<FoodCount>, c: nat)
    ensures WithCount(a + b, c) == WithCount(a, c) + WithCount(b, c)
  {
    if a == [] {
      assert a + b == b;
    } else {
      assert (a + b)[1..] == a[1..] + b;
      WithCountAppend(a[1..], b, c);
    }
  }

  lemma {:induction false} WithCountNone(xs: seq<FoodCount>, c: nat)
    requires forall y :: y in xs ==> y.count < c
    ensures WithCount(xs, c) == []
  {
    if xs != [] {
      assert xs[0] in xs;
      assert forall y :: y in xs[1..] ==> y in xs;
      WithCountNone(xs[1..], c);
    }
  }

  lemma BelowHead(xs: seq<FoodCount>, c: nat)
    requires ByCountDesc(xs) && xs != [] && xs[0].count < c
    ensures forall y :: y in xs ==> y.count < c
  {
    forall y | y in xs
      ensures y.count < c
    {
      var j :| 0 <= j < |xs| && xs[j] == y;
    }
  }

  /** When `x` goes in front, its count exceeds every row's, so no row of its count is passed. */
  lemma InsertInFrontStable(xs: seq<FoodCount>, x: FoodCount, c: nat)
    requires ByCountDesc(xs) && xs != [] && xs[0].count < x.count
    ensures WithCount([x] + xs, c) == WithCount(xs + [x], c)
  {
    WithCountAppend([x], xs, c);
    WithCountAppend(xs, [x], c);
    if x.count == c {
      BelowHead(xs, c);
      WithCountNone(xs, c);
    }
  }

  lemma InsertBehindStable(xs: seq<FoodCount>, x: FoodCount, rest: seq<FoodCount>, c: nat)
    requires xs != []
    requires WithCount(rest, c) == WithCount(xs[1..] + [x], c)
    ensures WithCount([xs[0]] + rest, c) == WithCount(xs + [x], c)
  {
    WithCountAppend([xs[0]], rest, c);
    WithCountAppend([xs[0]], xs[1..] + [x], c);
    assert [xs[0]] + (xs[1..] + [x]) == xs + [x];
  }

  /** Inserting puts `x` after every row of its count: the rows of each count keep their order. */
  lemma {:induction false} InsertByCountStable(xs: seq<FoodCount>, x: FoodCount, c: nat)
    requires ByCountDesc(xs)
    ensures WithCount(InsertByCount(xs, x), c) == WithCount(xs + [x], c)
  {
    if xs == [] {
      assert xs + [x] == [x];
    } else if xs[0].count >= x.count {
      InsertByCountStable(xs[1..], x, c);
      InsertBehindStable(xs, x, InsertByCount(xs[1..], x), c);
    } else {
      InsertInFrontStable(xs, x, c);
    }
  }

  /** The sort is stable: among rows of equal count, the sorted list keeps the input order. */
  lemma {:induction false} SortByCountStable(xs: seq<FoodCount>, c: nat)
    ensures WithCount(SortByCount(xs), c) == WithCount(xs, c)
  {
    if xs != [] {
      var init := xs[..|xs| - 1];
      var last := xs[|xs| - 1];
      assert xs == init + [last];
      SortByCountStable(init, c);
      InsertByCountStable(SortByCount(init), last, c);
      WithCountAppend(SortByCount(init), [last], c);
      WithCountAppend(init, [last], c);
    }
  }

  /** Sorting keeps distinct names distinct. */
  lemma {:induction false} SortKeepsNamesDistinct(xs: seq<FoodCount>)
    requires DistinctNames(xs)
    ensures DistinctNames(SortByCount(xs))
  {
    if xs != [] {
      var init := xs[..|xs| - 1];
      var last := xs[|xs| - 1];
      assert forall i, j :: 0 <= i < j < |init| ==> init[i] == xs[i] && init[j] == xs[j];
      SortKeepsNamesDistinct(init);
      forall y | y in SortByCount(init)
        ensures y.name != last.name
      {
        var j :| 0 <= j < |init| && init[j] == y;
        assert xs[j] == y;
      }
      InsertKeepsNamesDistinct(SortByCount(init), last);
    }
  }

  /** The five rows of the ranking; by `SortByCountStable`, equal counts keep first-seen order. */
  function TopFoods(es: seq<FoodEntry>): seq<FoodCount>
  {
    var ranked := SortByCount(Counted(es, FirstSeenNames(es)));
    ranked[..Min(TOP_LIMIT, |ranked|)]
  }

  predicate Listed(r: seq<FoodCount>, name: string)
  {
    exists j :: 0 <= j < |r| && r[j].name == name
  }

  /** What the query promises of its rows, whatever order the engine gives tied counts:
      at most five distinct names, each with its true count, counts non-increasing, and
      no name left out that was eaten more often than one that was listed. */
  ghost predicate IsTopFoods(es: seq<FoodEntry>, r: seq<FoodCount>)
  {
    && |r| == Min(TOP_LIMIT, |NamesOf(es)|)
    && DistinctNames(r)
    && ByCountDesc(r)
    && (forall i :: 0 <= i < |r| ==> r[i].name in NamesOf(es) && r[i].count == Occurrences(es, r[i].name))
    && (forall n, i :: n in NamesOf(es) && !Listed(r, n) && 0 <= i < |r| ==> Occurrences(es, n) <= r[i].count)
  }

  lemma CountedFacts(es: seq<FoodEntry>)
    ensures
      var cs := Counted(es, FirstSeenNames(es));
      && |cs| == |NamesOf(es)|
      && DistinctNames(cs)
      && (forall y :: y in cs ==> y.name in NamesOf(es) && y.count == Occurrences(es, y.name))
      && (forall n :: n in NamesOf(es) ==> FoodCount(n, Occurrences(es, n)) in cs)
  {
    var ns := FirstSeenNames(es);
    var cs := Counted(es, ns);
    DistinctCardinality(ns);
    assert (set x | x in ns) == NamesOf(es);
    forall n | n in NamesOf(es)
      ensures FoodCount(n, Occurrences(es, n)) in cs
    {
      var j :| 0 <= j < |ns| && ns[j] == n;
      assert cs[j] == FoodCount(n, Occurrences(es, n));
    }
  }

  /** Any list that ranks every name with its true count, largest first, yields a top-five
      ranking when cut after five rows. */
  lemma RankedPrefix(es: seq<FoodEntry>, ranked: seq<FoodCount>)
    requires ByCountDesc(ranked) && DistinctNames(ranked)
    requires |ranked| == |NamesOf(es)|
    requires forall y :: y in ranked ==> y.name in NamesOf(es) && y.count == Occurrences(es, y.name)
    requires forall n :: n in NamesOf(es) ==> FoodCount(n, Occurrences(es, n)) in ranked
    ensures IsTopFoods(es, ranked[..Min(TOP_LIMIT, |ranked|)])
  {
    var k := Min(TOP_LIMIT, |ranked|);
    var r := ranked[..k];
    assert forall i :: 0 <= i < k ==> r[i] == ranked[i];
    assert forall i :: 0 <= i < k ==> ranked[i] in ranked;
    forall p | 0 <= p < k
      ensures Listed(r, ranked[p].name)
    {
      assert r[p].name == ranked[p].name;
    }
    forall n, i | n in NamesOf(es) && !Listed(r, n) && 0 <= i < k
      ensures Occurrences(es, n) <= r[i].count
    {
      var p :| 0 <= p < |ranked| && ranked[p] == FoodCount(n, Occurrences(es, n));
    }
  }

  /** The concrete ranking satisfies the ranking relation. */
  lemma TopFoodsRanked(es: seq<FoodEntry>)
    ensures IsTopFoods(es, TopFoods(es))
  {
    var cs := Counted(es, FirstSeenNames(es));
    CountedFacts(es);
    SortKeepsNamesDistinct(cs);
    RankedPrefix(es, SortByCount(cs));
  }
}
