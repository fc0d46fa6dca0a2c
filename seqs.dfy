/** Small sequence facts used by the series shaping and the rankings. */
module Seqs {

  function Min(a: int, b: int): int
  {
    if a <= b then a else b
  }

  /** Python's `xs[::-1]`. */
  function Reverse<T>(s: seq<T>): seq<T>
  {
    seq(|s|, i requires 0 <= i < |s| => s[|s| - 1 - i])
  }

  /** Taking the first k of the reversed list and reversing back gives the last k. */
  lemma ReversedPrefix<T>(a: seq<T>, k: nat)
    requires k <= |a|
    ensures Reverse(Reverse(a)[..k]) == a[|a| - k..]
  {
    var n := |a|;
    var ra := Reverse(a);
    var p := ra[..k];
    var rp := Reverse(p);
    var suffix := a[n - k..];
    forall i | 0 <= i < k
      ensures rp[i] == suffix[i]
    {
      var j := k - 1 - i;
      assert rp[i] == p[j];
      assert p[j] == ra[j];
      assert ra[j] == a[n - 1 - j];
    }
    assert |rp| == |suffix|;
  }

  predicate Distinct<T(==)>(s: seq<T>)
  {
    forall i, j :: 0 <= i < j < |s| ==> s[i] != s[j]
  }

  /** A sequence without repetitions has as many elements as the set of its elements. */
  lemma {:induction false} DistinctCardinality<T>(s: seq<T>)
    requires Distinct(s)
    ensures |set x | x in s| == |s|
  {
    if s != [] {
      DistinctCardinality(s[1..]);
      assert (set x | x in s) == {s[0]} + (set x | x in s[1..]);
      assert s[0] !in s[1..];
    }
  }

  /** Sum of a list of reals (what a chart draws as the total height of a series). */
  function SumReals(s: seq<real>): real
  {
    if s == [] then 0.0 else s[0] + SumReals(s[1..])
  }

  lemma {:induction false} SumRealsAppend(a: seq<real>, b: seq<real>)
    ensures SumReals(a + b) == SumReals(a) + SumReals(b)
  {
    if a == [] {
      assert a + b == b;
    } else {
      assert (a + b)[1..] == a[1..] + b;
      SumRealsAppend(a[1..], b);
    }
  }

  /** Reversing a list does not change its sum. */
  lemma {:induction false} SumRealsReverse(s: seq<real>)
    ensures SumReals(Reverse(s)) == SumReals(s)
  {
    if s != [] {
      assert Reverse(s) == Reverse(s[1..]) + [s[0]];
      SumRealsReverse(s[1..]);
      SumRealsAppend(Reverse(s[1..]), [s[0]]);
      assert SumReals([s[0]]) == s[0];
    }
  }
}
