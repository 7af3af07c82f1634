/** `sum()`, `sorted()` on numbers and `statistics.median`. */
module Stats {
  import opened Wrappers

  predicate Ascending(s: seq<real>) {
    forall i, j :: 0 <= i < j < |s| ==> s[i] <= s[j]
  }

  function InsertAsc(x: real, s: seq<real>): (r: seq<real>)
    requires Ascending(s)
    ensures |r| == |s| + 1 && Ascending(r)
    ensures multiset(r) == multiset(s) + multiset{x}
    ensures r[0] == x || (s != [] && r[0] == s[0])
  {
    if s == [] || x <= s[0] then [x] + s
    else
      var rest := InsertAsc(x, s[1..]);
      assert s == [s[0]] + s[1..];
      assert s[0] <= rest[0];
      assert forall k :: 0 <= k < |rest| ==> rest[0] <= rest[k];
      [s[0]] + rest
  }

  /** `sorted(xs)`: an ascending permutation of the input. */
  function SortAsc(xs: seq<real>): (r: seq<real>)
    ensures |r| == |xs| && Ascending(r)
    ensures multiset(r) == multiset(xs)
  {
    if xs == [] then []
    else
      assert xs == [xs[0]] + xs[1..];
      InsertAsc(xs[0], SortAsc(xs[1..]))
  }

  /** How many items lie strictly above, or strictly below, `m`. */
  function CountAbove(xs: seq<real>, m: real): (n: nat)
    ensures n <= |xs|
  {
    if xs == [] then 0 else (if xs[0] > m then 1 else 0) + CountAbove(xs[1..], m)
  }

  function CountBelow(xs: seq<real>, m: real): (n: nat)
    ensures n <= |xs|
  {
    if xs == [] then 0 else (if xs[0] < m then 1 else 0) + CountBelow(xs[1..], m)
  }

  lemma {:induction false} CountInsert(x: real, s: seq<real>, m: real)
    requires Ascending(s)
    ensures CountAbove(InsertAsc(x, s), m) == CountAbove(s, m) + (if x > m then 1 else 0)
    ensures CountBelow(InsertAsc(x, s), m) == CountBelow(s, m) + (if x < m then 1 else 0)
  {
    if s != [] && x > s[0] {
      CountInsert(x, s[1..], m);
      var r := InsertAsc(x, s);
      assert r[1..] == InsertAsc(x, s[1..]);
    }
  }

  /** Sorting does not change how many items lie above or below a value. */
  lemma {:induction false} CountSort(xs: seq<real>, m: real)
    ensures CountAbove(SortAsc(xs), m) == CountAbove(xs, m)
    ensures CountBelow(SortAsc(xs), m) == CountBelow(xs, m)
  {
    if xs != [] {
      CountSort(xs[1..], m);
      CountInsert(xs[0], SortAsc(xs[1..]), m);
    }
  }

  /** In an ascending list, only the items after one that is at most `m`
      can lie above `m`. */
  lemma {:induction false} CountAboveAfter(s: seq<real>, k: nat, m: real)
    requires Ascending(s) && k < |s| && s[k] <= m
    ensures CountAbove(s, m) <= |s| - k - 1
  {
    if k > 0 {
      assert s[0] <= s[k];
      CountAboveAfter(s[1..], k - 1, m);
    } else {
      assert CountAbove(s[1..], m) <= |s| - 1;
    }
  }

  /** In an ascending list, only the items before one that is at least `m`
      can lie below `m`. */
  lemma {:induction false} CountBelowBefore(s: seq<real>, k: nat, m: real)
    requires Ascending(s) && k < |s| && s[k] >= m
    ensures CountBelow(s, m) <= k
  {
    if k > 0 {
      CountBelowBefore(s[1..], k - 1, m);
    } else if |s| > 1 {
      assert s[1] >= s[0];
      CountBelowBefore(s[1..], 0, m);
    }
  }

  /** `statistics.median(xs)`: the middle item of the sorted list, or the
      mean of the two middle items for an even count. */
  function Median(xs: seq<real>): (r: Result<real>)
    ensures r.Err? <==> xs == []
    ensures r.Err? ==> r.error == StatisticsError
  {
    if xs == [] then Err(StatisticsError)
    else
      var s := SortAsc(xs);
      var n := |s|;
      if n % 2 == 1 then Ok(s[n / 2]) else Ok((s[n / 2 - 1] + s[n / 2]) / 2.0)
  }

  /** The median splits the list in halves: at most half of the items lie
      strictly above it and at most half strictly below it. */
  lemma {:induction false} MedianSplitsInHalves(xs: seq<real>)
    requires xs != []
    ensures 2 * CountAbove(xs, Median(xs).value) <= |xs|
    ensures 2 * CountBelow(xs, Median(xs).value) <= |xs|
  {
    var s := SortAsc(xs);
    var n := |s|;
    var m := Median(xs).value;
    CountSort(xs, m);
    if n % 2 == 1 {
      CountAboveAfter(s, n / 2, m);
      CountBelowBefore(s, n / 2, m);
    } else {
      CountAboveAfter(s, n / 2 - 1, m);
      CountBelowBefore(s, n / 2, m);
    }
  }

  /** `sum(xs)` over integers, taken from the left. */
  function Sum(xs: seq<int>): int
    decreases |xs|
  {
    if xs == [] then 0 else Sum(xs[..|xs| - 1]) + xs[|xs| - 1]
  }

  /** `sum(xs)` over floats. */
  function SumReal(xs: seq<real>): real
    decreases |xs|
  {
    if xs == [] then 0.0 else SumReal(xs[..|xs| - 1]) + xs[|xs| - 1]
  }

  lemma SumSnoc(xs: seq<int>, x: int)
    ensures Sum(xs + [x]) == Sum(xs) + x
  {
    assert (xs + [x])[..|xs|] == xs;
  }

  lemma SumRealSnoc(xs: seq<real>, x: real)
    ensures SumReal(xs + [x]) == SumReal(xs) + x
  {
    assert (xs + [x])[..|xs|] == xs;
  }

  lemma UnitRatio(a: real, b: real)
    requires 0.0 <= a <= b && b > 0.0
    ensures 0.0 <= a / b <= 1.0
  {
    assert a / b * b == a;
  }

  /** A sum of items in [0, 1] lies in [0, count]. */
  lemma {:induction false} SumRealUnitBounds(xs: seq<real>)
    requires forall i :: 0 <= i < |xs| ==> 0.0 <= xs[i] <= 1.0
    ensures 0.0 <= SumReal(xs) <= |xs| as real
  {
    if xs != [] {
      SumRealUnitBounds(xs[..|xs| - 1]);
    }
  }

  /** A sum of naturals is at least each of its items. */
  lemma {:induction false} SumNatItems(xs: seq<int>)
    requires forall i :: 0 <= i < |xs| ==> xs[i] >= 0
    ensures Sum(xs) >= 0
    ensures forall i :: 0 <= i < |xs| ==> xs[i] <= Sum(xs)
  {
    if xs != [] {
      SumNatItems(xs[..|xs| - 1]);
    }
  }

  lemma {:induction false} SumPrefixes(xs: seq<int>, i: nat)
    requires i < |xs|
    ensures Sum(xs[..i + 1]) == Sum(xs[..i]) + xs[i]
  {
    assert xs[..i + 1][..i] == xs[..i];
  }

  lemma {:induction false} SumSplit(a: seq<int>, x: int, b: seq<int>)
    ensures Sum(a + [x] + b) == Sum(a) + x + Sum(b)
    decreases |b|
  {
    if b == [] {
      assert a + [x] + b == a + [x];
      SumSnoc(a, x);
    } else {
      var n := |b| - 1;
      assert a + [x] + b == (a + [x] + b[..n]) + [b[n]];
      SumSnoc(a + [x] + b[..n], b[n]);
      SumSplit(a, x, b[..n]);
      SumSnoc(b[..n], b[n]);
      assert b[..n] + [b[n]] == b;
    }
  }

  predicate Descending(s: seq<int>) {
    forall i, j :: 0 <= i < j < |s| ==> s[i] >= s[j]
  }

  function InsertDesc(x: int, s: seq<int>): (r: seq<int>)
    requires Descending(s)
    ensures |r| == |s| + 1 && Descending(r)
    ensures multiset(r) == multiset(s) + multiset{x}
    ensures r[0] == x || (s != [] && r[0] == s[0])
  {
    if s == [] || x >= s[0] then [x] + s
    else
      var rest := InsertDesc(x, s[1..]);
      assert s == [s[0]] + s[1..];
      assert s[0] >= rest[0];
      assert forall k :: 0 <= k < |rest| ==> rest[0] >= rest[k];
      [s[0]] + rest
  }

  /** `sorted(xs, reverse=True)` over integers: a descending permutation. */
  function SortDesc(xs: seq<int>): (r: seq<int>)
    ensures |r| == |xs| && Descending(r)
    ensures multiset(r) == multiset(xs)
  {
    if xs == [] then []
    else
      assert xs == [xs[0]] + xs[1..];
      InsertDesc(xs[0], SortDesc(xs[1..]))
  }

  lemma SumCons(x: int, s: seq<int>)
    ensures Sum([x] + s) == x + Sum(s)
  {
    SumSplit([], x, s);
    assert [] + [x] + s == [x] + s;
  }

  lemma {:induction false} SumInsertDesc(x: int, s: seq<int>)
    requires Descending(s)
    ensures Sum(InsertDesc(x, s)) == Sum(s) + x
  {
    if s == [] || x >= s[0] {
      SumCons(x, s);
    } else {
      SumInsertDesc(x, s[1..]);
      SumCons(s[0], InsertDesc(x, s[1..]));
      SumCons(s[0], s[1..]);
      assert [s[0]] + s[1..] == s;
    }
  }

  /** Sorting keeps the sum. */
  lemma {:induction false} SumSortDesc(xs: seq<int>)
    ensures Sum(SortDesc(xs)) == Sum(xs)
  {
    if xs != [] {
      SumSortDesc(xs[1..]);
      SumInsertDesc(xs[0], SortDesc(xs[1..]));
      SumCons(xs[0], xs[1..]);
      assert [xs[0]] + xs[1..] == xs;
    }
  }
}
