/** List comprehensions the scripts use: `[x for x in xs if keep(x)]` and
    `xs[::-1]`. */
module Lists {

  /** `[x for x in xs if keep(x)]` */
  function Filter<A>(xs: seq<A>, keep: A -> bool): (r: seq<A>)
    ensures |r| <= |xs|
    decreases |xs|
  {
    if xs == [] then []
    else
      var n := |xs| - 1;
      Filter(xs[..n], keep) + (if keep(xs[n]) then [xs[n]] else [])
  }

  /** One more item of the comprehension. */
  lemma FilterSnoc<A>(xs: seq<A>, n: nat, keep: A -> bool)
    requires n < |xs|
    ensures keep(xs[n]) ==> Filter(xs[..n + 1], keep) == Filter(xs[..n], keep) + [xs[n]]
    ensures !keep(xs[n]) ==> Filter(xs[..n + 1], keep) == Filter(xs[..n], keep)
  {
    assert xs[..n + 1][..n] == xs[..n];
    assert Filter(xs[..n], keep) + [] == Filter(xs[..n], keep);
  }

  /** Filtering a concatenation filters each part in turn, so the kept
      items stay in their order. */
  lemma {:induction false} FilterAppend<A>(xs: seq<A>, ys: seq<A>, keep: A -> bool)
    ensures Filter(xs + ys, keep) == Filter(xs, keep) + Filter(ys, keep)
    decreases |ys|
  {
    if ys == [] {
      assert xs + ys == xs;
    } else {
      var m := |ys| - 1;
      assert (xs + ys)[..|xs + ys| - 1] == xs + ys[..m];
      assert (xs + ys)[|xs + ys| - 1] == ys[m];
      FilterAppend(xs, ys[..m], keep);
    }
  }

  /** The comprehension holds exactly the items that pass `keep`. */
  lemma {:induction false} FilterMembers<A>(xs: seq<A>, keep: A -> bool)
    ensures forall y :: y in Filter(xs, keep) <==> y in xs && keep(y)
    ensures forall i :: 0 <= i < |Filter(xs, keep)| ==> Filter(xs, keep)[i] in xs && keep(Filter(xs, keep)[i])
    decreases |xs|
  {
    if xs != [] {
      var n := |xs| - 1;
      FilterMembers(xs[..n], keep);
      assert xs == xs[..n] + [xs[n]];
      forall y ensures y in xs <==> y in xs[..n] || y == xs[n] {
        assert y in xs[..n] + [xs[n]] <==> y in xs[..n] || y == xs[n];
      }
    }
  }

  /** The items kept from the first `n + 1` begin the items kept from the
      whole list; when item `n` is kept it follows those kept before it. */
  lemma FilterPrefix<A>(xs: seq<A>, n: nat, keep: A -> bool)
    requires n < |xs|
    ensures |Filter(xs[..n + 1], keep)| <= |Filter(xs, keep)|
    ensures Filter(xs, keep)[..|Filter(xs[..n + 1], keep)|] == Filter(xs[..n + 1], keep)
    ensures |Filter(xs[..n], keep)| <= |Filter(xs[..n + 1], keep)|
    ensures Filter(xs, keep)[..|Filter(xs[..n], keep)|] == Filter(xs[..n], keep)
    ensures keep(xs[n]) ==> |Filter(xs[..n], keep)| < |Filter(xs, keep)|
    ensures keep(xs[n]) ==> Filter(xs, keep)[|Filter(xs[..n], keep)|] == xs[n]
  {
    assert xs == xs[..n + 1] + xs[n + 1..];
    FilterAppend(xs[..n + 1], xs[n + 1..], keep);
    FilterSnoc(xs, n, keep);
    var all := Filter(xs, keep);
    var pre := Filter(xs[..n], keep);
    assert all[..|Filter(xs[..n + 1], keep)|][..|pre|] == pre;
  }

  /** The keys computed from the kept items, by position, are the keys
      computed from the items that pass `keep`. */
  lemma FilterKeys<A, K>(xs: seq<A>, keep: A -> bool, key: A -> K)
    ensures (set i | 0 <= i < |Filter(xs, keep)| :: key(Filter(xs, keep)[i])) == set y | y in xs && keep(y) :: key(y)
  {
    var fs := Filter(xs, keep);
    FilterMembers(xs, keep);
    var byIndex := set i | 0 <= i < |fs| :: key(fs[i]);
    var byItem := set y | y in xs && keep(y) :: key(y);
    forall k | k in byIndex ensures k in byItem {
      var i :| 0 <= i < |fs| && key(fs[i]) == k;
      assert fs[i] in xs && keep(fs[i]);
    }
    forall k | k in byItem ensures k in byIndex {
      var y :| y in xs && keep(y) && key(y) == k;
      assert y in fs;
      var i :| 0 <= i < |fs| && fs[i] == y;
    }
  }

  /** `xs[::-1]` */
  function Reverse<A>(xs: seq<A>): (r: seq<A>)
    ensures |r| == |xs|
    ensures forall i :: 0 <= i < |xs| ==> r[i] == xs[|xs| - 1 - i]
  {
    seq(|xs|, i requires 0 <= i < |xs| => xs[|xs| - 1 - i])
  }
}
