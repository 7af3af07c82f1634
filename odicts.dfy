/** Python's insertion-ordered `dict`/`OrderedDict`: the keys in first
    insertion order beside the key-to-value map. Assigning to a key that is
    already present replaces its value and keeps its position. */
module OrderedDicts {
  import opened Wrappers
  import opened Lists

  datatype ODict<K, V> = ODict(keys: seq<K>, m: map<K, V>) {

    /** The keys are distinct and are exactly the map's domain. */
    predicate Valid() {
      && (forall i, j :: 0 <= i < j < |keys| ==> keys[i] != keys[j])
      && m.Keys == (set i | 0 <= i < |keys| :: keys[i])
    }

    /** `d[k] = v` */
    function Put(k: K, v: V): (d: ODict<K, V>)
      ensures Valid() ==> d.Valid()
      ensures d.m == m[k := v]
      ensures k in m ==> d.keys == keys
      ensures k !in m ==> d.keys == keys + [k]
    {
      if k in m then ODict(keys, m[k := v])
      else
        var ks := keys + [k];
        assert forall i :: 0 <= i < |keys| ==> ks[i] == keys[i];
        assert ks[|keys|] == k;
        assert (set i | 0 <= i < |ks| :: ks[i]) == (set i | 0 <= i < |keys| :: keys[i]) + {k};
        ODict(ks, m[k := v])
    }

    /** The `(key, value)` pairs in key order, as `items()`. */
    function Items(): (ps: seq<(K, V)>)
      requires Valid()
      ensures |ps| == |keys|
      ensures forall i :: 0 <= i < |keys| ==> ps[i] == (keys[i], m[keys[i]])
    {
      seq(|keys|, i requires 0 <= i < |keys| => (keys[i], m[keys[i]]))
    }

    /** The values in key order. */
    function Values(): (vs: seq<V>)
      requires Valid()
      ensures |vs| == |keys|
      ensures forall i :: 0 <= i < |keys| ==> vs[i] == m[keys[i]]
    {
      seq(|keys|, i requires 0 <= i < |keys| => m[keys[i]])
    }
  }

  /** A second assignment to the same key replaces the first. */
  lemma PutPut<K, V>(d: ODict<K, V>, k: K, a: V, b: V)
    ensures d.Put(k, a).Put(k, b) == d.Put(k, b)
  {
  }

  function Empty<K, V>(): (d: ODict<K, V>)
    ensures d.Valid() && d.keys == [] && d.m == map[]
  {
    ODict([], map[])
  }

  /** The dictionary built by assigning the pairs in order, as the loop
      `for k, v in kvs: d[k] = v` starting from an empty dictionary. */
  function FromPairs<K, V>(kvs: seq<(K, V)>): (d: ODict<K, V>)
    ensures d.Valid()
    decreases |kvs|
  {
    if kvs == [] then Empty()
    else FromPairs(kvs[..|kvs| - 1]).Put(kvs[|kvs| - 1].0, kvs[|kvs| - 1].1)
  }

  lemma FromPairsSnoc<K, V>(kvs: seq<(K, V)>, k: K, v: V)
    ensures FromPairs(kvs + [(k, v)]) == FromPairs(kvs).Put(k, v)
  {
    assert (kvs + [(k, v)])[..|kvs|] == kvs;
  }

  /** The index of the first pair with key `k`, or `|kvs|` if none has it. */
  function FirstIndex<K(==), V>(kvs: seq<(K, V)>, k: K): (i: nat)
    ensures i <= |kvs|
    ensures i < |kvs| ==> kvs[i].0 == k
    ensures forall j :: 0 <= j < i ==> kvs[j].0 != k
  {
    if kvs == [] then 0
    else if kvs[0].0 == k then 0
    else 1 + FirstIndex(kvs[1..], k)
  }

  lemma {:induction false} FirstIndexPrefix<K, V>(kvs: seq<(K, V)>, n: nat, k: K)
    requires n <= |kvs| && FirstIndex(kvs[..n], k) < n
    ensures FirstIndex(kvs, k) == FirstIndex(kvs[..n], k)
  {
    if kvs[0].0 != k {
      assert kvs[..n][1..] == kvs[1..][..n - 1];
      FirstIndexPrefix(kvs[1..], n - 1, k);
    }
  }

  /** The domain is exactly the set of keys that occur in the pairs. */
  lemma {:induction false} FromPairsKeys<K, V>(kvs: seq<(K, V)>)
    ensures FromPairs(kvs).m.Keys == (set i | 0 <= i < |kvs| :: kvs[i].0)
  {
    if kvs != [] {
      var n := |kvs| - 1;
      var pre := kvs[..n];
      FromPairsKeys(pre);
      assert forall i :: 0 <= i < n ==> pre[i] == kvs[i];
      assert (set i | 0 <= i < |kvs| :: kvs[i].0) == (set i | 0 <= i < n :: pre[i].0) + {kvs[n].0};
    }
  }

  /** Every entry is one of the pairs. */
  lemma {:induction false} FromPairsFrom<K, V>(kvs: seq<(K, V)>)
    ensures forall k :: k in FromPairs(kvs).m ==> (k, FromPairs(kvs).m[k]) in kvs
  {
    if kvs != [] {
      var n := |kvs| - 1;
      FromPairsFrom(kvs[..n]);
      forall k | k in FromPairs(kvs).m ensures (k, FromPairs(kvs).m[k]) in kvs {
        if k != kvs[n].0 {
          assert (k, FromPairs(kvs[..n]).m[k]) in kvs[..n];
        }
      }
    }
  }

  /** A key's value is the one of its last pair: later pairs overwrite. */
  lemma {:induction false} FromPairsLast<K, V>(kvs: seq<(K, V)>, i: nat)
    requires i < |kvs|
    requires forall j :: i < j < |kvs| ==> kvs[j].0 != kvs[i].0
    ensures kvs[i].0 in FromPairs(kvs).m && FromPairs(kvs).m[kvs[i].0] == kvs[i].1
  {
    var n := |kvs| - 1;
    if i < n {
      var pre := kvs[..n];
      FromPairsLast(pre, i);
    }
  }

  /** The keys are listed in the order of their first occurrence, so a
      repeated key keeps the position of its first assignment. */
  lemma {:induction false} FromPairsOrder<K, V>(kvs: seq<(K, V)>)
    ensures |FromPairs(kvs).keys| <= |kvs|
    ensures forall p :: 0 <= p < |FromPairs(kvs).keys| ==> FirstIndex(kvs, FromPairs(kvs).keys[p]) < |kvs|
    ensures forall p, q :: 0 <= p < q < |FromPairs(kvs).keys| ==>
      FirstIndex(kvs, FromPairs(kvs).keys[p]) < FirstIndex(kvs, FromPairs(kvs).keys[q])
  {
    if kvs != [] {
      var n := |kvs| - 1;
      var pre := kvs[..n];
      var d0 := FromPairs(pre);
      var d := FromPairs(kvs);
      FromPairsOrder(pre);
      forall p | 0 <= p < |d0.keys|
        ensures FirstIndex(kvs, d0.keys[p]) == FirstIndex(pre, d0.keys[p])
      {
        assert kvs[..n] == pre;
        FirstIndexPrefix(kvs, n, d0.keys[p]);
      }
      if kvs[n].0 !in d0.m {
        var k := kvs[n].0;
        FromPairsKeys(pre);
        assert FirstIndex(kvs, k) == n by {
          forall j | 0 <= j < n ensures kvs[j].0 != k {
            assert pre[j] == kvs[j];
          }
          FirstIndexAt(kvs, n);
        }
        assert d.keys == d0.keys + [k];
      }
    }
  }

  lemma {:induction false} FirstIndexAt<K, V>(kvs: seq<(K, V)>, n: nat)
    requires n < |kvs|
    requires forall j :: 0 <= j < n ==> kvs[j].0 != kvs[n].0
    ensures FirstIndex(kvs, kvs[n].0) == n
  {
    if n > 0 {
      FirstIndexAt(kvs[1..], n - 1);
    }
  }

  /** A loop that computes a key and a value from each item with `f` and
      assigns them, stopping at the first item for which `f` raises. */
  function CollectPairs<A, K, V>(xs: seq<A>, f: A -> Result<(K, V)>): (r: Result<ODict<K, V>>)
    ensures r.Ok? ==> r.value.Valid()
  {
    match MapResult(xs, f)
    case Ok(es) => Ok(FromPairs(es))
    case Err(e) => Err(e)
  }

  /** One more iteration of that loop. */
  lemma CollectPairsStep<A, K, V>(xs: seq<A>, n: nat, f: A -> Result<(K, V)>)
    requires n < |xs| && CollectPairs(xs[..n], f).Ok?
    ensures f(xs[n]).Ok? ==>
      CollectPairs(xs[..n + 1], f) == Ok(CollectPairs(xs[..n], f).value.Put(f(xs[n]).value.0, f(xs[n]).value.1))
    ensures f(xs[n]).Err? ==> CollectPairs(xs, f) == Err(f(xs[n]).error)
  {
    MapResultStep(xs, n, f);
    if f(xs[n]).Ok? {
      var es := MapResult(xs[..n], f).value;
      FromPairsSnoc(es, f(xs[n]).value.0, f(xs[n]).value.1);
    }
  }

  /** What the loop leaves: it succeeds iff `f` succeeds on every item;
      then the keys are those computed, listed by first occurrence, and each
      holds the value computed last for it. */
  lemma {:induction false} CollectPairsContents<A, K, V>(xs: seq<A>, f: A -> Result<(K, V)>)
    ensures CollectPairs(xs, f).Ok? <==> forall i :: 0 <= i < |xs| ==> f(xs[i]).Ok?
    ensures CollectPairs(xs, f).Err? ==> exists i ::
      && 0 <= i < |xs| && f(xs[i]) == Err(CollectPairs(xs, f).error)
      && forall j :: 0 <= j < i ==> f(xs[j]).Ok?
    ensures CollectPairs(xs, f).Ok? ==>
      var es := MapResult(xs, f).value; var d := CollectPairs(xs, f).value;
      && |es| == |xs| && (forall i :: 0 <= i < |xs| ==> es[i] == f(xs[i]).value)
      && d.m.Keys == (set j | 0 <= j < |es| :: es[j].0)
      && (forall i :: 0 <= i < |es| && (forall j :: i < j < |es| ==> es[j].0 != es[i].0) ==> d.m[es[i].0] == es[i].1)
      && (forall p, q :: 0 <= p < q < |d.keys| ==> FirstIndex(es, d.keys[p]) < FirstIndex(es, d.keys[q]))
  {
    if CollectPairs(xs, f).Ok? {
      var es := MapResult(xs, f).value;
      FromPairsKeys(es);
      FromPairsOrder(es);
      forall i | 0 <= i < |es| && (forall j :: i < j < |es| ==> es[j].0 != es[i].0)
        ensures FromPairs(es).m[es[i].0] == es[i].1
      {
        FromPairsLast(es, i);
      }
    }
  }

  /** The same, when each item's key is `key` of the item: the keys are
      the items' keys, and an item whose key no later item shares leaves
      its value. */
  lemma CollectPairsKeyed<A, K, V>(xs: seq<A>, f: A -> Result<(K, V)>, key: A -> K)
    requires forall i :: 0 <= i < |xs| && f(xs[i]).Ok? ==> f(xs[i]).value.0 == key(xs[i])
    ensures CollectPairs(xs, f).Ok? ==>
      && CollectPairs(xs, f).value.m.Keys == (set i | 0 <= i < |xs| :: key(xs[i]))
      && forall i :: 0 <= i < |xs| && (forall j :: i < j < |xs| ==> key(xs[j]) != key(xs[i])) ==>
           CollectPairs(xs, f).value.m[key(xs[i])] == f(xs[i]).value.1
  {
    CollectPairsContents(xs, f);
    if CollectPairs(xs, f).Ok? {
      var es := MapResult(xs, f).value;
      var fromEntries := set j | 0 <= j < |es| :: es[j].0;
      var fromItems := set i | 0 <= i < |xs| :: key(xs[i]);
      forall k | k in fromEntries ensures k in fromItems {
        var j :| 0 <= j < |es| && es[j].0 == k;
        assert key(xs[j]) == k;
      }
      forall k | k in fromItems ensures k in fromEntries {
        var i :| 0 <= i < |xs| && key(xs[i]) == k;
        assert es[i].0 == k;
      }
      assert fromEntries == fromItems;
    }
  }

  /** A loop that assigns `d[k] = v` with `(k, v) = f(x)` for each item `x`
      that passes `keep`, starting from an empty dictionary. */
  function PutWhere<A, K, V>(xs: seq<A>, keep: A -> bool, f: A -> (K, V)): (d: ODict<K, V>)
    ensures d.Valid()
    decreases |xs|
  {
    if xs == [] then Empty()
    else
      var x := xs[|xs| - 1];
      var prev := PutWhere(xs[..|xs| - 1], keep, f);
      if keep(x) then prev.Put(f(x).0, f(x).1) else prev
  }

  /** The domain is the set of keys computed from the kept items. */
  lemma {:induction false} PutWhereKeys<A, K, V>(xs: seq<A>, keep: A -> bool, f: A -> (K, V))
    ensures PutWhere(xs, keep, f).m.Keys == (set i | 0 <= i < |xs| && keep(xs[i]) :: f(xs[i]).0)
  {
    if xs != [] {
      var n := |xs| - 1;
      var pre := xs[..n];
      PutWhereKeys(pre, keep, f);
      assert forall i :: 0 <= i < n ==> pre[i] == xs[i];
      var add := if keep(xs[n]) then {f(xs[n]).0} else {};
      assert (set i | 0 <= i < |xs| && keep(xs[i]) :: f(xs[i]).0) ==
        (set i | 0 <= i < n && keep(pre[i]) :: f(pre[i]).0) + add;
    }
  }

  /** A kept item's value is the one its key holds, unless a later kept
      item computes the same key. */
  lemma {:induction false} PutWhereLast<A, K, V>(xs: seq<A>, keep: A -> bool, f: A -> (K, V), i: nat)
    requires i < |xs| && keep(xs[i])
    requires forall j :: i < j < |xs| && keep(xs[j]) ==> f(xs[j]).0 != f(xs[i]).0
    ensures f(xs[i]).0 in PutWhere(xs, keep, f).m && PutWhere(xs, keep, f).m[f(xs[i]).0] == f(xs[i]).1
  {
    var n := |xs| - 1;
    if i < n {
      PutWhereLast(xs[..n], keep, f, i);
    }
  }

  /** Every entry was computed from a kept item. */
  lemma {:induction false} PutWhereFrom<A, K, V>(xs: seq<A>, keep: A -> bool, f: A -> (K, V))
    ensures forall k :: k in PutWhere(xs, keep, f).m ==>
      exists i :: 0 <= i < |xs| && keep(xs[i]) && f(xs[i]) == (k, PutWhere(xs, keep, f).m[k])
  {
    if xs != [] {
      var n := |xs| - 1;
      var pre := xs[..n];
      PutWhereFrom(pre, keep, f);
      var d := PutWhere(xs, keep, f);
      forall k | k in d.m ensures exists i :: 0 <= i < |xs| && keep(xs[i]) && f(xs[i]) == (k, d.m[k]) {
        if keep(xs[n]) && k == f(xs[n]).0 {
          assert f(xs[n]) == (k, d.m[k]);
        } else {
          var prev := PutWhere(pre, keep, f);
          assert k in prev.m && d.m[k] == prev.m[k];
          var i :| 0 <= i < n && keep(pre[i]) && f(pre[i]) == (k, PutWhere(pre, keep, f).m[k]);
          assert xs[i] == pre[i];
        }
      }
    }
  }

  /** One more iteration of that loop. */
  lemma PutWhereStep<A, K, V>(xs: seq<A>, n: nat, keep: A -> bool, f: A -> (K, V))
    requires n < |xs|
    ensures keep(xs[n]) ==>
      PutWhere(xs[..n + 1], keep, f) == PutWhere(xs[..n], keep, f).Put(f(xs[n]).0, f(xs[n]).1)
    ensures !keep(xs[n]) ==> PutWhere(xs[..n + 1], keep, f) == PutWhere(xs[..n], keep, f)
  {
    assert xs[..n + 1][..n] == xs[..n];
  }

  /** One more iteration of a loop that skips the items `keep` rejects and
      assigns the pair `f` computes from each other one. */
  lemma CollectKeptStep<A, K, V>(xs: seq<A>, n: nat, keep: A -> bool, f: A -> Result<(K, V)>)
    requires n < |xs| && CollectPairs(Filter(xs[..n], keep), f).Ok?
    ensures !keep(xs[n]) ==> CollectPairs(Filter(xs[..n + 1], keep), f) == CollectPairs(Filter(xs[..n], keep), f)
    ensures keep(xs[n]) && f(xs[n]).Ok? ==>
      CollectPairs(Filter(xs[..n + 1], keep), f) == Ok(CollectPairs(Filter(xs[..n], keep), f).value.Put(f(xs[n]).value.0, f(xs[n]).value.1))
    ensures keep(xs[n]) && f(xs[n]).Err? ==> CollectPairs(Filter(xs, keep), f) == Err(f(xs[n]).error)
  {
    FilterSnoc(xs, n, keep);
    if keep(xs[n]) {
      var pre := Filter(xs[..n], keep);
      var all := Filter(xs, keep);
      FilterPrefix(xs, n, keep);
      CollectPairsStep(all, |pre|, f);
    }
  }
}
