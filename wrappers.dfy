/** Failure-carrying values shared by every script model.

    The scripts signal errors by raising Python exceptions; here each raising
    path returns `Err` with the exception's kind instead. */
module Wrappers {

  datatype Option<T> = None | Some(value: T)

  /** The Python exceptions the modelled code can raise. */
  datatype Error =
    | KeyError          // missing dict key, unknown comparison operator
    | ValueError        // int()/float() on bad text, wrong unpacking count
    | IndexError        // list index out of range
    | TypeError         // ordering comparison between incompatible values
    | ZeroDivisionError // division by zero
    | AttributeError    // method on a value of the wrong kind, `None.group(1)`
    | StatisticsError   // median of an empty list
    | StopIteration     // next() at the end of a file

  datatype Result<T> = Ok(value: T) | Err(error: Error) {
    predicate IsFailure() { Err? }

    function PropagateFailure<U>(): Result<U>
      requires Err?
    {
      Err(error)
    }

    function Extract(): T
      requires Ok?
    {
      value
    }
  }

  /** Applying `f` to each item in order and stopping at the first failure,
      as a loop whose body may raise. */
  function MapResult<A, B>(xs: seq<A>, f: A -> Result<B>): (r: Result<seq<B>>)
    ensures r.Ok? <==> forall i :: 0 <= i < |xs| ==> f(xs[i]).Ok?
    ensures r.Ok? ==> |r.value| == |xs| && forall i :: 0 <= i < |xs| ==> r.value[i] == f(xs[i]).value
    ensures r.Err? ==> exists i ::
      && 0 <= i < |xs| && f(xs[i]) == Err(r.error)
      && forall j :: 0 <= j < i ==> f(xs[j]).Ok?
    decreases |xs|
  {
    if xs == [] then Ok([])
    else
      var n := |xs| - 1;
      var pre := MapResult(xs[..n], f);
      assert forall i :: 0 <= i < n ==> xs[..n][i] == xs[i];
      if pre.Err? then Err(pre.error)
      else match f(xs[n])
        case Err(e) => Err(e)
        case Ok(y) => Ok(pre.value + [y])
  }

  /** When every item succeeds, the results are the items' values. */
  lemma MapResultAllOk<A, B>(xs: seq<A>, f: A -> Result<B>, ys: seq<B>)
    requires |xs| == |ys| && forall i :: 0 <= i < |xs| ==> f(xs[i]) == Ok(ys[i])
    ensures MapResult(xs, f) == Ok(ys)
  {
    assert MapResult(xs, f).Ok?;
    assert MapResult(xs, f).value == ys;
  }

  lemma MapResultFour<A, B>(xs: seq<A>, f: A -> Result<B>, y0: B, y1: B, y2: B, y3: B)
    requires |xs| == 4
    requires f(xs[0]) == Ok(y0) && f(xs[1]) == Ok(y1) && f(xs[2]) == Ok(y2) && f(xs[3]) == Ok(y3)
    ensures MapResult(xs, f) == Ok([y0, y1, y2, y3])
  {
    MapResultAllOk(xs, f, [y0, y1, y2, y3]);
  }

  /** One more item: the result grows by that item's value, or stops at it. */
  lemma MapResultStep<A, B>(xs: seq<A>, n: nat, f: A -> Result<B>)
    requires n < |xs| && MapResult(xs[..n], f).Ok?
    ensures f(xs[n]).Ok? ==> MapResult(xs[..n + 1], f) == Ok(MapResult(xs[..n], f).value + [f(xs[n]).value])
    ensures f(xs[n]).Err? ==> MapResult(xs, f) == Err(f(xs[n]).error)
  {
    assert xs[..n + 1][..n] == xs[..n];
    if f(xs[n]).Err? {
      var r := MapResult(xs, f);
      assert forall j :: 0 <= j < n ==> xs[..n][j] == xs[j];
      assert !r.Ok?;
      var i :| 0 <= i < |xs| && f(xs[i]) == Err(r.error) && forall j :: 0 <= j < i ==> f(xs[j]).Ok?;
      assert i == n;
    }
  }

  /** A loop that threads a state through the items, each step of which
      may raise and so end the loop. */
  function FoldResult<S, A>(init: S, xs: seq<A>, step: (S, A) -> Result<S>): Result<S>
    decreases |xs|
  {
    if xs == [] then Ok(init)
    else match FoldResult(init, xs[..|xs| - 1], step)
      case Err(e) => Err(e)
      case Ok(s) => step(s, xs[|xs| - 1])
  }

  /** Once a step has raised, the later items are never reached. */
  lemma {:induction false} FoldResultStops<S, A>(init: S, xs: seq<A>, n: nat, step: (S, A) -> Result<S>)
    requires n <= |xs| && FoldResult(init, xs[..n], step).Err?
    ensures FoldResult(init, xs, step) == FoldResult(init, xs[..n], step)
    decreases |xs|
  {
    if n < |xs| {
      var m := |xs| - 1;
      assert xs[..m][..n] == xs[..n];
      FoldResultStops(init, xs[..m], n, step);
    } else {
      assert xs[..n] == xs;
    }
  }

  /** One more iteration of that loop. */
  lemma FoldResultStep<S, A>(init: S, xs: seq<A>, n: nat, step: (S, A) -> Result<S>)
    requires n < |xs| && FoldResult(init, xs[..n], step).Ok?
    ensures FoldResult(init, xs[..n + 1], step) == step(FoldResult(init, xs[..n], step).value, xs[n])
    ensures step(FoldResult(init, xs[..n], step).value, xs[n]).Err? ==>
      FoldResult(init, xs, step) == step(FoldResult(init, xs[..n], step).value, xs[n])
  {
    assert xs[..n + 1][..n] == xs[..n];
    if step(FoldResult(init, xs[..n], step).value, xs[n]).Err? {
      FoldResultStops(init, xs, n + 1, step);
    }
  }

  /** A property of the state that every successful step preserves holds
      at the end of a successful loop. */
  lemma {:induction false} FoldResultInvariant<S, A>(init: S, xs: seq<A>, step: (S, A) -> Result<S>, inv: S -> bool)
    requires inv(init)
    requires forall s, a :: inv(s) && step(s, a).Ok? ==> inv(step(s, a).value)
    ensures FoldResult(init, xs, step).Ok? ==> inv(FoldResult(init, xs, step).value)
    decreases |xs|
  {
    if xs != [] {
      FoldResultInvariant(init, xs[..|xs| - 1], step, inv);
    }
  }

  /** Folding a concatenation folds the second part from where the first
      part stopped. */
  lemma {:induction false} FoldResultAppend<S, A>(init: S, xs: seq<A>, ys: seq<A>, step: (S, A) -> Result<S>)
    ensures FoldResult(init, xs + ys, step) ==
      match FoldResult(init, xs, step)
      case Err(e) => Err(e)
      case Ok(s) => FoldResult(s, ys, step)
    decreases |ys|
  {
    if ys == [] {
      assert xs + ys == xs;
    } else {
      var m := |ys| - 1;
      assert (xs + ys)[..|xs + ys| - 1] == xs + ys[..m];
      FoldResultAppend(init, xs, ys[..m], step);
    }
  }
}
