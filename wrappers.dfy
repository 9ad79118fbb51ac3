/** Option and Result, the shapes used for values that may be absent and
    for Python exceptions that abort an operation. A Result can be used with
    `:-`, which stops at the first failure as an exception does. */
module Wrappers {

  datatype Option<+T> = None | Some(value: T)

  datatype Result<+R, +E> = Success(value: R) | Failure(error: E) {

    predicate IsFailure() {
      Failure?
    }

    function PropagateFailure<U>(): Result<U, E>
      requires Failure?
    {
      Failure(error)
    }

    function Extract(): R
      requires Success?
    {
      value
    }
  }

  /** `[f(x) for x in xs]` where `f` may raise: the first failure, in list
      order, is the failure of the whole. */
  function MapResult<A, B, E>(xs: seq<A>, f: A -> Result<B, E>): Result<seq<B>, E>
    decreases |xs|
  {
    if |xs| == 0 then Success([])
    else
      var values :- MapResult(xs[..|xs| - 1], f);
      var last :- f(xs[|xs| - 1]);
      Success(values + [last])
  }

  /** Mapping succeeds with `f`'s value on every element, in order, when `f`
      succeeds on every element; otherwise it fails with `f`'s error on the
      first element where `f` fails. */
  lemma {:induction false} MapResultMeaning<A, B, E>(xs: seq<A>, f: A -> Result<B, E>)
    ensures var r := MapResult(xs, f);
      && (r.Success? ==>
            && |r.value| == |xs|
            && forall k :: 0 <= k < |xs| ==> f(xs[k]) == Success(r.value[k]))
      && (r.Failure? ==>
            exists k :: (&& 0 <= k < |xs| && f(xs[k]) == Failure(r.error)
                         && forall j :: 0 <= j < k ==> f(xs[j]).Success?))
    decreases |xs|
  {
    if |xs| > 0 {
      var init := xs[..|xs| - 1];
      MapResultMeaning(init, f);
      assert forall k :: 0 <= k < |init| ==> xs[k] == init[k];
    }
  }


  /** Mapping one more element. */
  lemma MapResultSnoc<A, B, E>(xs: seq<A>, x: A, f: A -> Result<B, E>)
    requires MapResult(xs, f).Success?
    ensures f(x).Success? ==> MapResult(xs + [x], f) == Success(MapResult(xs, f).value + [f(x).value])
    ensures f(x).Failure? ==> MapResult(xs + [x], f) == Failure(f(x).error)
  {
    assert (xs + [x])[..|xs|] == xs;
  }

  /** Once an element fails, what follows it is never looked at. */
  lemma {:induction false} MapResultStops<A, B, E>(xs: seq<A>, more: seq<A>, f: A -> Result<B, E>)
    requires MapResult(xs, f).Failure?
    ensures MapResult(xs + more, f) == MapResult(xs, f)
    decreases |more|
  {
    if |more| == 0 {
      assert xs + more == xs;
    } else {
      assert (xs + more)[..|xs + more| - 1] == xs + more[..|more| - 1];
      MapResultStops(xs, more[..|more| - 1], f);
    }
  }

  /** Mapping the first `i + 1` elements, when the first `i` succeed. */
  lemma MapResultStep<A, B, E>(xs: seq<A>, i: nat, f: A -> Result<B, E>)
    requires i < |xs| && MapResult(xs[..i], f).Success?
    ensures f(xs[i]).Success? ==>
      MapResult(xs[..i + 1], f) == Success(MapResult(xs[..i], f).value + [f(xs[i]).value])
    ensures f(xs[i]).Failure? ==> MapResult(xs, f) == Failure(f(xs[i]).error)
  {
    assert xs[..i + 1] == xs[..i] + [xs[i]];
    MapResultSnoc(xs[..i], xs[i], f);
    if f(xs[i]).Failure? {
      MapResultStops(xs[..i + 1], xs[i + 1..], f);
      assert xs[..i + 1] + xs[i + 1..] == xs;
    }
  }

  /** Mapping succeeds when `f` succeeds on every element. */
  lemma MapResultAll<A, B, E>(xs: seq<A>, f: A -> Result<B, E>)
    requires forall k :: 0 <= k < |xs| ==> f(xs[k]).Success?
    ensures MapResult(xs, f).Success?
  {
    MapResultMeaning(xs, f);
  }
}
