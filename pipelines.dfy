/**
 * The two array pipelines the controller generator chains: `filter`, and a
 * `map` whose callback may throw, so that it stops at the first error.
 */
module Pipelines {
  import opened Wrappers

  /** `xs.filter(p)`. */
  function Filter<A>(xs: seq<A>, p: A -> bool): (r: seq<A>)
    ensures |r| <= |xs|
    ensures forall x :: x in r ==> x in xs && p(x)
    ensures forall i :: 0 <= i < |xs| && p(xs[i]) ==> xs[i] in r
    ensures (forall i :: 0 <= i < |xs| ==> !p(xs[i])) ==> r == []
  {
    if xs == [] then []
    else (if p(xs[0]) then [xs[0]] else []) + Filter(xs[1..], p)
  }

  /** `xs.map(f)` where `f` may throw: the first error is the result, otherwise all values in order. */
  function MapResult<A, B, E>(xs: seq<A>, f: A -> Result<B, E>): (r: Result<seq<B>, E>)
    ensures r.Ok? ==> |r.value| == |xs|
  {
    if xs == [] then Ok([])
    else
      match f(xs[0])
      case Err(e) => Err(e)
      case Ok(y) =>
        match MapResult(xs[1..], f)
        case Err(e) => Err(e)
        case Ok(ys) => Ok([y] + ys)
  }

  /** The mapping succeeds iff every call does, and then holds each call's value at its position. */
  lemma {:induction false} MapResultOk<A, B, E>(xs: seq<A>, f: A -> Result<B, E>)
    ensures MapResult(xs, f).Ok? <==> forall i :: 0 <= i < |xs| ==> f(xs[i]).Ok?
    ensures MapResult(xs, f).Ok? ==> forall i :: 0 <= i < |xs| ==> f(xs[i]) == Ok(MapResult(xs, f).value[i])
  {
    if xs != [] {
      MapResultOk(xs[1..], f);
      assert forall i :: 1 <= i < |xs| ==> xs[i] == xs[1..][i - 1];
    }
  }

  /** A failing mapping reports the error of the first failing call. */
  lemma {:induction false} MapResultFirstError<A, B, E>(xs: seq<A>, f: A -> Result<B, E>)
    requires MapResult(xs, f).Err?
    ensures exists i :: 0 <= i < |xs| && f(xs[i]) == Err(MapResult(xs, f).error) &&
                        forall j :: 0 <= j < i ==> f(xs[j]).Ok?
  {
    if f(xs[0]).Ok? {
      MapResultFirstError(xs[1..], f);
      var i :| 0 <= i < |xs[1..]| && f(xs[1..][i]) == Err(MapResult(xs[1..], f).error) &&
               forall j :: 0 <= j < i ==> f(xs[1..][j]).Ok?;
      assert xs[i + 1] == xs[1..][i];
      assert forall j :: 1 <= j < i + 1 ==> xs[j] == xs[1..][j - 1];
    }
  }

  /** Filtering keeps the order: it distributes over concatenation. */
  lemma {:induction false} FilterConcat<A>(a: seq<A>, b: seq<A>, p: A -> bool)
    ensures Filter(a + b, p) == Filter(a, p) + Filter(b, p)
  {
    if a == [] {
      assert a + b == b;
    } else {
      assert (a + b)[0] == a[0];
      assert (a + b)[1..] == a[1..] + b;
      FilterConcat(a[1..], b, p);
    }
  }
}
