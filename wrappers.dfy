/** Option and Result, and the "apply to each element, stop at the first
    failure" traversal that every parsing loop of the pipeline follows. */
module Wrappers {

  datatype Option<+T> = None | Some(value: T)

  datatype Result<+T, +E> = Success(value: T) | Failure(error: E) {
    predicate IsFailure() {
      Failure?
    }

    function PropagateFailure<U>(): Result<U, E>
      requires Failure?
    {
      Failure(error)
    }

    function Extract(): T
      requires Success?
    {
      value
    }
  }

  /** Applies `f` to the elements of `xs` in order and collects the results;
      the first failure ends the traversal, as an exception raised inside a
      Python loop body ends the loop. Defined from the last element so that a
      loop over `xs[..i]` follows it step by step. */
  function Traverse<A, B, E>(xs: seq<A>, f: A -> Result<B, E>): Result<seq<B>, E>
    decreases |xs|
  {
    if |xs| == 0 then Success([])
    else
      match Traverse(xs[..|xs| - 1], f)
      case Failure(e) => Failure(e)
      case Success(ys) =>
        match f(xs[|xs| - 1])
        case Failure(e) => Failure(e)
        case Success(y) => Success(ys + [y])
  }

  /** The traversal succeeds exactly when `f` succeeds on every element, and
      then yields one result per element, in order. */
  lemma {:induction false} TraverseSuccess<A, B, E>(xs: seq<A>, f: A -> Result<B, E>)
    ensures Traverse(xs, f).Success? <==> forall k :: 0 <= k < |xs| ==> f(xs[k]).Success?
    ensures Traverse(xs, f).Success? ==>
              |Traverse(xs, f).value| == |xs| &&
              forall k :: 0 <= k < |xs| ==> Traverse(xs, f).value[k] == f(xs[k]).value
    decreases |xs|
  {
    if |xs| > 0 {
      var init := xs[..|xs| - 1];
      TraverseSuccess(init, f);
      assert forall k :: 0 <= k < |init| ==> init[k] == xs[k];
    }
  }

  /** When `f` succeeds on the first `i` elements and fails on element `i`,
      the traversal fails with that error, whatever follows. */
  lemma {:induction false} TraverseFirstFailure<A, B, E>(xs: seq<A>, f: A -> Result<B, E>, i: nat)
    requires i < |xs|
    requires forall k :: 0 <= k < i ==> f(xs[k]).Success?
    requires f(xs[i]).Failure?
    ensures Traverse(xs, f) == Failure(f(xs[i]).error)
    decreases |xs|
  {
    var init := xs[..|xs| - 1];
    if i == |xs| - 1 {
      assert forall k :: 0 <= k < |init| ==> f(init[k]).Success?;
      TraverseSuccess(init, f);
    } else {
      assert init[i] == xs[i];
      TraverseFirstFailure(init, f, i);
    }
  }

  /** A failed traversal names the first element on which `f` failed. */
  lemma {:induction false} TraverseFailureAt<A, B, E>(xs: seq<A>, f: A -> Result<B, E>)
    requires Traverse(xs, f).Failure?
    ensures exists i :: 0 <= i < |xs| && f(xs[i]).Failure? &&
                        (forall k :: 0 <= k < i ==> f(xs[k]).Success?) &&
                        Traverse(xs, f).error == f(xs[i]).error
    decreases |xs|
  {
    var init := xs[..|xs| - 1];
    assert forall k :: 0 <= k < |init| ==> init[k] == xs[k];
    if Traverse(init, f).Failure? {
      TraverseFailureAt(init, f);
    } else {
      TraverseSuccess(init, f);
      assert f(xs[|xs| - 1]).Failure?;
    }
  }

  /** One more successful step of a traversal over a prefix. */
  lemma TraverseStep<A, B, E>(xs: seq<A>, f: A -> Result<B, E>, i: nat, ys: seq<B>)
    requires i < |xs|
    requires Traverse(xs[..i], f) == Success(ys)
    requires f(xs[i]).Success?
    ensures Traverse(xs[..i + 1], f) == Success(ys + [f(xs[i]).value])
  {
    assert xs[..i + 1][..i] == xs[..i];
  }

  /** A failure right after a successful prefix is the traversal's failure. */
  lemma TraverseStop<A, B, E>(xs: seq<A>, f: A -> Result<B, E>, i: nat)
    requires i < |xs|
    requires Traverse(xs[..i], f).Success?
    requires f(xs[i]).Failure?
    ensures Traverse(xs, f) == Failure(f(xs[i]).error)
  {
    TraverseSuccess(xs[..i], f);
    assert forall k :: 0 <= k < i ==> xs[..i][k] == xs[k];
    TraverseFirstFailure(xs, f, i);
  }
}
