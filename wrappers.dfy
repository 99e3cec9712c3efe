/** Results standing in for Python's exceptions, and the loops that stop at the first of them. */
module Wrappers {
  datatype Option<+T> = None | Some(value: T)
  datatype Result<+T, +E> = Ok(value: T) | Err(error: E)

  /** `[f(x) for x in xs]` where each `f(x)` may raise: elements in order, the first error aborts. */
  function Collect<A, B, E>(xs: seq<A>, f: A -> Result<B, E>): Result<seq<B>, E>
    decreases |xs|
  {
    if |xs| == 0 then Ok([])
    else
      match Collect(xs[..|xs| - 1], f)
      case Err(e) => Err(e)
      case Ok(ys) =>
        match f(xs[|xs| - 1])
        case Err(e) => Err(e)
        case Ok(y) => Ok(ys + [y])
  }

  /** The loop succeeds exactly when every element does, and then holds each element's value at its index. */
  lemma {:induction false} CollectOk<A, B, E>(xs: seq<A>, f: A -> Result<B, E>)
    ensures Collect(xs, f).Ok? <==> forall i :: 0 <= i < |xs| ==> f(xs[i]).Ok?
    ensures Collect(xs, f).Ok? ==> |Collect(xs, f).value| == |xs|
    ensures Collect(xs, f).Ok? ==> forall i :: 0 <= i < |xs| ==> f(xs[i]) == Ok(Collect(xs, f).value[i])
    decreases |xs|
  {
    if |xs| > 0 {
      var init := xs[..|xs| - 1];
      assert forall i :: 0 <= i < |init| ==> init[i] == xs[i];
      CollectOk(init, f);
    }
  }

  /** A failed loop reports the error of the first element that fails. */
  lemma {:induction false} CollectErr<A, B, E>(xs: seq<A>, f: A -> Result<B, E>)
    requires Collect(xs, f).Err?
    ensures exists i :: (0 <= i < |xs|
      && (forall j :: 0 <= j < i ==> f(xs[j]).Ok?)
      && f(xs[i]) == Err(Collect(xs, f).error))
    decreases |xs|
  {
    var init := xs[..|xs| - 1];
    assert forall i :: 0 <= i < |init| ==> init[i] == xs[i];
    if Collect(init, f).Err? {
      CollectErr(init, f);
    } else {
      CollectOk(init, f);
    }
  }

  /** The loop over the first `i + 1` elements extends the loop over the first `i` by element `i`. */
  lemma CollectStep<A, B, E>(xs: seq<A>, f: A -> Result<B, E>, i: nat)
    requires i < |xs|
    ensures Collect(xs[..i + 1], f) ==
      match Collect(xs[..i], f)
      case Err(e) => Err(e)
      case Ok(ys) =>
        match f(xs[i])
        case Err(e) => Err(e)
        case Ok(y) => Ok(ys + [y])
  {
    assert xs[..i + 1][..i] == xs[..i];
  }

  /** Once a prefix fails, the whole loop fails with the same error. */
  lemma {:induction false} CollectPrefixErr<A, B, E>(xs: seq<A>, f: A -> Result<B, E>, k: nat)
    requires k <= |xs|
    requires Collect(xs[..k], f).Err?
    ensures Collect(xs, f) == Collect(xs[..k], f)
    decreases |xs| - k
  {
    if k == |xs| {
      assert xs[..k] == xs;
    } else {
      CollectStep(xs, f, k);
      CollectPrefixErr(xs, f, k + 1);
    }
  }
}
