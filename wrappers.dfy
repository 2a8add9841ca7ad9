/** Option and Result, the failure-compatible wrappers the model uses for Swift
    optionals and for `throws`. */
module Wrappers {

  datatype Option<+T> = None | Some(value: T)

  /** A value or the error a throwing Swift function would raise. */
  datatype Result<+R, +E> = Ok(value: R) | Err(error: E) {

    predicate IsFailure() {
      Err?
    }

    function PropagateFailure<U>(): Result<U, E>
      requires Err?
    {
      Err(error)
    }

    function Extract(): R
      requires Ok?
    {
      value
    }
  }

  /** Collects element results: the first failure in order, or all the values. */
  function AllOk<T, E>(rs: seq<Result<T, E>>): (r: Result<seq<T>, E>)
    ensures r.Ok? <==> forall i :: 0 <= i < |rs| ==> rs[i].Ok?
    ensures r.Ok? ==> |r.value| == |rs| && forall i :: 0 <= i < |rs| ==> r.value[i] == rs[i].value
  {
    if rs == [] then Ok([])
    else if rs[0].Err? then Err(rs[0].error)
    else
      match AllOk(rs[1..])
      case Err(e) => Err(e)
      case Ok(tail) => Ok([rs[0].value] + tail)
  }

  /** The failure `AllOk` reports is that of the first failing element. */
  lemma {:induction false} AllOkFirstError<T, E>(rs: seq<Result<T, E>>, i: nat)
    requires i < |rs| && rs[i].Err?
    requires forall k :: 0 <= k < i ==> rs[k].Ok?
    ensures AllOk(rs) == Err(rs[i].error)
  {
    if i > 0 {
      AllOkFirstError(rs[1..], i - 1);
    }
  }

  /** When every element succeeds, `AllOk` collects exactly their values. */
  lemma AllOkValues<T, E>(rs: seq<Result<T, E>>, vs: seq<T>)
    requires |rs| == |vs| && forall k :: 0 <= k < |rs| ==> rs[k] == Ok(vs[k])
    ensures AllOk(rs) == Ok(vs)
  {
    assert AllOk(rs).value == vs;
  }

  /** A failure right after a prefix of successes is the failure reported. */
  lemma AllOkPrefixError<T, E>(rs: seq<Result<T, E>>, i: nat)
    requires i < |rs| && AllOk(rs[..i]).Ok? && rs[i].Err?
    ensures AllOk(rs) == Err(rs[i].error)
  {
    forall k | 0 <= k < i ensures rs[k].Ok? {
      assert rs[..i][k] == rs[k];
    }
    AllOkFirstError(rs, i);
  }

  /** A success after a prefix of successes extends the collected values. */
  lemma AllOkPrefixSnoc<T, E>(rs: seq<Result<T, E>>, i: nat)
    requires i < |rs| && AllOk(rs[..i]).Ok? && rs[i].Ok?
    ensures AllOk(rs[..i + 1]) == Ok(AllOk(rs[..i]).value + [rs[i].value])
  {
    var vs := AllOk(rs[..i]).value + [rs[i].value];
    forall k | 0 <= k < i + 1 ensures rs[..i + 1][k] == Ok(vs[k]) {
      if k < i {
        assert rs[..i][k] == rs[k];
      }
    }
    AllOkValues(rs[..i + 1], vs);
  }

  /** The results all succeed exactly when a property holds of every one of
      the inputs they come from, given that it holds of each input exactly
      when that input's result succeeds. */
  lemma AllOkIff<T, E, X>(rs: seq<Result<T, E>>, xs: seq<X>, p: X -> bool)
    requires |rs| == |xs| && forall k :: 0 <= k < |rs| ==> (rs[k].Ok? <==> p(xs[k]))
    ensures AllOk(rs).Ok? <==> forall x :: x in xs ==> p(x)
  {
    if forall x :: x in xs ==> p(x) {
      assert forall k :: 0 <= k < |xs| ==> xs[k] in xs;
    }
  }
}
