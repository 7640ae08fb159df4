/** Failure-compatible wrappers used throughout the model. */
module Wrappers {

  datatype Option<+T> = None | Some(value: T)

  /** The outcome of an operation that may raise: its value, or the error it raised. */
  datatype Result<+T, +E> = Ok(value: T) | Err(error: E) {
    predicate IsFailure() {
      Err?
    }

    function PropagateFailure<U>(): Result<U, E>
      requires Err?
    {
      Err(error)
    }

    function Extract(): T
      requires Ok?
    {
      value
    }
  }

  /**
   * Running steps one after the other, as a Python loop does: all their values
   * when every step succeeds, otherwise the error of the first step that fails.
   */
  function Sequence<T, E>(rs: seq<Result<T, E>>): (r: Result<seq<T>, E>)
    ensures r.Ok? <==> forall i :: 0 <= i < |rs| ==> rs[i].Ok?
    ensures r.Ok? ==> |r.value| == |rs| && forall i :: 0 <= i < |rs| ==> r.value[i] == rs[i].value
    decreases |rs|
  {
    if rs == [] then Ok([])
    else
      var init := rs[..|rs| - 1];
      var prev :- Sequence(init);
      var v :- rs[|rs| - 1];
      assert forall i :: 0 <= i < |init| ==> rs[i] == init[i];
      Ok(prev + [v])
  }

  /** The error of the sequence is the error of its first failing step. */
  lemma {:induction false} SequenceFirstError<T, E>(rs: seq<Result<T, E>>, i: nat)
    requires i < |rs| && rs[i].Err? && forall j :: 0 <= j < i ==> rs[j].Ok?
    ensures Sequence(rs) == Err(rs[i].error)
    decreases |rs|
  {
    var init := rs[..|rs| - 1];
    if i < |rs| - 1 {
      assert init[i] == rs[i];
      assert forall j :: 0 <= j < i ==> init[j] == rs[j];
      SequenceFirstError(init, i);
    } else {
      assert forall j :: 0 <= j < |init| ==> init[j] == rs[j];
    }
  }

  /** One more step: it runs only when the earlier ones succeeded. */
  lemma SequenceSnoc<T, E>(rs: seq<Result<T, E>>, x: Result<T, E>)
    ensures Sequence(rs + [x]) ==
      if Sequence(rs).Err? then Sequence(rs)
      else if x.Err? then Err(x.error)
      else Ok(Sequence(rs).value + [x.value])
  {
    assert (rs + [x])[..|rs|] == rs;
  }
}
