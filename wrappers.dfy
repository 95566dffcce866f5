/** Failure-compatible wrappers shared by every module of the model. */
module Wrappers {

  /** A value that may be missing. */
  datatype Option<+T> = None | Some(value: T)

  /** The outcome of an operation that may throw: `Err` stands for the exception. */
  datatype Result<+T, +E> = Ok(value: T) | Err(error: E) {

    predicate IsFailure() {
      Err?
    }

    function PropagateFailure<U>(): Result<U, E>
      requires Err?
    {
      Err(error)
    }

    function Extract(): T
      requires Ok?
    {
      value
    }
  }

  /**
   * Runs a list of steps in order: the concatenation of their results, or the error of
   * the first step that fails (the steps after it do not run).
   */
  function Concat<T, E>(rs: seq<Result<seq<T>, E>>): Result<seq<T>, E> {
    if rs == [] then Ok([])
    else
      var earlier :- Concat(rs[..|rs| - 1]);
      var last :- rs[|rs| - 1];
      Ok(earlier + last)
  }

  /** Running one more step: it runs only if the earlier ones succeeded. */
  lemma ConcatStep<T, E>(rs: seq<Result<seq<T>, E>>, m: nat)
    requires m < |rs|
    ensures Concat(rs[..m + 1]) ==
      if Concat(rs[..m]).Err? then Concat(rs[..m])
      else if rs[m].Err? then Err(rs[m].error)
      else Ok(Concat(rs[..m]).value + rs[m].value)
  {
    assert rs[..m + 1][..m] == rs[..m];
  }

  /** The steps succeed together exactly when each of them does. */
  lemma {:induction false} ConcatOk<T, E>(rs: seq<Result<seq<T>, E>>)
    ensures Concat(rs).Ok? <==> forall i | 0 <= i < |rs| :: rs[i].Ok?
  {
    if rs != [] {
      var init := rs[..|rs| - 1];
      ConcatOk(init);
      assert forall i | 0 <= i < |init| :: init[i] == rs[i];
    }
  }

  /** Once a prefix of the steps has failed, the rest cannot change the outcome. */
  lemma {:induction false} ConcatErrPersists<T, E>(rs: seq<Result<seq<T>, E>>, m: nat)
    requires m <= |rs| && Concat(rs[..m]).Err?
    ensures Concat(rs) == Concat(rs[..m])
  {
    if m < |rs| {
      var init := rs[..|rs| - 1];
      assert init[..m] == rs[..m];
      ConcatErrPersists(init, m);
    } else {
      assert rs[..m] == rs;
    }
  }

  /** The results of earlier steps come first: a successful prefix yields a prefix. */
  lemma {:induction false} ConcatPrefix<T, E>(rs: seq<Result<seq<T>, E>>, m: nat)
    requires m <= |rs| && Concat(rs).Ok?
    ensures Concat(rs[..m]).Ok? && Concat(rs[..m]).value <= Concat(rs).value
  {
    if m < |rs| {
      var init := rs[..|rs| - 1];
      assert init[..m] == rs[..m];
      ConcatPrefix(init, m);
    } else {
      assert rs[..m] == rs;
    }
  }

  /** Steps that each fail or yield nothing yield nothing or fail. */
  lemma {:induction false} ConcatOfEmpties<T, E>(rs: seq<Result<seq<T>, E>>)
    requires forall i | 0 <= i < |rs| :: rs[i].Err? || rs[i] == Ok([])
    ensures Concat(rs).Err? || Concat(rs) == Ok([])
  {
    if rs != [] {
      var init := rs[..|rs| - 1];
      assert forall i | 0 <= i < |init| :: init[i] == rs[i];
      ConcatOfEmpties(init);
      if Concat(init).Ok? && rs[|rs| - 1].Ok? {
        assert Concat(init).value + rs[|rs| - 1].value == [];
      }
    }
  }

  /**
   * Runs a list of steps that each yield one value: all the values in order, or the
   * error of the first step that fails.
   */
  function Collect<T, E>(rs: seq<Result<T, E>>): Result<seq<T>, E> {
    if rs == [] then Ok([])
    else
      var earlier :- Collect(rs[..|rs| - 1]);
      var last :- rs[|rs| - 1];
      Ok(earlier + [last])
  }

  /** The steps succeed together exactly when each does, and then yield their values in order. */
  lemma {:induction false} CollectOk<T, E>(rs: seq<Result<T, E>>)
    ensures Collect(rs).Ok? <==> forall i | 0 <= i < |rs| :: rs[i].Ok?
    ensures Collect(rs).Ok? ==>
      |Collect(rs).value| == |rs| && forall i | 0 <= i < |rs| :: rs[i] == Ok(Collect(rs).value[i])
  {
    if rs != [] {
      var init := rs[..|rs| - 1];
      CollectOk(init);
      assert forall i | 0 <= i < |init| :: init[i] == rs[i];
    }
  }

  /** Running one more step: it runs only if the earlier ones succeeded. */
  lemma CollectStep<T, E>(rs: seq<Result<T, E>>, m: nat)
    requires m < |rs|
    ensures Collect(rs[..m + 1]) ==
      if Collect(rs[..m]).Err? then Collect(rs[..m])
      else if rs[m].Err? then Err(rs[m].error)
      else Ok(Collect(rs[..m]).value + [rs[m].value])
  {
    assert rs[..m + 1][..m] == rs[..m];
  }

  /** Steps that yield exactly `vs` collect to `vs`. */
  lemma CollectAll<T, E>(rs: seq<Result<T, E>>, vs: seq<T>)
    requires |vs| == |rs| && forall i | 0 <= i < |rs| :: rs[i] == Ok(vs[i])
    ensures Collect(rs) == Ok(vs)
  {
    CollectOk(rs);
    assert Collect(rs).value == vs;
  }

  /** Once a prefix of the steps has failed, the rest cannot change the outcome. */
  lemma {:induction false} CollectErrPersists<T, E>(rs: seq<Result<T, E>>, m: nat)
    requires m <= |rs| && Collect(rs[..m]).Err?
    ensures Collect(rs) == Collect(rs[..m])
  {
    if m < |rs| {
      var init := rs[..|rs| - 1];
      assert init[..m] == rs[..m];
      CollectErrPersists(init, m);
    } else {
      assert rs[..m] == rs;
    }
  }

  /** The first failing step decides the error, whatever follows it. */
  lemma CollectFirstErr<T, E>(rs: seq<Result<T, E>>, i: nat)
    requires i < |rs| && Collect(rs[..i]).Ok? && rs[i].Err?
    ensures Collect(rs) == Err(rs[i].error)
  {
    CollectStep(rs, i);
    CollectErrPersists(rs, i + 1);
  }

  /** When some step fails, there is a first one that does. */
  lemma {:induction false} FirstErr<T, E>(rs: seq<Result<T, E>>) returns (i: nat)
    requires exists k | 0 <= k < |rs| :: rs[k].Err?
    ensures i < |rs| && rs[i].Err? && forall k | 0 <= k < i :: rs[k].Ok?
  {
    var init := rs[..|rs| - 1];
    if exists k | 0 <= k < |init| :: init[k].Err? {
      i := FirstErr(init);
    } else {
      i := |rs| - 1;
      assert forall k | 0 <= k < |init| :: init[k] == rs[k];
    }
  }
}
