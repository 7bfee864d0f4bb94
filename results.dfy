/** Outcomes of the converters: a value, or the Python exception the converter raises. */
module Results {

  datatype Option<+T> = None | Some(value: T)

  /** What a `ValueError` raised by a converter complains about. */
  datatype ValueProblem =
    | WrongShape            // an array whose shape the converter does not accept
    | NotHomogeneousVector  // a 4-vector whose last entry is not close to 1
    | NotHomogeneousMatrix  // a 4x4 matrix whose bottom row is not (0, 0, 0, 1)
    | WrongArgumentCount    // a frame encoder given neither one nor two values
    | AmbiguousTruthValue   // an `if` on an element-wise comparison of arrays

  datatype Error =
    | ValueError(problem: ValueProblem)
    | TypeError             // an array that cannot be cast to the target dtype without loss
    | ZeroDivisionError     // `np.hsplit` asked for zero sections
    | UnknownFieldError     // a message constructor given a field its type does not have

  /** The failure-compatible result of an encoder; `:-` propagates the first exception. */
  datatype Result<+T> = Success(value: T) | Failure(error: Error) {
    predicate IsFailure() { Failure? }

    function PropagateFailure<U>(): Result<U>
      requires Failure?
    {
      Failure(error)
    }

    function Extract(): T
      requires Success?
    {
      value
    }
  }

  /**
   * The values of a sequence of results in order, or the exception of the
   * first failure: what a loop that appends each value and stops at the
   * first exception returns.
   */
  function Collect<T>(rs: seq<Result<T>>): Result<seq<T>>
  {
    if |rs| == 0 then
      Success([])
    else
      var init :- Collect(rs[..|rs| - 1]);
      var last :- rs[|rs| - 1];
      Success(init + [last])
  }

  /** One more step of the loop: a failure so far stays, otherwise the new result decides. */
  lemma CollectSnoc<T>(rs: seq<Result<T>>, x: Result<T>)
    ensures Collect(rs + [x]) ==
      if Collect(rs).Failure? then Collect(rs)
      else if x.Failure? then Failure(x.error)
      else Success(Collect(rs).value + [x.value])
  {
    assert (rs + [x])[..|rs|] == rs;
  }

  /** Once a prefix fails, the whole sequence fails with the same exception. */
  lemma {:induction false} CollectFailurePersists<T>(rs: seq<Result<T>>, more: seq<Result<T>>)
    requires Collect(rs).Failure?
    ensures Collect(rs + more) == Collect(rs)
  {
    if |more| > 0 {
      var init := more[..|more| - 1];
      CollectFailurePersists(rs, init);
      assert rs + more == (rs + init) + [more[|more| - 1]];
      CollectSnoc(rs + init, more[|more| - 1]);
    } else {
      assert rs + more == rs;
    }
  }

  /** Collecting succeeds exactly when every result does, and then keeps every value in place. */
  lemma {:induction false} CollectAll<T>(rs: seq<Result<T>>)
    ensures Collect(rs).Success? <==> forall k | 0 <= k < |rs| :: rs[k].Success?
    ensures Collect(rs).Success? ==>
      && |Collect(rs).value| == |rs|
      && forall k | 0 <= k < |rs| :: Collect(rs).value[k] == rs[k].value
  {
    if |rs| > 0 {
      var init := rs[..|rs| - 1];
      CollectAll(init);
      assert rs == init + [rs[|rs| - 1]];
      CollectSnoc(init, rs[|rs| - 1]);
    }
  }

  /** A failure is the exception of the first failing result, all earlier ones having succeeded. */
  lemma {:induction false} CollectFirstFailure<T>(rs: seq<Result<T>>)
    ensures Collect(rs).Failure? ==>
      exists k | 0 <= k < |rs| ::
        && rs[k].Failure? && Collect(rs) == Failure(rs[k].error)
        && forall j | 0 <= j < k :: rs[j].Success?
  {
    if |rs| > 0 && Collect(rs).Failure? {
      var init := rs[..|rs| - 1];
      var last := rs[|rs| - 1];
      assert rs == init + [last];
      CollectSnoc(init, last);
      if Collect(init).Failure? {
        CollectFirstFailure(init);
        var k :| 0 <= k < |init| && init[k].Failure? && Collect(init) == Failure(init[k].error)
          && forall j | 0 <= j < k :: init[j].Success?;
        assert rs[k] == init[k];
        assert forall j | 0 <= j < k :: rs[j] == init[j];
      } else {
        CollectAll(init);
        assert forall j | 0 <= j < |rs| - 1 :: rs[j] == init[j];
      }
    }
  }
}
