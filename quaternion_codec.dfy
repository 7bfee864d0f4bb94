/** The quaternion codec (`quaternion_to_numpy`, `numpy_to_quaternion`). */
module QuaternionCodec {
  import opened Results
  import opened Numpy
  import opened Messages
  import opened Stamping

  /** A value handed to an encoder that accepts either an array or an `np.quaternion`. */
  datatype Numeric = ArrayValue(arr: NpArray) | QuaternionValue(quaternion: NpQuaternion)

  predicate QuaternionDecodable(msg: Message)
  {
    Unstamp(msg).Quaternion?
  }

  /**
   * `quaternion_to_numpy(msg)`: `np.quaternion(x, y, z, w)`.  The package
   * reads its four arguments as (w, x, y, z), so the message's x lands in the
   * scalar slot.
   */
  function QuaternionToNumpy(msg: Message): NpQuaternion
    requires QuaternionDecodable(msg)
  {
    var u := Unstamp(msg);
    NpQuaternion(u.x, u.y, u.z, u.w)
  }

  /** Decoding a stamped message gives what decoding its payload gives. */
  lemma QuaternionStampAgnostic(msg: Message)
    requires Conforms(msg) && QuaternionDecodable(msg)
    ensures QuaternionDecodable(Unstamp(msg))
    ensures QuaternionToNumpy(Unstamp(msg)) == QuaternionToNumpy(msg)
  {
    UnstampIdempotent(msg);
  }

  /** The decoded value lists the message's components in the order x, y, z, w. */
  lemma QuaternionComponentOrder(msg: Message)
    requires QuaternionDecodable(msg)
    ensures var u := Unstamp(msg);
      AsFloatArray(QuaternionToNumpy(msg)) == [u.x, u.y, u.z, u.w]
  {
  }

  /**
   * `numpy_to_quaternion(message_type, numpy_obj)`: an `np.quaternion` is
   * written back positionally through `as_float_array`; an array must cast to
   * float64 and then have shape (4,).
   */
  function NumpyToQuaternion(num: Numerics, t: MsgType, value: Numeric): (r: Result<Message>)
    requires t == QuaternionType
    ensures value.QuaternionValue? ==> r.Success?
    ensures value.ArrayValue? ==>
      && (r == Failure(TypeError) <==> !num.canCast(value.arr, Float64))
      && (r == Failure(ValueError(WrongShape)) <==> num.canCast(value.arr, Float64) && value.arr.shape != [4])
      && (r.Success? <==> num.canCast(value.arr, Float64) && value.arr.shape == [4])
    ensures r.Success? ==>
      && r.value.Quaternion?
      && [r.value.x, r.value.y, r.value.z, r.value.w]
         == if value.QuaternionValue? then AsFloatArray(value.quaternion) else value.arr.flat
  {
    match value
    case QuaternionValue(q) =>
      var c := AsFloatArray(q);
      Success(Quaternion(c[0], c[1], c[2], c[3]))
    case ArrayValue(a) =>
      if !num.canCast(a, Float64) then
        Failure(TypeError)
      else if a.shape != [4] then
        Failure(ValueError(WrongShape))
      else
        Success(Quaternion(a.flat[0], a.flat[1], a.flat[2], a.flat[3]))
  }

  /**
   * Decoding and encoding again preserves all four components, whether the
   * value is passed on as an `np.quaternion` or as its float64 array.
   */
  lemma QuaternionRoundTrip(num: Numerics, msg: Message)
    requires CastsToOwnPrecision(num) && QuaternionDecodable(msg)
    ensures NumpyToQuaternion(num, QuaternionType, QuaternionValue(QuaternionToNumpy(msg))) == Success(Unstamp(msg))
    ensures NumpyToQuaternion(num, QuaternionType, ArrayValue(Vector(Float64, AsFloatArray(QuaternionToNumpy(msg)))))
      == Success(Unstamp(msg))
  {
    assert num.canCast(Vector(Float64, AsFloatArray(QuaternionToNumpy(msg))), Float64);
  }

  /** Decoding an encoded `np.quaternion` gives back the same quaternion. */
  lemma QuaternionValueDecodeAfterEncode(num: Numerics, q: NpQuaternion, msg: Message)
    requires NumpyToQuaternion(num, QuaternionType, QuaternionValue(q)) == Success(msg)
    ensures QuaternionDecodable(msg)
    ensures QuaternionToNumpy(msg) == q
  {
  }

  /** Decoding an encoded (4,) array gives back the array's entries in order. */
  lemma QuaternionDecodeAfterEncode(num: Numerics, arr: NpArray, msg: Message)
    requires NumpyToQuaternion(num, QuaternionType, ArrayValue(arr)) == Success(msg)
    ensures arr.shape == [4] && QuaternionDecodable(msg)
    ensures AsFloatArray(QuaternionToNumpy(msg)) == arr.flat
  {
  }
}
