/** The 3d vector codec (`vector_to_numpy`, `numpy_to_vector`). */
module VectorCodec {
  import opened Results
  import opened Numpy
  import opened Messages
  import opened Stamping

  /** The message has the `x`, `y` and `z` attributes `vector_to_numpy` reads. */
  predicate HasXyz(msg: Message)
  {
    msg.Vector3? || msg.Point? || msg.Point32? || msg.Quaternion?
  }

  predicate VectorDecodable(msg: Message)
  {
    HasXyz(Unstamp(msg))
  }

  /** The array `vector_to_numpy(msg, homogeneous)` returns. */
  function VectorArray(msg: Message, homogeneous: bool): NpArray
    requires VectorDecodable(msg)
  {
    var u := Unstamp(msg);
    var data := if homogeneous then [u.x, u.y, u.z, 1.0] else [u.x, u.y, u.z];
    Vector(if u.Point32? then Float32 else Float64, data)
  }

  /**
   * Builds `[x, y, z]`, appends the homogeneous 1.0 when asked, and picks
   * float32 for a `Point32` and float64 otherwise.
   */
  method VectorToNumpy(msg: Message, homogeneous: bool) returns (arr: NpArray)
    requires VectorDecodable(msg)
    ensures arr.shape == [if homogeneous then 4 else 3]
    ensures arr.flat[..3] == [Unstamp(msg).x, Unstamp(msg).y, Unstamp(msg).z]
    ensures homogeneous ==> arr.flat[3] == 1.0
    ensures arr.dtype == Float32 <==> Unstamp(msg).Point32?
    ensures arr == VectorArray(msg, homogeneous)
  {
    var u := Unstamp(msg);
    var data := [u.x, u.y, u.z];
    if homogeneous {
      data := data + [1.0];
    }
    var dtype := if u.Point32? then Float32 else Float64;
    arr := Vector(dtype, data);
  }

  /** Decoding a stamped message gives what decoding its payload gives. */
  lemma VectorStampAgnostic(msg: Message, homogeneous: bool)
    requires Conforms(msg) && VectorDecodable(msg)
    ensures VectorDecodable(Unstamp(msg))
    ensures VectorArray(Unstamp(msg), homogeneous) == VectorArray(msg, homogeneous)
  {
    UnstampIdempotent(msg);
  }

  /** The types `numpy_to_vector` is registered for. */
  predicate IsVectorType(t: MsgType)
  {
    t == Vector3Type || t == PointType || t == Point32Type
  }

  /** `message_type(x, y, z)`. */
  function MakeVector(t: MsgType, x: real, y: real, z: real): Message
    requires IsVectorType(t)
  {
    match t
    case Vector3Type => Vector3(x, y, z)
    case PointType => Point(x, y, z)
    case Point32Type => Point32(x, y, z)
  }

  /** The dtype a vector message type's components are checked against. */
  function TargetDType(t: MsgType): DType
  {
    if t == Point32Type then Float32 else Float64
  }

  /**
   * `numpy_to_vector(message_type, array)`: the shape is checked first, then
   * cast safety, then the homogeneous component of a 4-array; the message is
   * built from the first three entries.
   */
  function NumpyToVector(num: Numerics, t: MsgType, arr: NpArray): (r: Result<Message>)
    requires IsVectorType(t)
    ensures r == Failure(ValueError(WrongShape)) <==> arr.shape != [3] && arr.shape != [4]
    ensures r == Failure(TypeError) <==>
      (arr.shape == [3] || arr.shape == [4]) && !num.canCast(arr, TargetDType(t))
    ensures r == Failure(ValueError(NotHomogeneousVector)) <==>
      arr.shape == [4] && num.canCast(arr, TargetDType(t)) && !IsClose(arr.flat[3], 1.0)
    ensures r.Success? <==>
      && (arr.shape == [3] || arr.shape == [4])
      && num.canCast(arr, TargetDType(t))
      && (arr.shape == [4] ==> IsClose(arr.flat[3], 1.0))
    ensures r.Success? ==>
      && TypeOf(r.value) == t
      && [r.value.x, r.value.y, r.value.z] == arr.flat[..3]
  {
    if arr.shape != [3] && arr.shape != [4] then
      Failure(ValueError(WrongShape))
    else if !num.canCast(arr, TargetDType(t)) then
      Failure(TypeError)
    else if arr.shape[0] == 4 && !IsClose(arr.flat[3], 1.0) then
      Failure(ValueError(NotHomogeneousVector))
    else
      Success(MakeVector(t, arr.flat[0], arr.flat[1], arr.flat[2]))
  }

  /** Encoding a decoded vector gives back the unstamped message. */
  lemma VectorRoundTrip(num: Numerics, msg: Message, homogeneous: bool)
    requires CastsToOwnPrecision(num)
    requires VectorDecodable(msg) && IsVectorType(TypeOf(Unstamp(msg)))
    ensures NumpyToVector(num, TypeOf(Unstamp(msg)), VectorArray(msg, homogeneous)) == Success(Unstamp(msg))
  {
    var u := Unstamp(msg);
    var a := VectorArray(msg, homogeneous);
    assert a.dtype == TargetDType(TypeOf(u));
    assert num.canCast(a, TargetDType(TypeOf(u)));
  }

  /**
   * Decoding an encoded vector gives back its first three entries, as an array
   * of the message type's dtype, and 1.0 in place of a close-to-1 fourth entry.
   */
  lemma VectorDecodeAfterEncode(num: Numerics, t: MsgType, arr: NpArray, msg: Message)
    requires IsVectorType(t) && NumpyToVector(num, t, arr) == Success(msg)
    ensures VectorDecodable(msg) && Unstamp(msg) == msg
    ensures VectorArray(msg, false) == Vector(TargetDType(t), arr.flat[..3])
    ensures arr.shape == [4] ==>
      && IsClose(arr.flat[3], 1.0)
      && VectorArray(msg, true) == Vector(TargetDType(t), arr.flat[..3] + [1.0])
  {
  }

  /** A fourth entry within numpy's default tolerance of 1 passes; 0.5 does not. */
  lemma HomogeneousTolerance(num: Numerics)
    requires CastsToOwnPrecision(num)
    ensures NumpyToVector(num, Vector3Type, Vector(Float64, [1.0, 2.0, 3.0, 1.0000001])).Success?
    ensures NumpyToVector(num, Vector3Type, Vector(Float64, [1.0, 2.0, 3.0, 0.5]))
      == Failure(ValueError(NotHomogeneousVector))
    ensures NumpyToVector(num, Vector3Type, Vector(Float64, [1.0, 2.0]))
      == Failure(ValueError(WrongShape))
  {
    assert num.canCast(Vector(Float64, [1.0, 2.0, 3.0, 1.0000001]), Float64);
    assert num.canCast(Vector(Float64, [1.0, 2.0, 3.0, 0.5]), Float64);
  }
}
