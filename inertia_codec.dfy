/** The inertia codec (`inertia_to_numpy`, `numpy_to_inertia`). */
module InertiaCodec {
  import opened Results
  import opened Numpy
  import opened Messages
  import opened Stamping
  import opened VectorCodec

  predicate InertiaDecodable(msg: Message)
  {
    var u := Unstamp(msg);
    u.Inertia? && VectorDecodable(u.com)
  }

  /** The 3x3 tensor built from the six moments, mirrored across the diagonal. */
  function InertiaTensor(u: Message): NpArray
    requires u.Inertia?
  {
    Matrix(Float64, 3, 3, [u.ixx, u.ixy, u.ixz,
                           u.ixy, u.iyy, u.iyz,
                           u.ixz, u.iyz, u.izz])
  }

  /** `inertia_to_numpy(msg, homogeneous)`: (mass, centre of mass, tensor). */
  function InertiaToNumpy(msg: Message, homogeneous: bool): (real, NpArray, NpArray)
    requires InertiaDecodable(msg)
  {
    var u := Unstamp(msg);
    (u.m, VectorArray(u.com, homogeneous), InertiaTensor(u))
  }

  /** Decoding a stamped message gives what decoding its payload gives. */
  lemma InertiaStampAgnostic(msg: Message, homogeneous: bool)
    requires Conforms(msg) && InertiaDecodable(msg)
    ensures InertiaDecodable(Unstamp(msg))
    ensures InertiaToNumpy(Unstamp(msg), homogeneous) == InertiaToNumpy(msg, homogeneous)
  {
    UnstampIdempotent(msg);
  }

  predicate IsSymmetric3(a: NpArray)
    requires a.shape == [3, 3]
  {
    forall i, j | 0 <= i < 3 && 0 <= j < 3 :: At(a, i, j) == At(a, j, i)
  }

  /**
   * The decoded tensor is a symmetric 3x3 float64 array whose diagonal and
   * upper triangle hold ixx, ixy, ixz, iyy, iyz, izz.
   */
  lemma InertiaTensorLayout(msg: Message, homogeneous: bool)
    requires InertiaDecodable(msg)
    ensures var (_, _, tensor) := InertiaToNumpy(msg, homogeneous);
      var u := Unstamp(msg);
      && tensor.shape == [3, 3] && tensor.dtype == Float64
      && IsSymmetric3(tensor)
      && At(tensor, 0, 0) == u.ixx && At(tensor, 0, 1) == u.ixy && At(tensor, 0, 2) == u.ixz
      && At(tensor, 1, 1) == u.iyy && At(tensor, 1, 2) == u.iyz && At(tensor, 2, 2) == u.izz
  {
  }

  /**
   * `numpy_to_inertia(message_type, mass, mass_center, inertia_tensor)`: the
   * mass and the tensor are checked for float64 cast safety, the centre is
   * encoded as a `Vector3`, and only then is the tensor's shape checked.  The
   * yz moment is read from `[2, 1]`.
   */
  function NumpyToInertia(num: Numerics, t: MsgType, mass: real, massCenter: NpArray, tensor: NpArray): (r: Result<Message>)
    requires t == InertiaType
    ensures !num.canCast(Scalar(mass), Float64) ==> r == Failure(TypeError)
    ensures num.canCast(Scalar(mass), Float64) && !num.canCast(tensor, Float64) ==> r == Failure(TypeError)
    ensures num.canCast(Scalar(mass), Float64) && num.canCast(tensor, Float64) ==>
      && (NumpyToVector(num, Vector3Type, massCenter).Failure? ==> r == NumpyToVector(num, Vector3Type, massCenter))
      && (NumpyToVector(num, Vector3Type, massCenter).Success? && tensor.shape != [3, 3] ==>
            r == Failure(ValueError(WrongShape)))
    ensures r.Success? <==>
      && num.canCast(Scalar(mass), Float64) && num.canCast(tensor, Float64)
      && NumpyToVector(num, Vector3Type, massCenter).Success?
      && tensor.shape == [3, 3]
    ensures r.Success? ==>
      && r.value.Inertia? && r.value.m == mass
      && r.value.com == NumpyToVector(num, Vector3Type, massCenter).value
      && r.value.ixx == At(tensor, 0, 0) && r.value.ixy == At(tensor, 0, 1) && r.value.ixz == At(tensor, 0, 2)
      && r.value.iyy == At(tensor, 1, 1) && r.value.iyz == At(tensor, 2, 1) && r.value.izz == At(tensor, 2, 2)
  {
    if !num.canCast(Scalar(mass), Float64) then
      Failure(TypeError)
    else if !num.canCast(tensor, Float64) then
      Failure(TypeError)
    else
      var massCenterMsg :- NumpyToVector(num, Vector3Type, massCenter);
      if tensor.shape != [3, 3] then
        Failure(ValueError(WrongShape))
      else
        Success(Inertia(mass, massCenterMsg,
                        At(tensor, 0, 0), At(tensor, 0, 1), At(tensor, 0, 2),
                        At(tensor, 1, 1), At(tensor, 2, 1), At(tensor, 2, 2)))
  }

  /** Encoding the decoded triple gives back the unstamped message, all six moments included. */
  lemma InertiaRoundTrip(num: Numerics, msg: Message, homogeneous: bool)
    requires CastsToOwnPrecision(num)
    requires Conforms(msg) && InertiaDecodable(msg)
    ensures var (mass, massCenter, tensor) := InertiaToNumpy(msg, homogeneous);
      NumpyToInertia(num, InertiaType, mass, massCenter, tensor) == Success(Unstamp(msg))
  {
    var u := Unstamp(msg);
    UnstampType(msg);
    VectorRoundTrip(num, u.com, homogeneous);
    assert num.canCast(Scalar(u.m), Float64);
    assert num.canCast(InertiaTensor(u), Float64);
  }

  /**
   * Decoding an encoded inertia gives back a symmetric tensor, equal to the
   * input wherever the input is symmetric: [1][2] is taken from the input's [2][1].
   */
  lemma InertiaDecodeAfterEncode(num: Numerics, mass: real, massCenter: NpArray, tensor: NpArray, msg: Message)
    requires NumpyToInertia(num, InertiaType, mass, massCenter, tensor) == Success(msg)
    ensures InertiaDecodable(msg)
    ensures var (m, c, decoded) := InertiaToNumpy(msg, false);
      && m == mass && c == Vector(Float64, massCenter.flat[..3]) && decoded.shape == [3, 3]
      && At(decoded, 1, 2) == At(tensor, 2, 1)
      && (IsSymmetric3(tensor) ==> decoded == tensor.(dtype := Float64))
  {
    VectorDecodeAfterEncode(num, Vector3Type, massCenter, msg.com);
    var decoded := InertiaTensor(msg);
    if IsSymmetric3(tensor) {
      forall k | 0 <= k < 9 ensures decoded.flat[k] == tensor.flat[k] {
        assert At(decoded, k / 3, k % 3) == At(tensor, k / 3, k % 3);
      }
    }
  }
}
