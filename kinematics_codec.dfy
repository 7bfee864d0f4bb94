/**
 * The paired linear/angular codec (`kinematics_to_numpy`, `numpy_to_kinamatics`)
 * and the covariance-augmented codec built on it
 * (`kinematics_with_covariance_to_numpy`, `numpy_to_kinematics_with_covariance`,
 * `numpy_to_covariance`).
 */
module KinematicsCodec {
  import opened Results
  import opened Numpy
  import opened Messages
  import opened Stamping
  import opened VectorCodec

  /** `Wrench` names its halves `force`/`torque`; `Twist` and `Accel` use `linear`/`angular`. */
  function LinearKey(u: Message): string
  {
    if u.Wrench? then "force" else "linear"
  }

  function AngularKey(u: Message): string
  {
    if u.Wrench? then "torque" else "angular"
  }

  predicate KinematicsDecodable(msg: Message)
  {
    var u := Unstamp(msg);
    || ((u.Twist? || u.Accel?) && VectorDecodable(u.linear) && VectorDecodable(u.angular))
    || (u.Wrench? && VectorDecodable(u.force) && VectorDecodable(u.torque))
  }

  /** `kinematics_to_numpy(msg, homogeneous)`: the (linear, angular) pair of vectors. */
  function KinematicsToNumpy(msg: Message, homogeneous: bool): (NpArray, NpArray)
    requires KinematicsDecodable(msg)
  {
    var u := Unstamp(msg);
    var isWrench := u.Wrench?;
    var linearMsg := if isWrench then u.force else u.linear;
    var angularMsg := if isWrench then u.torque else u.angular;
    (VectorArray(linearMsg, homogeneous), VectorArray(angularMsg, homogeneous))
  }

  /** Decoding a stamped message gives what decoding its payload gives. */
  lemma KinematicsStampAgnostic(msg: Message, homogeneous: bool)
    requires Conforms(msg) && KinematicsDecodable(msg)
    ensures KinematicsDecodable(Unstamp(msg))
    ensures KinematicsToNumpy(Unstamp(msg), homogeneous) == KinematicsToNumpy(msg, homogeneous)
  {
    UnstampIdempotent(msg);
  }

  /** The halves are read from the fields the exact type names. */
  lemma KinematicsFieldNames(msg: Message, homogeneous: bool)
    requires KinematicsDecodable(msg)
    ensures var u := Unstamp(msg);
      && Field(u, LinearKey(u)).Some? && Field(u, AngularKey(u)).Some?
      && VectorDecodable(Field(u, LinearKey(u)).value)
      && VectorDecodable(Field(u, AngularKey(u)).value)
      && KinematicsToNumpy(msg, homogeneous)
         == (VectorArray(Field(u, LinearKey(u)).value, homogeneous),
             VectorArray(Field(u, AngularKey(u)).value, homogeneous))
  {
  }

  predicate IsKinematicsType(t: MsgType)
  {
    t == AccelType || t == TwistType || t == WrenchType
  }

  /** `message_type(**{linear_key: linear, angular_key: angular})`. */
  function MakeKinematics(t: MsgType, linear: Message, angular: Message): Message
    requires IsKinematicsType(t)
  {
    match t
    case AccelType => Accel(linear, angular)
    case TwistType => Twist(linear, angular)
    case WrenchType => Wrench(linear, angular)
  }

  /**
   * `numpy_to_kinamatics(message_type, linear, angular)`: each half is
   * encoded as a `Vector3`, the linear one first.
   */
  function NumpyToKinematics(num: Numerics, t: MsgType, linear: NpArray, angular: NpArray): (r: Result<Message>)
    requires IsKinematicsType(t)
    ensures r.Success? <==>
      NumpyToVector(num, Vector3Type, linear).Success? && NumpyToVector(num, Vector3Type, angular).Success?
    ensures NumpyToVector(num, Vector3Type, linear).Failure? ==> r == NumpyToVector(num, Vector3Type, linear)
    ensures NumpyToVector(num, Vector3Type, linear).Success? && NumpyToVector(num, Vector3Type, angular).Failure? ==>
      r == NumpyToVector(num, Vector3Type, angular)
    ensures r.Success? ==>
      && TypeOf(r.value) == t
      && Field(r.value, LinearKey(r.value)) == Some(NumpyToVector(num, Vector3Type, linear).value)
      && Field(r.value, AngularKey(r.value)) == Some(NumpyToVector(num, Vector3Type, angular).value)
  {
    var l :- NumpyToVector(num, Vector3Type, linear);
    var a :- NumpyToVector(num, Vector3Type, angular);
    Success(MakeKinematics(t, l, a))
  }

  /** Encoding the decoded pair gives back the unstamped message. */
  lemma KinematicsRoundTrip(num: Numerics, msg: Message, homogeneous: bool)
    requires CastsToOwnPrecision(num)
    requires Conforms(msg) && KinematicsDecodable(msg)
    ensures IsKinematicsType(TypeOf(Unstamp(msg)))
    ensures var (linear, angular) := KinematicsToNumpy(msg, homogeneous);
      NumpyToKinematics(num, TypeOf(Unstamp(msg)), linear, angular) == Success(Unstamp(msg))
  {
    var u := Unstamp(msg);
    UnstampType(msg);
    var lm := if u.Wrench? then u.force else u.linear;
    var am := if u.Wrench? then u.torque else u.angular;
    assert lm.Vector3? && am.Vector3?;
    VectorRoundTrip(num, lm, homogeneous);
    VectorRoundTrip(num, am, homogeneous);
    assert KinematicsToNumpy(msg, homogeneous) == (VectorArray(lm, homogeneous), VectorArray(am, homogeneous));
    assert MakeKinematics(TypeOf(u), lm, am) == u;
  }

  /** Decoding an encoded pair gives back the first three entries of each half, as float64. */
  lemma KinematicsDecodeAfterEncode(num: Numerics, t: MsgType, linear: NpArray, angular: NpArray, msg: Message)
    requires IsKinematicsType(t) && NumpyToKinematics(num, t, linear, angular) == Success(msg)
    ensures KinematicsDecodable(msg) && Unstamp(msg) == msg
    ensures KinematicsToNumpy(msg, false) == (Vector(Float64, linear.flat[..3]), Vector(Float64, angular.flat[..3]))
  {
    var lm := NumpyToVector(num, Vector3Type, linear).value;
    var am := NumpyToVector(num, Vector3Type, angular).value;
    VectorDecodeAfterEncode(num, Vector3Type, linear, lm);
    VectorDecodeAfterEncode(num, Vector3Type, angular, am);
    assert msg == MakeKinematics(t, lm, am);
  }

  // ---- covariance-augmented kinematics ----

  predicate CovarianceDecodable(msg: Message)
  {
    var u := Unstamp(msg);
    || (u.AccelWithCovariance? && KinematicsDecodable(u.accel) && |u.covariance| == 36)
    || (u.TwistWithCovariance? && KinematicsDecodable(u.twist) && |u.covariance| == 36)
  }

  /** `np.array(covariance, dtype=np.float64).reshape(6, 6)`. */
  function CovarianceMatrix(covariance: seq<real>): NpArray
    requires |covariance| == 36
  {
    Matrix(Float64, 6, 6, covariance)
  }

  /** The reshape is row-major: element [i][j] is flat element 6i + j. */
  lemma CovarianceLayout(covariance: seq<real>, i: nat, j: nat)
    requires |covariance| == 36 && i < 6 && j < 6
    ensures CovarianceMatrix(covariance).shape == [6, 6]
    ensures At(CovarianceMatrix(covariance), i, j) == covariance[6 * i + j]
  {
  }

  /** `kinematics_with_covariance_to_numpy(msg, homogeneous)`: (linear, angular, covariance). */
  function KinematicsWithCovarianceToNumpy(msg: Message, homogeneous: bool): (NpArray, NpArray, NpArray)
    requires CovarianceDecodable(msg)
  {
    var u := Unstamp(msg);
    var isAccel := u.AccelWithCovariance?;
    var kinematicsMsg := if isAccel then u.accel else u.twist;
    var (linear, angular) := KinematicsToNumpy(kinematicsMsg, homogeneous);
    (linear, angular, CovarianceMatrix(u.covariance))
  }

  /** Decoding a stamped message gives what decoding its payload gives. */
  lemma KinematicsWithCovarianceStampAgnostic(msg: Message, homogeneous: bool)
    requires Conforms(msg) && CovarianceDecodable(msg)
    ensures CovarianceDecodable(Unstamp(msg))
    ensures KinematicsWithCovarianceToNumpy(Unstamp(msg), homogeneous) == KinematicsWithCovarianceToNumpy(msg, homogeneous)
  {
    UnstampIdempotent(msg);
  }

  /**
   * `numpy_to_covariance(array)`: cast safety is checked before the shape; the
   * result is the row-major flattening of the 6x6 matrix.
   */
  function NumpyToCovariance(num: Numerics, arr: NpArray): (r: Result<seq<real>>)
    ensures r == Failure(TypeError) <==> !num.canCast(arr, Float64)
    ensures r == Failure(ValueError(WrongShape)) <==> num.canCast(arr, Float64) && arr.shape != [6, 6]
    ensures r.Success? <==> num.canCast(arr, Float64) && arr.shape == [6, 6]
    ensures r.Success? ==>
      && arr.shape == [6, 6] && |r.value| == 36
      && forall i, j | 0 <= i < 6 && 0 <= j < 6 :: r.value[6 * i + j] == At(arr, i, j)
  {
    if !num.canCast(arr, Float64) then
      Failure(TypeError)
    else if arr.shape != [6, 6] then
      Failure(ValueError(WrongShape))
    else
      Success(arr.flat)
  }

  /** Flattening undoes the reshape: the covariance field comes back unchanged. */
  lemma CovarianceRoundTrip(num: Numerics, covariance: seq<real>)
    requires CastsToOwnPrecision(num) && |covariance| == 36
    ensures NumpyToCovariance(num, CovarianceMatrix(covariance)) == Success(covariance)
  {
    assert num.canCast(CovarianceMatrix(covariance), Float64);
  }

  /** Reshaping undoes the flatten: an accepted matrix comes back, as float64. */
  lemma CovarianceReshapeAfterFlatten(num: Numerics, arr: NpArray, covariance: seq<real>)
    requires NumpyToCovariance(num, arr) == Success(covariance)
    ensures |covariance| == 36
    ensures CovarianceMatrix(covariance) == arr.(dtype := Float64)
  {
  }

  predicate IsCovarianceType(t: MsgType)
  {
    t == AccelWithCovarianceType || t == TwistWithCovarianceType
  }

  /**
   * `numpy_to_kinematics_with_covariance(message_type, linear, angular, covariance)`:
   * the `Accel`/`Twist` part is encoded first, then the covariance.
   */
  function NumpyToKinematicsWithCovariance(
    num: Numerics, t: MsgType, linear: NpArray, angular: NpArray, covariance: NpArray): (r: Result<Message>)
    requires IsCovarianceType(t)
    ensures var kinematicsType := if t == AccelWithCovarianceType then AccelType else TwistType;
      && (r.Success? <==>
           NumpyToKinematics(num, kinematicsType, linear, angular).Success?
           && NumpyToCovariance(num, covariance).Success?)
      && (NumpyToKinematics(num, kinematicsType, linear, angular).Failure? ==>
           r == NumpyToKinematics(num, kinematicsType, linear, angular))
      && (NumpyToKinematics(num, kinematicsType, linear, angular).Success? &&
          NumpyToCovariance(num, covariance).Failure? ==>
           r == Failure(NumpyToCovariance(num, covariance).error))
      && (r.Success? ==>
           && TypeOf(r.value) == t
           && r.value.covariance == NumpyToCovariance(num, covariance).value
           && Field(r.value, if t == AccelWithCovarianceType then "accel" else "twist")
              == Some(NumpyToKinematics(num, kinematicsType, linear, angular).value))
  {
    var isAccel := t == AccelWithCovarianceType;
    var kinematicsType := if isAccel then AccelType else TwistType;
    var kinematicsMsg :- NumpyToKinematics(num, kinematicsType, linear, angular);
    var covarianceMsg :- NumpyToCovariance(num, covariance);
    Success(if isAccel then AccelWithCovariance(kinematicsMsg, covarianceMsg)
            else TwistWithCovariance(kinematicsMsg, covarianceMsg))
  }

  /** Encoding the decoded triple gives back the unstamped message. */
  lemma KinematicsWithCovarianceRoundTrip(num: Numerics, msg: Message, homogeneous: bool)
    requires CastsToOwnPrecision(num)
    requires Conforms(msg) && CovarianceDecodable(msg)
    ensures IsCovarianceType(TypeOf(Unstamp(msg)))
    ensures var (linear, angular, covariance) := KinematicsWithCovarianceToNumpy(msg, homogeneous);
      NumpyToKinematicsWithCovariance(num, TypeOf(Unstamp(msg)), linear, angular, covariance)
        == Success(Unstamp(msg))
  {
    var u := Unstamp(msg);
    UnstampType(msg);
    var kin := if u.AccelWithCovariance? then u.accel else u.twist;
    KinematicsRoundTrip(num, kin, homogeneous);
    CovarianceRoundTrip(num, u.covariance);
  }

  /**
   * Decoding an encoded triple gives back the first three entries of each
   * half, as float64, and the accepted covariance matrix, as float64.
   */
  lemma KinematicsWithCovarianceDecodeAfterEncode(
    num: Numerics, t: MsgType, linear: NpArray, angular: NpArray, covariance: NpArray, msg: Message)
    requires IsCovarianceType(t)
    requires NumpyToKinematicsWithCovariance(num, t, linear, angular, covariance) == Success(msg)
    ensures CovarianceDecodable(msg) && Unstamp(msg) == msg
    ensures KinematicsWithCovarianceToNumpy(msg, false)
      == (Vector(Float64, linear.flat[..3]), Vector(Float64, angular.flat[..3]), covariance.(dtype := Float64))
  {
    var kinematicsType := if t == AccelWithCovarianceType then AccelType else TwistType;
    var kin := NumpyToKinematics(num, kinematicsType, linear, angular).value;
    KinematicsDecodeAfterEncode(num, kinematicsType, linear, angular, kin);
    CovarianceReshapeAfterFlatten(num, covariance, NumpyToCovariance(num, covariance).value);
  }
}
