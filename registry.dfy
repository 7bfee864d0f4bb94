/**
 * The converter registrations of the geometry_msgs module, as a static table
 * from message type to converter (the registry that dispatches on it is not
 * part of this model).
 */
module Registry {
  import opened Results
  import opened Numpy
  import opened Messages
  import opened Stamping
  import opened VectorCodec
  import opened KinematicsCodec
  import opened InertiaCodec
  import opened PolygonCodec
  import opened QuaternionCodec
  import opened FrameCodec

  /** The converter pairs of the module. */
  datatype Converter =
    | Vectors | Kinematics | KinematicsWithCovariance | InertiaTensors
    | Polygons | Quaternions | Frames

  /** The `converts_to_numpy` registrations: every message type has exactly one. */
  function DecoderFor(t: MsgType): Converter
  {
    match t
    case Vector3Type => Vectors
    case Vector3StampedType => Vectors
    case PointType => Vectors
    case PointStampedType => Vectors
    case Point32Type => Vectors
    case AccelType => Kinematics
    case AccelStampedType => Kinematics
    case TwistType => Kinematics
    case TwistStampedType => Kinematics
    case WrenchType => Kinematics
    case WrenchStampedType => Kinematics
    case AccelWithCovarianceType => KinematicsWithCovariance
    case AccelWithCovarianceStampedType => KinematicsWithCovariance
    case TwistWithCovarianceType => KinematicsWithCovariance
    case TwistWithCovarianceStampedType => KinematicsWithCovariance
    case InertiaType => InertiaTensors
    case InertiaStampedType => InertiaTensors
    case PolygonType => Polygons
    case PolygonStampedType => Polygons
    case QuaternionType => Quaternions
    case QuaternionStampedType => Quaternions
    case PoseType => Frames
    case PoseStampedType => Frames
    case TransformType => Frames
    case TransformStampedType => Frames
  }

  /** The `converts_to_message` registrations. */
  function EncoderFor(t: MsgType): Option<Converter>
  {
    match t
    case Vector3Type => Some(Vectors)
    case PointType => Some(Vectors)
    case Point32Type => Some(Vectors)
    case AccelType => Some(Kinematics)
    case TwistType => Some(Kinematics)
    case WrenchType => Some(Kinematics)
    case AccelWithCovarianceType => Some(KinematicsWithCovariance)
    case TwistWithCovarianceType => Some(KinematicsWithCovariance)
    case InertiaType => Some(InertiaTensors)
    case PolygonType => Some(Polygons)
    case QuaternionType => Some(Quaternions)
    case PoseType => Some(Frames)
    case PoseStampedType => Some(Frames)
    case TransformType => Some(Frames)
    case TransformStampedType => Some(Frames)
    case _ => None
  }

  /** A stamped type is decoded by the converter of its payload type. */
  lemma DecoderIgnoresStamp(msg: Message)
    requires Conforms(msg)
    ensures DecoderFor(TypeOf(Unstamp(msg))) == DecoderFor(TypeOf(msg))
  {
    UnstampType(msg);
  }

  /** The component vectors of a well-formed message are not stamped, so they pass through unchanged. */
  lemma KinematicsHalvesDecodable(u: Message)
    requires (u.Twist? || u.Accel?) && Conforms(u)
    ensures KinematicsDecodable(u)
  {
  }

  lemma RegisteredKinematicsAccepts(msg: Message)
    requires Conforms(msg) && DecoderFor(TypeOf(msg)) == Kinematics
    ensures KinematicsDecodable(msg)
  {
    UnstampType(msg);
    var u := Unstamp(msg);
    if u.Wrench? {
    } else {
      KinematicsHalvesDecodable(u);
    }
  }

  lemma RegisteredCovarianceAccepts(msg: Message)
    requires Conforms(msg) && DecoderFor(TypeOf(msg)) == KinematicsWithCovariance
    ensures CovarianceDecodable(msg)
  {
    UnstampType(msg);
    var u := Unstamp(msg);
    if u.TwistWithCovariance? {
      KinematicsHalvesDecodable(u.twist);
    } else {
      KinematicsHalvesDecodable(u.accel);
    }
  }

  lemma RegisteredInertiaAccepts(msg: Message)
    requires Conforms(msg) && DecoderFor(TypeOf(msg)) == InertiaTensors
    ensures InertiaDecodable(msg)
  {
    UnstampType(msg);
  }

  lemma RegisteredPolygonAccepts(msg: Message)
    requires Conforms(msg) && DecoderFor(TypeOf(msg)) == Polygons
    ensures PolygonDecodable(msg)
  {
    UnstampType(msg);
    var ps := Unstamp(msg).points;
    forall k | 0 <= k < |ps| ensures VectorDecodable(ps[k]) {
    }
  }

  lemma RegisteredFrameAccepts(msg: Message)
    requires Conforms(msg) && DecoderFor(TypeOf(msg)) == Frames
    ensures FrameDecodable(msg)
  {
    UnstampType(msg);
    var u := Unstamp(msg);
  }

  /** A well-formed message meets the requirements of the decoder registered for its type. */
  lemma RegisteredDecoderAccepts(msg: Message)
    requires Conforms(msg)
    ensures match DecoderFor(TypeOf(msg))
      case Vectors => VectorDecodable(msg)
      case Kinematics => KinematicsDecodable(msg)
      case KinematicsWithCovariance => CovarianceDecodable(msg)
      case InertiaTensors => InertiaDecodable(msg)
      case Polygons => PolygonDecodable(msg)
      case Quaternions => QuaternionDecodable(msg)
      case Frames => FrameDecodable(msg)
  {
    UnstampType(msg);
    match DecoderFor(TypeOf(msg))
    case Vectors =>
    case Kinematics => RegisteredKinematicsAccepts(msg);
    case KinematicsWithCovariance => RegisteredCovarianceAccepts(msg);
    case InertiaTensors => RegisteredInertiaAccepts(msg);
    case Polygons => RegisteredPolygonAccepts(msg);
    case Quaternions =>
    case Frames => RegisteredFrameAccepts(msg);
  }

  /** Each encoder is registered for exactly the types its converter admits as a target. */
  lemma EncoderDomains(t: MsgType)
    ensures EncoderFor(t) == Some(Vectors) <==> IsVectorType(t)
    ensures EncoderFor(t) == Some(Kinematics) <==> IsKinematicsType(t)
    ensures EncoderFor(t) == Some(KinematicsWithCovariance) <==> IsCovarianceType(t)
    ensures EncoderFor(t) == Some(InertiaTensors) <==> t == InertiaType
    ensures EncoderFor(t) == Some(Polygons) <==> t == PolygonType
    ensures EncoderFor(t) == Some(Quaternions) <==> t == QuaternionType
    ensures EncoderFor(t) == Some(Frames) <==> IsFrameType(t)
  {
  }

  /**
   * Of the four types the frame encoder is registered for, it builds the two
   * unstamped ones (from `np.eye(4)`, say) and never a stamped one.
   */
  lemma FrameEncoderBuilds(num: Numerics, t: MsgType)
    requires CastsToOwnPrecision(num) && EncoderFor(t) == Some(Frames)
    ensures PayloadType(t) == t ==> NumpyToFrame(num, t, [ArrayValue(Identity4())]).Success?
    ensures PayloadType(t) != t ==> forall args :: NumpyToFrame(num, t, args).Failure?
  {
    var i4 := Identity4();
    assert num.canCast(i4, Float64);
    assert Row(i4, 3).flat == [0.0, 0.0, 0.0, 1.0];
    assert Column(i4, 3).flat == [0.0, 0.0, 0.0, 1.0];
    assert num.canCast(Column(i4, 3), Float64);
  }

  /**
   * A type with an encoder is decoded by the same converter, and only frame
   * types have an encoder registered for a stamped type.
   */
  lemma EncoderMatchesDecoder(t: MsgType)
    requires EncoderFor(t).Some?
    ensures EncoderFor(t).value == DecoderFor(t)
    ensures PayloadType(t) != t ==> EncoderFor(t) == Some(Frames)
  {
  }
}
