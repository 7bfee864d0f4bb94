/**
 * The ROS geometry_msgs records the converters read and build.  They are
 * external: only the field names and nesting matter here.  Nested fields are
 * typed `Message`, as for Python's duck typing; `Conforms` states the nesting
 * the ROS schema declares.
 */
module Messages {
  import opened Results

  /** The std_msgs/Header of a stamped message; it has no numeric representation. */
  datatype Header = Header(stamp: int, frameId: string)

  datatype Message =
    | Vector3(x: real, y: real, z: real)
    | Point(x: real, y: real, z: real)
    | Point32(x: real, y: real, z: real)
    | Quaternion(x: real, y: real, z: real, w: real)
    | Twist(linear: Message, angular: Message)
    | Accel(linear: Message, angular: Message)
    | Wrench(force: Message, torque: Message)
    | TwistWithCovariance(twist: Message, covariance: seq<real>)
    | AccelWithCovariance(accel: Message, covariance: seq<real>)
    | Inertia(m: real, com: Message, ixx: real, ixy: real, ixz: real, iyy: real, iyz: real, izz: real)
    | Polygon(points: seq<Message>)
    | Pose(position: Message, orientation: Message)
    | Transform(translation: Message, rotation: Message)
    | Vector3Stamped(header: Header, vector: Message)
    | PointStamped(header: Header, point: Message)
    | QuaternionStamped(header: Header, quaternion: Message)
    | TwistStamped(header: Header, twist: Message)
    | AccelStamped(header: Header, accel: Message)
    | WrenchStamped(header: Header, wrench: Message)
    | TwistWithCovarianceStamped(header: Header, twist: Message)
    | AccelWithCovarianceStamped(header: Header, accel: Message)
    | InertiaStamped(header: Header, inertia: Message)
    | PolygonStamped(header: Header, polygon: Message)
    | PoseStamped(header: Header, pose: Message)
    | TransformStamped(header: Header, childFrameId: string, transform: Message)

  /** The message classes, compared by identity (`message.__class__`, `message_type is T`). */
  datatype MsgType =
    | Vector3Type | PointType | Point32Type | QuaternionType
    | TwistType | AccelType | WrenchType
    | TwistWithCovarianceType | AccelWithCovarianceType
    | InertiaType | PolygonType | PoseType | TransformType
    | Vector3StampedType | PointStampedType | QuaternionStampedType
    | TwistStampedType | AccelStampedType | WrenchStampedType
    | TwistWithCovarianceStampedType | AccelWithCovarianceStampedType
    | InertiaStampedType | PolygonStampedType | PoseStampedType | TransformStampedType

  function TypeOf(msg: Message): MsgType
  {
    match msg
    case Vector3(_, _, _) => Vector3Type
    case Point(_, _, _) => PointType
    case Point32(_, _, _) => Point32Type
    case Quaternion(_, _, _, _) => QuaternionType
    case Twist(_, _) => TwistType
    case Accel(_, _) => AccelType
    case Wrench(_, _) => WrenchType
    case TwistWithCovariance(_, _) => TwistWithCovarianceType
    case AccelWithCovariance(_, _) => AccelWithCovarianceType
    case Inertia(_, _, _, _, _, _, _, _) => InertiaType
    case Polygon(_) => PolygonType
    case Pose(_, _) => PoseType
    case Transform(_, _) => TransformType
    case Vector3Stamped(_, _) => Vector3StampedType
    case PointStamped(_, _) => PointStampedType
    case QuaternionStamped(_, _) => QuaternionStampedType
    case TwistStamped(_, _) => TwistStampedType
    case AccelStamped(_, _) => AccelStampedType
    case WrenchStamped(_, _) => WrenchStampedType
    case TwistWithCovarianceStamped(_, _) => TwistWithCovarianceStampedType
    case AccelWithCovarianceStamped(_, _) => AccelWithCovarianceStampedType
    case InertiaStamped(_, _) => InertiaStampedType
    case PolygonStamped(_, _) => PolygonStampedType
    case PoseStamped(_, _) => PoseStampedType
    case TransformStamped(_, _, _) => TransformStampedType
  }

  /** `getattr(msg, name)` for the fields that hold a message. */
  function Field(msg: Message, name: string): Option<Message>
  {
    match msg
    case Twist(l, a) => if name == "linear" then Some(l) else if name == "angular" then Some(a) else None
    case Accel(l, a) => if name == "linear" then Some(l) else if name == "angular" then Some(a) else None
    case Wrench(f, t) => if name == "force" then Some(f) else if name == "torque" then Some(t) else None
    case TwistWithCovariance(t, _) => if name == "twist" then Some(t) else None
    case AccelWithCovariance(a, _) => if name == "accel" then Some(a) else None
    case Inertia(_, c, _, _, _, _, _, _) => if name == "com" then Some(c) else None
    case Pose(p, o) => if name == "position" then Some(p) else if name == "orientation" then Some(o) else None
    case Transform(t, r) => if name == "translation" then Some(t) else if name == "rotation" then Some(r) else None
    case Vector3Stamped(_, v) => if name == "vector" then Some(v) else None
    case PointStamped(_, p) => if name == "point" then Some(p) else None
    case QuaternionStamped(_, q) => if name == "quaternion" then Some(q) else None
    case TwistStamped(_, t) => if name == "twist" then Some(t) else None
    case AccelStamped(_, a) => if name == "accel" then Some(a) else None
    case WrenchStamped(_, w) => if name == "wrench" then Some(w) else None
    case TwistWithCovarianceStamped(_, t) => if name == "twist" then Some(t) else None
    case AccelWithCovarianceStamped(_, a) => if name == "accel" then Some(a) else None
    case InertiaStamped(_, i) => if name == "inertia" then Some(i) else None
    case PolygonStamped(_, p) => if name == "polygon" then Some(p) else None
    case PoseStamped(_, p) => if name == "pose" then Some(p) else None
    case TransformStamped(_, _, t) => if name == "transform" then Some(t) else None
    case _ => None
  }

  /** The twelve message types that wrap a payload together with a header. */
  predicate IsStamped(msg: Message)
  {
    || msg.Vector3Stamped? || msg.PointStamped? || msg.QuaternionStamped?
    || msg.TwistStamped? || msg.AccelStamped? || msg.WrenchStamped?
    || msg.TwistWithCovarianceStamped? || msg.AccelWithCovarianceStamped?
    || msg.InertiaStamped? || msg.PolygonStamped? || msg.PoseStamped? || msg.TransformStamped?
  }


  /** The unstamped type a stamped type wraps. */
  function PayloadType(t: MsgType): MsgType
  {
    match t
    case Vector3StampedType => Vector3Type
    case PointStampedType => PointType
    case QuaternionStampedType => QuaternionType
    case TwistStampedType => TwistType
    case AccelStampedType => AccelType
    case WrenchStampedType => WrenchType
    case TwistWithCovarianceStampedType => TwistWithCovarianceType
    case AccelWithCovarianceStampedType => AccelWithCovarianceType
    case InertiaStampedType => InertiaType
    case PolygonStampedType => PolygonType
    case PoseStampedType => PoseType
    case TransformStampedType => TransformType
    case _ => t
  }

  /** The nesting the ROS schema declares for each message type. */
  predicate Conforms(msg: Message)
  {
    match msg
    case Vector3(_, _, _) => true
    case Point(_, _, _) => true
    case Point32(_, _, _) => true
    case Quaternion(_, _, _, _) => true
    case Twist(l, a) => l.Vector3? && a.Vector3?
    case Accel(l, a) => l.Vector3? && a.Vector3?
    case Wrench(f, t) => f.Vector3? && t.Vector3?
    case TwistWithCovariance(t, c) => t.Twist? && Conforms(t) && |c| == 36
    case AccelWithCovariance(a, c) => a.Accel? && Conforms(a) && |c| == 36
    case Inertia(_, c, _, _, _, _, _, _) => c.Vector3?
    case Polygon(ps) => forall i | 0 <= i < |ps| :: ps[i].Point32?
    case Pose(p, o) => p.Point? && o.Quaternion?
    case Transform(t, r) => t.Vector3? && r.Quaternion?
    case Vector3Stamped(_, v) => v.Vector3?
    case PointStamped(_, p) => p.Point?
    case QuaternionStamped(_, q) => q.Quaternion?
    case TwistStamped(_, t) => t.Twist? && Conforms(t)
    case AccelStamped(_, a) => a.Accel? && Conforms(a)
    case WrenchStamped(_, w) => w.Wrench? && Conforms(w)
    case TwistWithCovarianceStamped(_, t) => t.TwistWithCovariance? && Conforms(t)
    case AccelWithCovarianceStamped(_, a) => a.AccelWithCovariance? && Conforms(a)
    case InertiaStamped(_, i) => i.Inertia? && Conforms(i)
    case PolygonStamped(_, p) => p.Polygon? && Conforms(p)
    case PoseStamped(_, p) => p.Pose? && Conforms(p)
    case TransformStamped(_, _, t) => t.Transform? && Conforms(t)
  }
}
