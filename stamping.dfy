/** Stamped-message unwrapping (`_stamped_type_to_attr` and `_unstamp`). */
module Stamping {
  import opened Results
  import opened Messages

  /** Each stamped message type and the name of the field holding its payload. */
  const StampedTypeToAttr: map<MsgType, string> := map[
    AccelStampedType := "accel",
    AccelWithCovarianceStampedType := "accel",
    InertiaStampedType := "inertia",
    PointStampedType := "point",
    PolygonStampedType := "polygon",
    PoseStampedType := "pose",
    QuaternionStampedType := "quaternion",
    TransformStampedType := "transform",
    TwistStampedType := "twist",
    TwistWithCovarianceStampedType := "twist",
    Vector3StampedType := "vector",
    WrenchStampedType := "wrench"
  ]

  /** `_stamped_type_to_attr.get(message.__class__)`. */
  function AttrName(msg: Message): Option<string>
  {
    var t := TypeOf(msg);
    if t in StampedTypeToAttr then Some(StampedTypeToAttr[t]) else None
  }

  lemma PayloadFieldExists(msg: Message)
    requires AttrName(msg).Some?
    ensures Field(msg, AttrName(msg).value).Some?
  {
  }

  /** `_unstamp` as written: the class is looked up in the table and, if found, the named field is read. */
  function UnstampByTable(msg: Message): Message
  {
    var attrName := AttrName(msg);
    if attrName.Some? && attrName.value != "" then
      PayloadFieldExists(msg);
      Field(msg, attrName.value).value
    else
      msg
  }

  /** The payload of a stamped message; any other message unchanged. */
  function Unstamp(msg: Message): Message
  {
    match msg
    case Vector3Stamped(_, v) => v
    case PointStamped(_, p) => p
    case QuaternionStamped(_, q) => q
    case TwistStamped(_, t) => t
    case AccelStamped(_, a) => a
    case WrenchStamped(_, w) => w
    case TwistWithCovarianceStamped(_, t) => t
    case AccelWithCovarianceStamped(_, a) => a
    case InertiaStamped(_, i) => i
    case PolygonStamped(_, p) => p
    case PoseStamped(_, p) => p
    case TransformStamped(_, _, t) => t
    case _ => msg
  }

  /** The table has an entry for exactly the twelve stamped types. */
  lemma StampedTableIsExact(msg: Message)
    ensures AttrName(msg).Some? <==> IsStamped(msg)
  {
  }

  /**
   * The table lookup of `_unstamp` reads, for every stamped type, the field
   * holding the payload the schema declares, and leaves any other message as
   * it is: it is the projection `Unstamp` on every message.
   */
  lemma UnstampProjectsPayload(msg: Message)
    ensures IsStamped(msg) ==> UnstampByTable(msg) == Field(msg, StampedTypeToAttr[TypeOf(msg)]).value
    ensures UnstampByTable(msg) == Unstamp(msg)
    ensures !IsStamped(msg) ==> Unstamp(msg) == msg
  {
  }

  /** No payload is itself stamped, so unstamping twice is unstamping once. */
  lemma UnstampIdempotent(msg: Message)
    requires Conforms(msg)
    ensures !IsStamped(Unstamp(msg))
    ensures Unstamp(Unstamp(msg)) == Unstamp(msg)
  {
  }

  /** Unstamping a conforming message yields a conforming message of the payload type. */
  lemma UnstampType(msg: Message)
    requires Conforms(msg)
    ensures TypeOf(Unstamp(msg)) == PayloadType(TypeOf(msg))
    ensures Conforms(Unstamp(msg))
  {
  }
}
