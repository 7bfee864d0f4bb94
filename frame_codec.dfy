/** The rigid pose/transform codec (`frame_to_numpy`, `numpy_to_frame`). */
module FrameCodec {
  import opened Results
  import opened Numpy
  import opened Messages
  import opened Stamping
  import opened VectorCodec
  import opened QuaternionCodec

  predicate FrameDecodable(msg: Message)
  {
    var u := Unstamp(msg);
    || (u.Pose? && VectorDecodable(u.position) && QuaternionDecodable(u.orientation))
    || (u.Transform? && VectorDecodable(u.translation) && QuaternionDecodable(u.rotation))
  }

  /** `Pose` names its parts `position`/`orientation`, `Transform` names them `translation`/`rotation`. */
  function PositionMessage(u: Message): Message
    requires u.Pose? || u.Transform?
  {
    if u.Pose? then u.position else u.translation
  }

  function RotationMessage(u: Message): Message
    requires u.Pose? || u.Transform?
  {
    if u.Pose? then u.orientation else u.rotation
  }

  /** What `frame_to_numpy` returns: the pair, or the 4x4 homogeneous matrix. */
  datatype FrameValue =
    | PositionRotation(position: NpArray, rotation: NpQuaternion)
    | HomogeneousMatrix(matrix: NpArray)

  /**
   * The row-major buffer of the 4x4 matrix `np.eye(4)` becomes once column 3 is
   * set to the homogeneous position and the top-left 3x3 block to the rotation.
   */
  function HomogeneousLayout(position: seq<real>, rotation: Matrix3): seq<real>
    requires |position| == 4
  {
    [rotation[0][0], rotation[0][1], rotation[0][2], position[0],
     rotation[1][0], rotation[1][1], rotation[1][2], position[1],
     rotation[2][0], rotation[2][1], rotation[2][2], position[2],
     0.0,            0.0,            0.0,            position[3]]
  }

  /** The value `frame_to_numpy(msg, homogeneous)` returns. */
  function FrameArrays(num: Numerics, msg: Message, homogeneous: bool): FrameValue
    requires FrameDecodable(msg)
  {
    var u := Unstamp(msg);
    var position := VectorArray(PositionMessage(u), homogeneous);
    var rotation := QuaternionToNumpy(RotationMessage(u));
    if homogeneous then
      HomogeneousMatrix(Matrix(Float64, 4, 4, HomogeneousLayout(position.flat, num.asRotationMatrix(rotation))))
    else
      PositionRotation(position, rotation)
  }

  /** Decoding a stamped message gives what decoding its payload gives. */
  lemma FrameStampAgnostic(num: Numerics, msg: Message, homogeneous: bool)
    requires Conforms(msg) && FrameDecodable(msg)
    ensures FrameDecodable(Unstamp(msg))
    ensures FrameArrays(num, Unstamp(msg), homogeneous) == FrameArrays(num, msg, homogeneous)
  {
    UnstampIdempotent(msg);
  }

  /** Column 3 of the layout is the position, row 3 is zero but for it, the block is the rotation. */
  lemma HomogeneousLayoutParts(position: seq<real>, rotation: Matrix3)
    requires |position| == 4
    ensures var m := Matrix(Float64, 4, 4, HomogeneousLayout(position, rotation));
      && Column(m, 3).flat == position
      && Row(m, 3).flat == [0.0, 0.0, 0.0, position[3]]
      && TopLeft3(m) == rotation
  {
    var m := Matrix(Float64, 4, 4, HomogeneousLayout(position, rotation));
    assert TopLeft3(m)[0] == rotation[0];
    assert TopLeft3(m)[1] == rotation[1];
    assert TopLeft3(m)[2] == rotation[2];
  }

  /**
   * The homogeneous matrix is float64 of shape (4, 4): its last column is
   * (x, y, z, 1), its bottom row (0, 0, 0, 1) and its top-left block the
   * rotation matrix of the orientation.
   */
  lemma HomogeneousFrameLayout(num: Numerics, msg: Message)
    requires FrameDecodable(msg)
    ensures var u := Unstamp(msg);
      var p := Unstamp(PositionMessage(u));
      var rotation := num.asRotationMatrix(QuaternionToNumpy(RotationMessage(u)));
      var m := FrameArrays(num, msg, true).matrix;
      && m.shape == [4, 4] && m.dtype == Float64
      && Column(m, 3).flat == [p.x, p.y, p.z, 1.0]
      && Row(m, 3).flat == [0.0, 0.0, 0.0, 1.0]
      && TopLeft3(m) == rotation
  {
    var u := Unstamp(msg);
    var position := VectorArray(PositionMessage(u), true);
    var rotation := num.asRotationMatrix(QuaternionToNumpy(RotationMessage(u)));
    HomogeneousLayoutParts(position.flat, rotation);
  }

  /**
   * The in-place fill of `frame_to_numpy`: starting from `np.eye(4)`, column
   * 3 takes the homogeneous position, then the top-left block the rotation.
   */
  method HomogeneousFill(position: seq<real>, block: Matrix3) returns (flat: seq<real>)
    requires |position| == 4
    ensures flat == HomogeneousLayout(position, block)
  {
    var asMatrix := new real[4, 4]((i, j) => if i == j then 1.0 else 0.0);
    for i := 0 to 4
      invariant forall row, col | 0 <= row < 4 && 0 <= col < 4 ::
        asMatrix[row, col] == if row < i && col == 3 then position[row]
                              else if row == col then 1.0 else 0.0
    {
      asMatrix[i, 3] := position[i];
    }
    for i := 0 to 3
      invariant forall row, col | 0 <= row < 4 && 0 <= col < 4 ::
        asMatrix[row, col] == if row < i && col < 3 then block[row][col]
                              else if col == 3 then position[row]
                              else if row == col then 1.0 else 0.0
    {
      asMatrix[i, 0] := block[i][0];
      asMatrix[i, 1] := block[i][1];
      asMatrix[i, 2] := block[i][2];
    }
    flat := seq(16, k requires 0 <= k < 16 reads asMatrix => asMatrix[k / 4, k % 4]);
  }

  /**
   * `frame_to_numpy(msg, homogeneous)`: decodes the position and the rotation
   * and, when homogeneous, fills an identity matrix in place: column 3 with
   * the position, then the top-left block with the rotation matrix.
   */
  method FrameToNumpy(num: Numerics, msg: Message, homogeneous: bool) returns (r: FrameValue)
    requires FrameDecodable(msg)
    ensures r == FrameArrays(num, msg, homogeneous)
  {
    var u := Unstamp(msg);
    var isPose := u.Pose?;
    var positionMsg := if isPose then u.position else u.translation;
    var rotationMsg := if isPose then u.orientation else u.rotation;
    var position := VectorToNumpy(positionMsg, homogeneous);
    var rotation := QuaternionToNumpy(rotationMsg);
    if homogeneous {
      var flat := HomogeneousFill(position.flat, num.asRotationMatrix(rotation));
      r := HomogeneousMatrix(Matrix(Float64, 4, 4, flat));
    } else {
      r := PositionRotation(position, rotation);
    }
  }

  /** The types `numpy_to_frame` is registered for. */
  predicate IsFrameType(t: MsgType)
  {
    t == PoseType || t == PoseStampedType || t == TransformType || t == TransformStampedType
  }

  /** A (4, 4) matrix whose bottom row is exactly (0, 0, 0, 1). */
  predicate IsHomogeneousMatrix(m: NpArray)
  {
    m.shape == [4, 4] && Row(m, 3).flat == [0.0, 0.0, 0.0, 1.0]
  }

  /**
   * A single argument to `numpy_to_frame`: cast safety to float64, shape
   * (4, 4), bottom row exactly (0, 0, 0, 1); it yields the translation column
   * and the rotation read back from the top-left block.
   */
  function MatrixArgument(num: Numerics, value: Numeric): (r: Result<(Numeric, Numeric)>)
    ensures value.QuaternionValue? || !num.canCast(value.arr, Float64) ==> r == Failure(TypeError)
    ensures value.ArrayValue? && num.canCast(value.arr, Float64) ==>
      && (value.arr.shape != [4, 4] ==> r == Failure(ValueError(WrongShape)))
      && (value.arr.shape == [4, 4] && !IsHomogeneousMatrix(value.arr) ==> r == Failure(ValueError(NotHomogeneousMatrix)))
    ensures r.Success? <==> value.ArrayValue? && num.canCast(value.arr, Float64) && IsHomogeneousMatrix(value.arr)
    ensures r.Success? ==>
      r.value == (ArrayValue(Column(value.arr, 3)), QuaternionValue(num.fromRotationMatrix(TopLeft3(value.arr))))
  {
    match value
    case QuaternionValue(_) =>
      Failure(TypeError)
    case ArrayValue(matrix) =>
      if !num.canCast(matrix, Float64) then
        Failure(TypeError)
      else if matrix.shape != [4, 4] then
        Failure(ValueError(WrongShape))
      else if Row(matrix, 3).flat != [0.0, 0.0, 0.0, 1.0] then
        Failure(ValueError(NotHomogeneousMatrix))
      else
        Success((ArrayValue(Column(matrix, 3)), QuaternionValue(num.fromRotationMatrix(TopLeft3(matrix)))))
  }

  /** `numpy_to_vector` applied to whatever was passed as the position. */
  function PositionToVector(num: Numerics, t: MsgType, value: Numeric): Result<Message>
    requires IsVectorType(t)
  {
    match value
    case ArrayValue(a) => NumpyToVector(num, t, a)
    case QuaternionValue(_) => Failure(ValueError(WrongShape))  // a numpy scalar has shape ()
  }

  /** The type `numpy_to_vector` should build for the position: only `Pose` holds a `Point`. */
  function PositionType(t: MsgType): MsgType
  {
    if t == PoseType then PointType else Vector3Type
  }

  /** `message_type(**{position_key: ..., rotation_key: ...})`. */
  function MakeFrame(t: MsgType, position: Message, rotation: Message): (r: Result<Message>)
    requires IsFrameType(t)
    ensures r.Success? <==> t == PoseType || t == TransformType
    ensures r.Failure? ==> r == Failure(UnknownFieldError)
    ensures r.Success? ==>
      && TypeOf(r.value) == t && (r.value.Pose? || r.value.Transform?)
      && PositionMessage(r.value) == position && RotationMessage(r.value) == rotation
  {
    match t
    case PoseType => Success(Pose(position, rotation))
    case TransformType => Success(Transform(position, rotation))
    case PoseStampedType => Failure(UnknownFieldError)
    case TransformStampedType => Failure(UnknownFieldError)
  }

  /**
   * `numpy_to_frame(message_type, *args)`: one argument is a homogeneous
   * matrix, two are a (position, rotation) pair, any other count is refused.
   * Only `Pose` uses the `position`/`orientation` keys, so the stamped types
   * it is registered for are given keys they do not have.
   */
  function NumpyToFrame(num: Numerics, t: MsgType, args: seq<Numeric>): (r: Result<Message>)
    requires IsFrameType(t)
    ensures r.Success? ==>
      && (r.value.Pose? <==> t == PoseType) && (r.value.Transform? <==> t == TransformType)
      && TypeOf(r.value) == t
    ensures |args| != 1 && |args| != 2 ==> r == Failure(ValueError(WrongArgumentCount))
    ensures |args| == 1 && (args[0].QuaternionValue? || !num.canCast(args[0].arr, Float64)) ==> r == Failure(TypeError)
    ensures |args| == 1 && args[0].ArrayValue? && num.canCast(args[0].arr, Float64) ==>
      && (args[0].arr.shape != [4, 4] ==> r == Failure(ValueError(WrongShape)))
      && (args[0].arr.shape == [4, 4] && !IsHomogeneousMatrix(args[0].arr) ==> r == Failure(ValueError(NotHomogeneousMatrix)))
    ensures |args| == 1 && args[0].ArrayValue? && num.canCast(args[0].arr, Float64) && IsHomogeneousMatrix(args[0].arr) ==>
      var m := args[0].arr;
      var position := NumpyToVector(num, PositionType(t), Column(m, 3));
      var rotation := NumpyToQuaternion(num, QuaternionType, QuaternionValue(num.fromRotationMatrix(TopLeft3(m))));
      && (position.Failure? ==> r == position)
      && (r.Success? <==> position.Success? && (t == PoseType || t == TransformType))
      && (position.Success? && t != PoseType && t != TransformType ==> r == Failure(UnknownFieldError))
      && (r.Success? ==> PositionMessage(r.value) == position.value && RotationMessage(r.value) == rotation.value)
    ensures |args| == 2 ==>
      var position := PositionToVector(num, PositionType(t), args[0]);
      var rotation := NumpyToQuaternion(num, QuaternionType, args[1]);
      && (position.Failure? ==> r == position)
      && (position.Success? && rotation.Failure? ==> r == rotation)
      && (r.Success? <==> position.Success? && rotation.Success? && (t == PoseType || t == TransformType))
      && (position.Success? && rotation.Success? && t != PoseType && t != TransformType ==>
            r == Failure(UnknownFieldError))
      && (r.Success? ==> PositionMessage(r.value) == position.value && RotationMessage(r.value) == rotation.value)
  {
    var pair :- if |args| == 1 then MatrixArgument(num, args[0])
                else if |args| == 2 then Success((args[0], args[1]))
                else Failure(ValueError(WrongArgumentCount));
    var positionMsg :- PositionToVector(num, PositionType(t), pair.0);
    var rotationMsg :- NumpyToQuaternion(num, QuaternionType, pair.1);
    MakeFrame(t, positionMsg, rotationMsg)
  }

  /**
   * Decoding a frame encoded from a (position, rotation) pair gives back the
   * position's first three entries, as float64, and the rotation's components.
   */
  lemma FramePairDecodeAfterEncode(num: Numerics, t: MsgType, position: Numeric, rotation: Numeric, msg: Message)
    requires IsFrameType(t) && NumpyToFrame(num, t, [position, rotation]) == Success(msg)
    ensures FrameDecodable(msg) && Unstamp(msg) == msg && position.ArrayValue?
    ensures var v := FrameArrays(num, msg, false);
      && v.position == Vector(Float64, position.arr.flat[..3])
      && AsFloatArray(v.rotation)
         == if rotation.QuaternionValue? then AsFloatArray(rotation.quaternion) else rotation.arr.flat
  {
    var positionMsg := PositionToVector(num, PositionType(t), position).value;
    VectorDecodeAfterEncode(num, PositionType(t), position.arr, positionMsg);
  }

  /**
   * Decoding a frame encoded from a single matrix gives back its translation
   * column's first three entries and the rotation read from its top-left
   * block; decoded homogeneously, the translation column and the bottom row
   * come back as they were, as float64.
   */
  lemma FrameMatrixDecodeAfterEncode(num: Numerics, t: MsgType, m: NpArray, msg: Message)
    requires IsFrameType(t) && NumpyToFrame(num, t, [ArrayValue(m)]) == Success(msg)
    ensures FrameDecodable(msg) && Unstamp(msg) == msg && IsHomogeneousMatrix(m)
    ensures var v := FrameArrays(num, msg, false);
      && v.position == Vector(Float64, [At(m, 0, 3), At(m, 1, 3), At(m, 2, 3)])
      && AsFloatArray(v.rotation) == AsFloatArray(num.fromRotationMatrix(TopLeft3(m)))
    ensures var h := FrameArrays(num, msg, true).matrix;
      && Column(h, 3) == Column(m, 3).(dtype := Float64)
      && Row(h, 3) == Row(m, 3).(dtype := Float64)
  {
    var column := Column(m, 3);
    var positionMsg := NumpyToVector(num, PositionType(t), column).value;
    VectorDecodeAfterEncode(num, PositionType(t), column, positionMsg);
    assert column.flat[..3] == [At(m, 0, 3), At(m, 1, 3), At(m, 2, 3)];
    HomogeneousFrameLayout(num, msg);
    var h := FrameArrays(num, msg, true).matrix;
    assert Row(m, 3).flat[3] == At(m, 3, 3) == column.flat[3];
    assert Column(h, 3).flat == column.flat;
  }

  /** Encoding the decoded (position, rotation) pair gives back the unstamped message. */
  lemma FramePairRoundTrip(num: Numerics, msg: Message)
    requires CastsToOwnPrecision(num) && Conforms(msg) && FrameDecodable(msg)
    ensures IsFrameType(TypeOf(Unstamp(msg)))
    ensures var v := FrameArrays(num, msg, false);
      NumpyToFrame(num, TypeOf(Unstamp(msg)), [ArrayValue(v.position), QuaternionValue(v.rotation)])
        == Success(Unstamp(msg))
  {
    var u := Unstamp(msg);
    UnstampType(msg);
    VectorRoundTrip(num, PositionMessage(u), false);
    QuaternionRoundTrip(num, RotationMessage(u));
  }

  /** The single-argument path reads the decoded matrix back as the homogeneous position and the rotation. */
  lemma DecodedMatrixArgument(num: Numerics, msg: Message)
    requires CastsToOwnPrecision(num) && Conforms(msg) && FrameDecodable(msg)
    ensures var u := Unstamp(msg);
      var q := QuaternionToNumpy(RotationMessage(u));
      MatrixArgument(num, ArrayValue(FrameArrays(num, msg, true).matrix))
        == Success((ArrayValue(VectorArray(PositionMessage(u), true)),
                    QuaternionValue(num.fromRotationMatrix(num.asRotationMatrix(q)))))
  {
    var u := Unstamp(msg);
    var m := FrameArrays(num, msg, true).matrix;
    var position := VectorArray(PositionMessage(u), true);
    var rotation := num.asRotationMatrix(QuaternionToNumpy(RotationMessage(u)));
    UnstampType(msg);
    HomogeneousLayoutParts(position.flat, rotation);
    assert m == Matrix(Float64, 4, 4, HomogeneousLayout(position.flat, rotation));
    assert num.canCast(m, Float64);
    assert IsHomogeneousMatrix(m);
    assert Column(m, 3) == position;
  }

  /** Once the single argument is read back, the halves are encoded and the frame is built. */
  lemma MatrixPathEncodes(num: Numerics, t: MsgType, m: NpArray, position: NpArray, rotation: NpQuaternion)
    requires t == PoseType || t == TransformType
    requires MatrixArgument(num, ArrayValue(m)) == Success((ArrayValue(position), QuaternionValue(rotation)))
    requires NumpyToVector(num, PositionType(t), position).Success?
    ensures NumpyToFrame(num, t, [ArrayValue(m)])
      == MakeFrame(t, NumpyToVector(num, PositionType(t), position).value,
                   NumpyToQuaternion(num, QuaternionType, QuaternionValue(rotation)).value)
  {
  }

  /**
   * Encoding the decoded homogeneous matrix gives back the position exactly,
   * and the orientation as far as the package's rotation-matrix conversions
   * round-trip it.
   */
  lemma FrameMatrixRoundTrip(num: Numerics, msg: Message)
    requires CastsToOwnPrecision(num) && Conforms(msg) && FrameDecodable(msg)
    ensures IsFrameType(TypeOf(Unstamp(msg)))
    ensures var u := Unstamp(msg);
      var q := QuaternionToNumpy(RotationMessage(u));
      var q' := num.fromRotationMatrix(num.asRotationMatrix(q));
      var r := NumpyToFrame(num, TypeOf(u), [ArrayValue(FrameArrays(num, msg, true).matrix)]);
      && r.Success?
      && PositionMessage(r.value) == PositionMessage(u)
      && RotationMessage(r.value) == NumpyToQuaternion(num, QuaternionType, QuaternionValue(q')).value
      && (q' == q ==> r == Success(u))
  {
    var u := Unstamp(msg);
    UnstampType(msg);
    var t := TypeOf(u);
    var p := PositionMessage(u);
    var q := QuaternionToNumpy(RotationMessage(u));
    var q' := num.fromRotationMatrix(num.asRotationMatrix(q));
    DecodedMatrixArgument(num, msg);
    assert TypeOf(p) == if t == PoseType then PointType else Vector3Type;
    VectorRoundTrip(num, p, true);
    MatrixPathEncodes(num, t, FrameArrays(num, msg, true).matrix, VectorArray(p, true), q');
    QuaternionRoundTrip(num, RotationMessage(u));
  }

  /** `np.eye(4)` as a float64 array. */
  function Identity4(): NpArray
  {
    Matrix(Float64, 4, 4, [1.0, 0.0, 0.0, 0.0,
                           0.0, 1.0, 0.0, 0.0,
                           0.0, 0.0, 1.0, 0.0,
                           0.0, 0.0, 0.0, 1.0])
  }

  /**
   * The identity transform encodes to position (0, 0, 0) and the rotation the
   * package reads off the identity block; a bottom row (0, 0, 0, 2) is refused.
   */
  lemma IdentityAndNonHomogeneousMatrices(num: Numerics)
    requires CastsToOwnPrecision(num)
    ensures var r := NumpyToFrame(num, PoseType, [ArrayValue(Identity4())]);
      && r.Success? && r.value.position == Point(0.0, 0.0, 0.0)
      && AsFloatArray(num.fromRotationMatrix(TopLeft3(Identity4())))
         == [r.value.orientation.x, r.value.orientation.y, r.value.orientation.z, r.value.orientation.w]
    ensures NumpyToFrame(num, PoseType, [ArrayValue(Identity4().(flat := Identity4().flat[15 := 2.0]))])
      == Failure(ValueError(NotHomogeneousMatrix))
  {
    var i4 := Identity4();
    assert num.canCast(i4, Float64);
    assert Row(i4, 3).flat == [0.0, 0.0, 0.0, 1.0];
    assert Column(i4, 3).flat == [0.0, 0.0, 0.0, 1.0];
    assert num.canCast(Column(i4, 3), Float64);
    var bad: NpArray := i4.(flat := i4.flat[15 := 2.0]);
    assert num.canCast(bad, Float64);
    assert Row(bad, 3).flat[3] == 2.0;
  }

  // ---- the matrix path of numpy_to_frame as written ----

  /**
   * Lines 340-351 as written.  `_assert_is_castable(matrix, Pose)` compares
   * against the object dtype numpy makes of a class, to which everything
   * casts, so line 342 never raises; an `np.quaternion` is a 0-d scalar and
   * fails the shape check; and after it `not matrix[3, :] == np.array([0., 0.,
   * 0., 1.])` takes the truth value of a four-element boolean array, which
   * numpy refuses with a ValueError whatever the matrix.
   */
  function MatrixArgumentAsWritten(value: Numeric): (r: Result<(Numeric, Numeric)>)
    ensures r.Failure?
    ensures value.ArrayValue? && value.arr.shape == [4, 4] <==> r == Failure(ValueError(AmbiguousTruthValue))
    ensures value.QuaternionValue? || value.arr.shape != [4, 4] <==> r == Failure(ValueError(WrongShape))
  {
    match value
    case QuaternionValue(_) =>
      Failure(ValueError(WrongShape))
    case ArrayValue(matrix) =>
      if matrix.shape != [4, 4] then
        Failure(ValueError(WrongShape))
      else
        Failure(ValueError(AmbiguousTruthValue))
  }

  /** As written, even the identity transform is refused; the corrected check accepts it. */
  lemma AsWrittenRejectsIdentity(num: Numerics)
    requires CastsToOwnPrecision(num)
    ensures MatrixArgumentAsWritten(ArrayValue(Identity4())) == Failure(ValueError(AmbiguousTruthValue))
    ensures MatrixArgument(num, ArrayValue(Identity4())).Success?
  {
    var i4 := Identity4();
    assert num.canCast(i4, Float64);
    assert Row(i4, 3).flat == [0.0, 0.0, 0.0, 1.0];
  }

  /** Line 353 as written: the position is read from the bottom row `matrix[3, :]`. */
  function MatrixPositionAsWritten(matrix: NpArray): NpArray
    requires matrix.shape == [4, 4]
  {
    Row(matrix, 3)
  }

  /** A pure translation by (1, 2, 3). */
  function Translation123(): NpArray
  {
    Matrix(Float64, 4, 4, [1.0, 0.0, 0.0, 1.0,
                           0.0, 1.0, 0.0, 2.0,
                           0.0, 0.0, 1.0, 3.0,
                           0.0, 0.0, 0.0, 1.0])
  }

  /**
   * For every accepted matrix the bottom-row position encodes to the origin,
   * whatever the translation; the translation column gives the translation.
   */
  lemma AsWrittenPositionIgnoresTranslation(num: Numerics, matrix: NpArray)
    requires CastsToOwnPrecision(num)
    requires MatrixArgument(num, ArrayValue(matrix)).Success?
    ensures NumpyToVector(num, PointType, MatrixPositionAsWritten(matrix)) == Success(Point(0.0, 0.0, 0.0))
    ensures PositionToVector(num, PointType, MatrixArgument(num, ArrayValue(matrix)).value.0)
      == Success(Point(At(matrix, 0, 3), At(matrix, 1, 3), At(matrix, 2, 3)))
  {
    assert num.canCast(Row(matrix, 3), Float64);
    assert num.canCast(Column(matrix, 3), Float64);
    assert Column(matrix, 3).flat[3] == At(matrix, 3, 3) == Row(matrix, 3).flat[3];
  }

  /** The translation (1, 2, 3) is lost as written and kept by the corrected encoder. */
  lemma AsWrittenLosesTranslation123(num: Numerics)
    requires CastsToOwnPrecision(num)
    ensures NumpyToVector(num, PointType, MatrixPositionAsWritten(Translation123())) == Success(Point(0.0, 0.0, 0.0))
    ensures NumpyToFrame(num, PoseType, [ArrayValue(Translation123())]).value.position == Point(1.0, 2.0, 3.0)
  {
    var m := Translation123();
    assert num.canCast(m, Float64);
    assert Row(m, 3).flat == [0.0, 0.0, 0.0, 1.0];
    AsWrittenPositionIgnoresTranslation(num, m);
  }
}
