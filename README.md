# numpy_ros geometry_msgs converters, modelled in Dafny

This project models the converters in `numpy_ros/geometry_msgs.py` of numpy-ros. They translate ROS
`geometry_msgs` messages into numpy arrays and back:

- 3d vectors and points;
- paired linear/angular quantities (twist, accel, wrench), with and without a 6x6 covariance;
- inertia;
- polygons;
- quaternions;
- poses and transforms, as a (position, rotation) pair or as a 4x4 homogeneous matrix.

Every decoder first strips the header from a "stamped" message with `_unstamp`.

Layout, one module per file:

- `results.dfy` (`Results`): the `Option` and `Result` wrappers, and `Collect`, which turns a sequence of results into the result of a loop that stops at the first exception. It also holds the Python exceptions the encoders raise: `TypeError` from the cast check, `ValueError` subdivided by cause, `ZeroDivisionError`, and the keyword error of a message constructor.
- `numpy.dfy` (`Numpy`): the numpy values the converters use. An array is a dtype, a shape and a C-ordered buffer. The module also has `isclose` with numpy's default tolerances and a `np.quaternion` value. The foreign numerics are a `Numerics` record of function values: `np.can_cast(np.min_scalar_type(a), t)` and the two rotation-matrix conversions of the `quaternion` package.
- `messages.dfy` (`Messages`): the 25 message types as one datatype with the ROS field names, `getattr` on message fields, and the schema (`Conforms`) of which field holds which type.
- `stamping.dfy` (`Stamping`): `_stamped_type_to_attr` and `_unstamp`. `UnstampByTable` is `_unstamp` as written, a table lookup followed by `getattr`; `Unstamp` is the direct projection onto the payload, which the other modules use, and the two are proved equal.
- `vector_codec.dfy`, `kinematics_codec.dfy`, `inertia_codec.dfy`, `polygon_codec.dfy`, `quaternion_codec.dfy`, `frame_codec.dfy`: one module per converter pair.
- `registry.dfy` (`Registry`): the `converts_to_numpy` / `converts_to_message` registrations as a static table.

Each decoder is a function of the message. `vector_to_numpy` and `frame_to_numpy` are also methods that build their result step by step: a list extended in place, and `np.eye(4)` filled in place through a 4x4 array. They are proved equal to those functions. `numpy_to_polygon` is a method whose loop over the columns is proved equal to `Results.Collect`, the values of the columns' encodings in order or the first exception.

Every encoder returns a `Result`. Each error the source raises is a `Failure` in the same order of checks as the source. Each encoder's contract names its error cases and when it succeeds; a failure passed on from a nested converter is stated as that converter's result. The partner of each encoder is its decoder:

- the round-trip lemmas prove that the encoder gives back the message the decoder read;
- the decode-after-encode lemmas prove that the decoder gives back the array the encoder accepted, as far as the message keeps it (the first three entries of a vector, in the precision of the message type; the entries of an inertia tensor the message stores).

The round trips assume `CastsToOwnPrecision`: an array always casts to its own dtype, and float32 widens to float64.

## Model

| member | source | states |
|---|---|---|
| Stamping.Unstamp | numpy_ros/geometry_msgs.py:46-53 | the payload of each of the twelve stamped types, any other message unchanged; specified by `UnstampProjectsPayload` (it is `_unstamp`), `UnstampIdempotent` and `UnstampType` |
| Stamping.UnstampByTable | numpy_ros/geometry_msgs.py:46-53 | `_unstamp` line by line: the class looked up in the table, the attribute read when the name is truthy; `UnstampProjectsPayload` proves it equal to `Unstamp` |
| Stamping.StampedTableIsExact | numpy_ros/geometry_msgs.py:30-43 | the table has an attribute name exactly for the twelve stamped types |
| Stamping.PayloadFieldExists | numpy_ros/geometry_msgs.py:48-51 | for a type in the table, `getattr` with the listed name finds a field |
| Stamping.UnstampProjectsPayload | numpy_ros/geometry_msgs.py:46-53 | `_unstamp` as written (`UnstampByTable`: table lookup, then `getattr`) returns the field the table names for a stamped message, is the payload projection `Unstamp` on every message, and leaves any other message unchanged |
| Stamping.UnstampIdempotent | numpy_ros/geometry_msgs.py:46-53 | on a well-formed message the result is never stamped and unstamping twice equals unstamping once |
| Stamping.UnstampType | numpy_ros/geometry_msgs.py:30-53 | the result's type is the payload type of the input's type and the result is well-formed |
| VectorCodec.VectorArray | numpy_ros/geometry_msgs.py:66-80 | the array `vector_to_numpy` returns; `VectorToNumpy` (the in-place append) is proved equal to it and states its shape, entries and dtype |
| VectorCodec.VectorToNumpy | numpy_ros/geometry_msgs.py:66-80 | shape (3,) or, when homogeneous, (4,) with last entry 1.0; entries x, y, z; float32 exactly for a Point32 |
| VectorCodec.VectorStampAgnostic | numpy_ros/geometry_msgs.py:67-72 | decoding a stamped vector equals decoding its payload |
| VectorCodec.NumpyToVector | numpy_ros/geometry_msgs.py:83-100 | shape error iff the shape is not (3,)/(4,); cast error iff the shape is right but the array does not cast to the target dtype; homogeneity error iff it casts, has 4 entries and the last is not close to 1; otherwise a message of the requested type built from the first three entries |
| VectorCodec.VectorRoundTrip | numpy_ros/geometry_msgs.py:67-100 | encoding a decoded Vector3, Point or Point32 (plain or homogeneous) gives back the unstamped message |
| VectorCodec.VectorDecodeAfterEncode | numpy_ros/geometry_msgs.py:67-100 | a message the encoder built decodes to the first three entries of the accepted array, in the target dtype; a 4-array's last entry was close to 1 |
| VectorCodec.HomogeneousTolerance | numpy_ros/geometry_msgs.py:87-99 | last component 1.0000001 is accepted, 0.5 is refused as not homogeneous, a 2-array is refused for its shape |
| KinematicsCodec.KinematicsToNumpy | numpy_ros/geometry_msgs.py:104-124 | the (linear, angular) pair; `KinematicsFieldNames` states which fields it reads |
| KinematicsCodec.KinematicsFieldNames | numpy_ros/geometry_msgs.py:112-124 | a Wrench is read from force/torque, Twist and Accel from linear/angular, each half as a vector |
| KinematicsCodec.KinematicsStampAgnostic | numpy_ros/geometry_msgs.py:112-114 | decoding a stamped twist, accel or wrench equals decoding its payload |
| KinematicsCodec.NumpyToKinematics | numpy_ros/geometry_msgs.py:127-140 | succeeds iff both halves encode as Vector3; a failure of the linear half is reported first, then one of the angular half; the message has the halves under the keys of its type |
| KinematicsCodec.KinematicsRoundTrip | numpy_ros/geometry_msgs.py:112-140 | encoding the decoded pair gives back the unstamped message |
| KinematicsCodec.KinematicsDecodeAfterEncode | numpy_ros/geometry_msgs.py:112-140 | an encoded pair decodes to the first three entries of each half, as float64 |
| KinematicsCodec.CovarianceMatrix | numpy_ros/geometry_msgs.py:161 | the covariance tuple as a float64 6x6 array; `CovarianceLayout` states its row-major layout |
| KinematicsCodec.KinematicsWithCovarianceToNumpy | numpy_ros/geometry_msgs.py:143-163 | the (linear, angular, covariance) triple; `KinematicsWithCovarianceRoundTrip` and `KinematicsWithCovarianceDecodeAfterEncode` relate it to the encoder |
| KinematicsCodec.CovarianceLayout | numpy_ros/geometry_msgs.py:161 | the reshaped covariance is 6x6 and element [i][j] is flat element 6i+j |
| KinematicsCodec.KinematicsWithCovarianceStampAgnostic | numpy_ros/geometry_msgs.py:149-159 | decoding a stamped covariance message equals decoding its payload |
| KinematicsCodec.NumpyToCovariance | numpy_ros/geometry_msgs.py:195-205 | cast error iff the array does not cast to float64; shape error iff it casts and is not (6, 6); success iff it casts and is (6, 6), with 36 entries, entry 6i+j equal to element [i, j] |
| KinematicsCodec.CovarianceRoundTrip | numpy_ros/geometry_msgs.py:195-205 | flattening the reshaped 36-tuple gives the tuple back |
| KinematicsCodec.CovarianceReshapeAfterFlatten | numpy_ros/geometry_msgs.py:195-205 | reshaping an accepted matrix's flattening gives the matrix back, as float64 |
| KinematicsCodec.NumpyToKinematicsWithCovariance | numpy_ros/geometry_msgs.py:166-192 | the kinematics part is encoded as Accel or Twist by the target type and its failure comes first; then the covariance's failure; success iff both encode, and the message holds both under the keys of its type |
| KinematicsCodec.KinematicsWithCovarianceRoundTrip | numpy_ros/geometry_msgs.py:149-192 | encoding the decoded triple gives back the unstamped message |
| KinematicsCodec.KinematicsWithCovarianceDecodeAfterEncode | numpy_ros/geometry_msgs.py:143-205 | an encoded triple decodes to the first three entries of each half and the accepted covariance matrix, all as float64 |
| InertiaCodec.InertiaTensor | numpy_ros/geometry_msgs.py:215-219 | the tensor built from the six moments; `InertiaTensorLayout` states its shape, entries and symmetry |
| InertiaCodec.InertiaToNumpy | numpy_ros/geometry_msgs.py:208-221 | the (mass, centre, tensor) triple; `InertiaTensorLayout` and `InertiaRoundTrip` specify it |
| InertiaCodec.InertiaTensorLayout | numpy_ros/geometry_msgs.py:208-221 | the mass is m, the tensor is 3x3 float64 and symmetric, with diagonal ixx, iyy, izz and off-diagonal ixy, ixz, iyz |
| InertiaCodec.InertiaStampAgnostic | numpy_ros/geometry_msgs.py:209-211 | decoding a stamped inertia equals decoding its payload |
| InertiaCodec.NumpyToInertia | numpy_ros/geometry_msgs.py:224-247 | cast errors for the mass then the tensor; then the centre's failure; then the shape error for a tensor other than 3x3; succeeds iff all four checks pass; the message takes ixx, ixy, ixz, iyy from the upper triangle, iyz from element [2, 1], izz from [2, 2] |
| InertiaCodec.InertiaRoundTrip | numpy_ros/geometry_msgs.py:208-247 | encoding the decoded triple gives back the unstamped message |
| InertiaCodec.InertiaDecodeAfterEncode | numpy_ros/geometry_msgs.py:208-247 | the decoded mass is the input mass and the centre the centre array's first three entries as float64; the decoded tensor has element [1][2] equal to the input's [2, 1]; a symmetric input tensor comes back equal, as float64 |
| PolygonCodec.PolygonToNumpy | numpy_ros/geometry_msgs.py:250-260 | the transposed float32 stack of the points' vectors; `PolygonColumns` and `PolygonEntry` state its shape and entries |
| PolygonCodec.PolygonColumns | numpy_ros/geometry_msgs.py:250-260 | the decoded array is float32 of shape (3 or 4, N) and column k is point k's vector |
| PolygonCodec.PolygonStampAgnostic | numpy_ros/geometry_msgs.py:251-253 | decoding a stamped polygon equals decoding its payload |
| PolygonCodec.PolygonFromArray | numpy_ros/geometry_msgs.py:263-280 | TypeError for an array that does not cast to float32; then the shape error; then ZeroDivisionError for zero columns; otherwise success iff every column encodes as a Point32, and a failure is the exception of the first failing column |
| Results.CollectSnoc | numpy_ros/geometry_msgs.py:276-278 | one more loop step: an earlier exception stays; otherwise the new column's exception, or its value appended |
| Results.CollectFailurePersists | numpy_ros/geometry_msgs.py:276-278 | once a prefix of the columns fails to encode, the loop's result is that exception |
| Results.CollectAll | numpy_ros/geometry_msgs.py:276-278 | the loop succeeds iff every column encodes, and then point k is column k's encoding |
| Results.CollectFirstFailure | numpy_ros/geometry_msgs.py:276-278 | a failed loop reports the exception of the first failing column, every earlier column having encoded |
| PolygonCodec.EncodeEachColumn | numpy_ros/geometry_msgs.py:274-278 | the loop that appends one Point32 per column returns the values of all columns in order, or the first column's exception |
| PolygonCodec.PolygonFromArrayColumns | numpy_ros/geometry_msgs.py:263-280 | a successful encode had a 2-d input with 3 or 4 rows and N > 0 columns, and gives N points in column order |
| PolygonCodec.NumpyToPolygon | numpy_ros/geometry_msgs.py:263-280 | the loop over the columns computes the column-wise encoding, errors included |
| PolygonCodec.PolygonRoundTrip | numpy_ros/geometry_msgs.py:250-280 | encoding a decoded non-empty polygon gives back the unstamped message |
| PolygonCodec.PolygonEntry | numpy_ros/geometry_msgs.py:250-260 | a polygon of Point32 records decodes to shape (3 or 4, N), with entry [i, k] component i of point k and 1.0 in a fourth row |
| PolygonCodec.PolygonDecodeAfterEncode | numpy_ros/geometry_msgs.py:250-280 | decoding an encoded polygon (homogeneous iff the input had 4 rows) gives back the input's first three rows, and a fourth row of 1.0 |
| QuaternionCodec.QuaternionToNumpy | numpy_ros/geometry_msgs.py:283-287 | `np.quaternion(x, y, z, w)`; `QuaternionComponentOrder` states the slot order |
| QuaternionCodec.QuaternionComponentOrder | numpy_ros/geometry_msgs.py:283-287 | the message's x, y, z, w fill the quaternion's slots in that order |
| QuaternionCodec.QuaternionStampAgnostic | numpy_ros/geometry_msgs.py:284-286 | decoding a stamped quaternion equals decoding its payload |
| QuaternionCodec.NumpyToQuaternion | numpy_ros/geometry_msgs.py:290-303 | a quaternion value always encodes, positionally from `as_float_array`; an array fails on the float64 cast, then on a shape other than (4,), and succeeds iff it casts and has shape (4,); the message's components are the four entries in order |
| QuaternionCodec.QuaternionRoundTrip | numpy_ros/geometry_msgs.py:283-303 | the decoded quaternion, and the float64 array of its components, both encode back to the unstamped message |
| QuaternionCodec.QuaternionValueDecodeAfterEncode | numpy_ros/geometry_msgs.py:283-293 | an encoded `np.quaternion` decodes to the same quaternion |
| QuaternionCodec.QuaternionDecodeAfterEncode | numpy_ros/geometry_msgs.py:283-303 | an accepted array had shape (4,) and the encoded message decodes to its entries |
| FrameCodec.FrameArrays | numpy_ros/geometry_msgs.py:306-327 | the (position, rotation) pair or the homogeneous matrix; `FrameToNumpy` (the in-place fill) is proved equal to it, and `HomogeneousFrameLayout` states the matrix's layout |
| FrameCodec.HomogeneousLayoutParts | numpy_ros/geometry_msgs.py:320-323 | in the filled matrix, column 3 is the position, row 3 is (0, 0, 0, position[3]) and the top-left block is the rotation |
| FrameCodec.HomogeneousFrameLayout | numpy_ros/geometry_msgs.py:306-325 | the homogeneous matrix is float64 (4, 4), with last column (x, y, z, 1), bottom row (0, 0, 0, 1) and the rotation matrix of the orientation top left |
| FrameCodec.FrameStampAgnostic | numpy_ros/geometry_msgs.py:307-309 | decoding a stamped pose or transform equals decoding its payload |
| FrameCodec.HomogeneousFill | numpy_ros/geometry_msgs.py:320-323 | the in-place fill of `np.eye(4)` gives the homogeneous layout |
| FrameCodec.FrameToNumpy | numpy_ros/geometry_msgs.py:306-327 | the method computes the (position, rotation) pair, or the homogeneous matrix, of the frame decoder |
| FrameCodec.MatrixArgument | numpy_ros/geometry_msgs.py:338-354 | TypeError for a quaternion or an array that does not cast to float64; then the shape error for other than (4, 4); then the homogeneity error for a bottom row other than (0, 0, 0, 1); otherwise the translation column and the rotation read from the top-left block (line 353 corrected) |
| FrameCodec.PositionToVector | numpy_ros/geometry_msgs.py:366-367 | `numpy_to_vector` of the position argument; `NumpyToFrame`'s contract states its use |
| FrameCodec.MakeFrame | numpy_ros/geometry_msgs.py:331-371 | succeeds exactly for Pose and Transform, with the given position and rotation under the type's keys; PoseStamped and TransformStamped fail with the keyword error `UnknownFieldError` |
| FrameCodec.NumpyToFrame | numpy_ros/geometry_msgs.py:330-371 | an argument count other than 1 or 2 is refused; a single quaternion or uncastable array is a TypeError, a castable single array of the wrong shape or with a bottom row other than (0, 0, 0, 1) a ValueError; a single homogeneous matrix builds the frame from `numpy_to_vector` of its translation column and the rotation read from its top-left block, a pair from `numpy_to_vector` of the position and `numpy_to_quaternion` of the rotation, the position's failure first; once both halves encode, PoseStamped and TransformStamped fail with `UnknownFieldError`; a result is only ever a bare Pose or Transform of the requested type |
| FrameCodec.DecodedMatrixArgument | numpy_ros/geometry_msgs.py:306-354 | the matrix argument checks accept a decoded homogeneous matrix and split it into the homogeneous position vector and the quaternion read back from its rotation block |
| FrameCodec.MatrixPathEncodes | numpy_ros/geometry_msgs.py:330-371 | once a single matrix passes the checks and its position encodes, the frame is built from the encoded position and rotation |
| FrameCodec.FramePairDecodeAfterEncode | numpy_ros/geometry_msgs.py:306-371 | a frame encoded from a pair decodes to the position's first three entries, as float64, and the rotation's components |
| FrameCodec.FrameMatrixDecodeAfterEncode | numpy_ros/geometry_msgs.py:306-371 | a frame encoded from a single matrix decodes to the translation column's first three entries and the rotation read from its block; decoded homogeneously it has the input's translation column and bottom row |
| FrameCodec.FramePairRoundTrip | numpy_ros/geometry_msgs.py:306-371 | encoding the decoded (position, rotation) pair gives back the unstamped pose or transform |
| FrameCodec.FrameMatrixRoundTrip | numpy_ros/geometry_msgs.py:306-371 | encoding the decoded homogeneous matrix succeeds, restores the position exactly and the orientation read back from the rotation matrix; it is the unstamped message whenever the matrix conversions round-trip the quaternion |
| FrameCodec.IdentityAndNonHomogeneousMatrices | numpy_ros/geometry_msgs.py:338-354 | `np.eye(4)` encodes to position (0, 0, 0) and the rotation read from the identity block; a bottom row (0, 0, 0, 2) is refused as not homogeneous |
| FrameCodec.MatrixArgumentAsWritten | numpy_ros/geometry_msgs.py:338-351 | lines 338-351 as written: the cast check against `Pose` never fails, an `np.quaternion` (shape ()) and any array not (4, 4) fail the shape check, and every (4, 4) array is refused with the ambiguous-truth ValueError; shown by `AsWrittenRejectsIdentity` |
| FrameCodec.AsWrittenRejectsIdentity | numpy_ros/geometry_msgs.py:350-351 | as written, the identity matrix fails with the ambiguous-truth-value error; the corrected check accepts it |
| FrameCodec.MatrixPositionAsWritten | numpy_ros/geometry_msgs.py:353 | the bottom row `matrix[3, :]` taken as the position; shown by `AsWrittenPositionIgnoresTranslation` |
| FrameCodec.AsWrittenPositionIgnoresTranslation | numpy_ros/geometry_msgs.py:353 | as written, every accepted matrix's position encodes to the origin; the translation column encodes to the translation |
| FrameCodec.AsWrittenLosesTranslation123 | numpy_ros/geometry_msgs.py:353-354 | the translation (1, 2, 3) becomes the origin as written and (1, 2, 3) once corrected |
| Registry.DecoderFor | numpy_ros/geometry_msgs.py:66-307 | the `converts_to_numpy` lists: one decoder for each of the 25 types; specified by `DecoderIgnoresStamp` and `RegisteredDecoderAccepts` |
| Registry.EncoderFor | numpy_ros/geometry_msgs.py:83-331 | the `converts_to_message` lists; specified by `EncoderDomains`, `EncoderMatchesDecoder` and `FrameEncoderBuilds` |
| Registry.DecoderIgnoresStamp | numpy_ros/geometry_msgs.py:66-307 | a stamped type is registered with the same decoder as its payload type |
| Registry.RegisteredDecoderAccepts | numpy_ros/geometry_msgs.py:66-307 | every well-formed message meets the requirements of the decoder registered for its type |
| Registry.EncoderDomains | numpy_ros/geometry_msgs.py:83-331 | each encoder's `converts_to_message` list is exactly the set of target types its precondition admits |
| Registry.FrameEncoderBuilds | numpy_ros/geometry_msgs.py:330-371 | of the four types the frame encoder is registered for, it builds Pose and Transform (from `np.eye(4)`) and fails on every input for PoseStamped and TransformStamped |
| Registry.EncoderMatchesDecoder | numpy_ros/geometry_msgs.py:66-331 | a type with an encoder has the decoder of the same pair; only the frame encoder is registered for stamped types |

## Left out

- The ROS message classes, the import of `geometry_msgs` and the `ImportError` it may raise are left out. Messages are values of one datatype, and headers are a stamp and a frame id that no converter reads.
- The conversion registry itself is left out. That covers its dispatch by runtime type, duplicate detection and the generic `to_numpy`: `numpy_ros/conversions.py` is not part of this model. Only the decorator argument lists are kept, as `Registry.DecoderFor` and `Registry.EncoderFor`.
- Floating point is left out. Array elements are exact reals, so float32 rounding of Point32 components and of polygon arrays is not modelled. `float(...)` and the conversion of an element back to a message field are the identity.
- The cast check `np.can_cast(np.min_scalar_type(a), t)` is left abstract, as `Numerics.canCast`. How numpy computes minimum scalar types is out of scope. Only the two facts the round trips need are assumed (`CastsToOwnPrecision`). A concrete case, such as a float64 array `[1, 2, 3]` cast to float32, is therefore neither proved nor refuted.
- `quaternion.as_rotation_matrix` and `quaternion.from_rotation_matrix` are left as uninterpreted functions (`Numerics`). So `FrameCodec.FrameMatrixRoundTrip` is exact only under the hypothesis that they round-trip.
- `np.quaternion(x, y, z, w)` at line 287 stores the message's x in the library's w slot. The model keeps this, and `as_float_array` returns the slots in the same order. The rotation matrix computed from that value is whatever the abstract conversion returns.
- The error messages are left out, including the wrong "(6,6)" in the inertia shape error at line 234. Errors are distinguished by kind and cause only.
- Lines 136-137 and 367-368 call `numpy_to_vector` and `numpy_to_quaternion` without the message type they require. As written, each call raises a `TypeError` for a missing argument. The model encodes what they evidently mean:
  - the kinematics halves as Vector3;
  - the frame position as Point for a Pose and as Vector3 otherwise;
  - the rotation as Quaternion.
- Line 342 checks the cast against the class `Pose`, which numpy reads as the object dtype, so as written it never raises; `FrameCodec.MatrixArgumentAsWritten` has no cast check for this reason. The corrected `FrameCodec.MatrixArgument` checks against float64, the target the other encoders use, so it refuses with a TypeError what the code as written passes on to the shape and bottom-row checks.
- Lines 350 and 353 are recorded under Findings. There the model has both the code as written and the corrected behaviour.
- `numpy_to_frame` is registered for PoseStamped and TransformStamped. For those types it passes `translation`/`rotation` keywords (line 333) the class does not have. The model has them fail with the constructor's keyword error, `UnknownFieldError`.
- `np.hsplit(points, 0)` raises `ZeroDivisionError`. So encoding a polygon with no columns fails in the model too. `PolygonCodec.PolygonRoundTrip` is stated for non-empty polygons for this reason.
- `polygon_to_numpy` of an empty polygon transposes an empty array of shape (0,). The model returns the float32 array of shape (0,).
- In `numpy_to_polygon`, `point.squeeze()` is modelled as taking column k as a 1-d array of the same dtype.
- NumpyToInertia: the mass is a single real, so `float(mass)` at line 239 cannot fail; the TypeError it raises for an array mass of more than one element is not modelled.
- EncoderDomains: states that the registration lists match the encoders' domains, not that every listed type can be built; the frame encoder is registered for PoseStamped and TransformStamped but never builds them, as `Registry.FrameEncoderBuilds` shows.
- The `homogeneous=False` defaults of the decoders are not modelled: `homogeneous` is a plain boolean parameter.

## Findings

| source | as written | input that shows it | evidently intended | confidence | as-written member | corrected member |
|---|---|---|---|---|---|---|
| numpy_ros/geometry_msgs.py:350 | `not matrix[3, :] == np.array([0., 0., 0., 1.])` takes the truth value of a 4-element boolean array, which numpy refuses with a ValueError | `np.eye(4)` passed as the single argument | refuse the matrix only when its bottom row differs from (0, 0, 0, 1) | not executed | FrameCodec.MatrixArgumentAsWritten (shown by FrameCodec.AsWrittenRejectsIdentity) | FrameCodec.MatrixArgument (proved by FrameCodec.FrameMatrixRoundTrip) |
| numpy_ros/geometry_msgs.py:353 | the position is `matrix[3, :]`, the bottom row, which is (0, 0, 0, 1) for every accepted matrix | a pure translation by (1, 2, 3) encodes to position (0, 0, 0); latent as written, since line 350 refuses every matrix first (and line 367 omits the message type) | the position is the translation column `matrix[:, 3]` | not executed | FrameCodec.MatrixPositionAsWritten (shown by FrameCodec.AsWrittenPositionIgnoresTranslation) | FrameCodec.NumpyToFrame (proved by FrameCodec.FrameMatrixRoundTrip) |
