/**
 * The part of numpy (and of the `quaternion` package) that the geometry_msgs
 * converters rely on.  An array is a dtype, a shape and a C-ordered (row-major)
 * buffer of its elements; element values are exact reals, so float32 rounding
 * is not modelled.  Cast safety and the rotation-matrix conversions are foreign
 * code: they reach the model as the function values of a `Numerics` record.
 */
module Numpy {

  datatype DType = Float32 | Float64

  /** Number of elements of an array of the given shape (1 for a 0-d array). */
  function Product(shape: seq<nat>): (n: nat)
    ensures |shape| == 1 ==> n == shape[0]
    ensures |shape| == 2 ==> n == shape[0] * shape[1]
  {
    if shape == [] then 1 else shape[0] * Product(shape[1..])
  }

  datatype RawArray = RawArray(dtype: DType, shape: seq<nat>, flat: seq<real>)

  /** A numpy array: its buffer holds exactly one element per index of its shape. */
  type NpArray = a: RawArray | |a.flat| == Product(a.shape)
    witness RawArray(Float64, [], [0.0])

  /** A Python float handed to numpy: a 0-d float64 array. */
  function Scalar(v: real): NpArray
  {
    RawArray(Float64, [], [v])
  }

  /** `np.array(entries, dtype=dtype)`: a 1-d array. */
  function Vector(dtype: DType, entries: seq<real>): NpArray
  {
    RawArray(dtype, [|entries|], entries)
  }

  /** A `rows` x `cols` array whose C-ordered buffer is `flat`. */
  function Matrix(dtype: DType, rows: nat, cols: nat, flat: seq<real>): NpArray
    requires |flat| == rows * cols
  {
    RawArray(dtype, [rows, cols], flat)
  }

  lemma RowMajorBound(i: nat, j: nat, rows: nat, cols: nat)
    requires i < rows && j < cols
    ensures i * cols + j < rows * cols
  {
    assert i * cols + j < (i + 1) * cols;
    assert (i + 1) * cols <= rows * cols;
  }

  /** `a[i, j]` of a 2-d array. */
  function At(a: NpArray, i: nat, j: nat): real
    requires |a.shape| == 2 && i < a.shape[0] && j < a.shape[1]
  {
    RowMajorBound(i, j, a.shape[0], a.shape[1]);
    a.flat[i * a.shape[1] + j]
  }

  /** `a[:, k]` of a 2-d array, a 1-d array of the same dtype. */
  function Column(a: NpArray, k: nat): NpArray
    requires |a.shape| == 2 && k < a.shape[1]
  {
    Vector(a.dtype, seq(a.shape[0], i requires 0 <= i < a.shape[0] => At(a, i, k)))
  }

  /** `a[i, :]` of a 2-d array. */
  function Row(a: NpArray, i: nat): NpArray
    requires |a.shape| == 2 && i < a.shape[0]
  {
    Vector(a.dtype, seq(a.shape[1], j requires 0 <= j < a.shape[1] => At(a, i, j)))
  }

  /** The row-major buffer of a list of equally long rows (`np.array(rows)`). */
  function Flatten(rows: seq<seq<real>>): seq<real>
  {
    if rows == [] then [] else rows[0] + Flatten(rows[1..])
  }

  lemma {:induction false} FlattenLength(rows: seq<seq<real>>, cols: nat)
    requires forall i | 0 <= i < |rows| :: |rows[i]| == cols
    ensures |Flatten(rows)| == |rows| * cols
  {
    if rows != [] {
      FlattenLength(rows[1..], cols);
    }
  }

  /** Row i, column j of the rows sits at index i * cols + j of the buffer. */
  lemma {:induction false} FlattenAt(rows: seq<seq<real>>, cols: nat, i: nat, j: nat)
    requires forall r | 0 <= r < |rows| :: |rows[r]| == cols
    requires i < |rows| && j < cols
    ensures i * cols + j < |Flatten(rows)|
    ensures Flatten(rows)[i * cols + j] == rows[i][j]
  {
    FlattenLength(rows, cols);
    RowMajorBound(i, j, |rows|, cols);
    assert Flatten(rows) == rows[0] + Flatten(rows[1..]);
    if i > 0 {
      var tail := rows[1..];
      FlattenAt(tail, cols, i - 1, j);
      var k := (i - 1) * cols + j;
      assert i * cols + j == cols + k by {
        assert i * cols == (i - 1) * cols + cols;
      }
      assert tail[i - 1] == rows[i];
    }
  }

  function Abs(v: real): real
  {
    if v < 0.0 then -v else v
  }

  /** numpy's default tolerances for `np.isclose`. */
  const RelativeTolerance: real := 0.00001
  const AbsoluteTolerance: real := 0.00000001

  /** `np.isclose(a, b)`: |a - b| <= atol + rtol * |b|. */
  predicate IsClose(a: real, b: real)
  {
    Abs(a - b) <= AbsoluteTolerance + RelativeTolerance * Abs(b)
  }

  /** A 3x3 rotation matrix as a list of rows. */
  type Matrix3 = m: seq<seq<real>> | |m| == 3 && forall i | 0 <= i < 3 :: |m[i]| == 3
    witness [[0.0, 0.0, 0.0], [0.0, 0.0, 0.0], [0.0, 0.0, 0.0]]

  /** `a[:3, :3]` of an array with at least three rows and columns. */
  function TopLeft3(a: NpArray): (r: Matrix3)
    requires |a.shape| == 2 && 3 <= a.shape[0] && 3 <= a.shape[1]
  {
    seq(3, i requires 0 <= i < 3 => seq(3, j requires 0 <= j < 3 => At(a, i, j)))
  }

  /**
   * An `np.quaternion` value.  The package's constructor and `as_float_array`
   * both use the slot order (w, x, y, z).
   */
  datatype NpQuaternion = NpQuaternion(w: real, x: real, y: real, z: real)

  /** `quaternion.as_float_array(q)`. */
  function AsFloatArray(q: NpQuaternion): seq<real>
  {
    [q.w, q.x, q.y, q.z]
  }

  /**
   * The foreign numerics the converters call:
   * - `canCast(a, t)` is `np.can_cast(np.min_scalar_type(a), t)`;
   * - `asRotationMatrix` is `quaternion.as_rotation_matrix`;
   * - `fromRotationMatrix` is `quaternion.from_rotation_matrix`.
   */
  datatype Numerics = Numerics(
    canCast: (NpArray, DType) -> bool,
    asRotationMatrix: NpQuaternion -> Matrix3,
    fromRotationMatrix: Matrix3 -> NpQuaternion)

  /**
   * What numpy guarantees of `can_cast(min_scalar_type(a), t)` and the round
   * trips rely on: an array always casts to its own dtype, and float32 widens
   * to float64.
   */
  ghost predicate CastsToOwnPrecision(num: Numerics)
  {
    && (forall a: NpArray :: a.dtype == Float64 ==> num.canCast(a, Float64))
    && (forall a: NpArray :: a.dtype == Float32 ==> num.canCast(a, Float32))
    && (forall a: NpArray :: a.dtype == Float32 ==> num.canCast(a, Float64))
  }
}
