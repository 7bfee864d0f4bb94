/** The polygon codec (`polygon_to_numpy`, `numpy_to_polygon`). */
module PolygonCodec {
  import opened Results
  import opened Numpy
  import opened Messages
  import opened Stamping
  import opened VectorCodec

  predicate PolygonDecodable(msg: Message)
  {
    var u := Unstamp(msg);
    u.Polygon? && forall k | 0 <= k < |u.points| :: VectorDecodable(u.points[k])
  }

  /** Row i lists component i of every point's vector (the transposed stack). */
  function ComponentRows(points: seq<Message>, homogeneous: bool): (rows: seq<seq<real>>)
    requires forall k | 0 <= k < |points| :: VectorDecodable(points[k])
    ensures |rows| == if homogeneous then 4 else 3
    ensures forall i | 0 <= i < |rows| :: |rows[i]| == |points|
  {
    seq(if homogeneous then 4 else 3, i requires 0 <= i < (if homogeneous then 4 else 3) =>
      seq(|points|, k requires 0 <= k < |points| => VectorArray(points[k], homogeneous).flat[i]))
  }

  /**
   * `polygon_to_numpy(msg, homogeneous)`: the points' vectors stacked into a
   * float32 array and transposed, so that row i holds component i of every
   * point.  With no points `np.array([]).T` is the empty 1-d array.
   */
  function PolygonToNumpy(msg: Message, homogeneous: bool): NpArray
    requires PolygonDecodable(msg)
  {
    var points := Unstamp(msg).points;
    if |points| == 0 then
      Vector(Float32, [])
    else
      var rows := ComponentRows(points, homogeneous);
      FlattenLength(rows, |points|);
      Matrix(Float32, |rows|, |points|, Flatten(rows))
  }

  /** Decoding a stamped message gives what decoding its payload gives. */
  lemma PolygonStampAgnostic(msg: Message, homogeneous: bool)
    requires Conforms(msg) && PolygonDecodable(msg)
    ensures PolygonDecodable(Unstamp(msg))
    ensures PolygonToNumpy(Unstamp(msg), homogeneous) == PolygonToNumpy(msg, homogeneous)
  {
    UnstampIdempotent(msg);
  }

  /** Column k of the decoded array is point k's vector. */
  lemma PolygonColumns(msg: Message, homogeneous: bool, k: nat)
    requires PolygonDecodable(msg) && k < |Unstamp(msg).points|
    ensures var a := PolygonToNumpy(msg, homogeneous);
      && a.dtype == Float32
      && a.shape == [if homogeneous then 4 else 3, |Unstamp(msg).points|]
      && Column(a, k).flat == VectorArray(Unstamp(msg).points[k], homogeneous).flat
  {
    var points := Unstamp(msg).points;
    var n := |points|;
    var rows := ComponentRows(points, homogeneous);
    var a := PolygonToNumpy(msg, homogeneous);
    forall i | 0 <= i < |rows|
      ensures At(a, i, k) == VectorArray(points[k], homogeneous).flat[i]
    {
      FlattenAt(rows, n, i, k);
    }
  }

  /** Column k squeezed to a 1-d array and encoded as a `Point32` (`point.squeeze()` of `np.hsplit`). */
  function ColumnPoint(num: Numerics, points: NpArray, k: nat): Result<Message>
    requires |points.shape| == 2 && k < points.shape[1]
  {
    NumpyToVector(num, Point32Type, Column(points, k))
  }

  /** The encoding of every column, in column order. */
  function ColumnPoints(num: Numerics, points: NpArray): (cols: seq<Result<Message>>)
    requires |points.shape| == 2
    ensures |cols| == points.shape[1]
    ensures forall k | 0 <= k < |cols| :: cols[k] == ColumnPoint(num, points, k)
  {
    seq(points.shape[1], k requires 0 <= k < points.shape[1] => ColumnPoint(num, points, k))
  }

  /**
   * What `numpy_to_polygon(message_type, points)` returns: cast safety to
   * float32 is checked first, then that the array is 2-d with 3 or 4 rows;
   * `np.hsplit` into zero sections divides by zero; otherwise each column
   * becomes a `Point32`, in column order.
   */
  function PolygonFromArray(num: Numerics, points: NpArray): (r: Result<Message>)
    ensures !num.canCast(points, Float32) ==> r == Failure(TypeError)
    ensures num.canCast(points, Float32) && (|points.shape| != 2 || (points.shape[0] != 3 && points.shape[0] != 4)) ==>
      r == Failure(ValueError(WrongShape))
    ensures num.canCast(points, Float32) && |points.shape| == 2 && (points.shape[0] == 3 || points.shape[0] == 4) ==>
      && (points.shape[1] == 0 ==> r == Failure(ZeroDivisionError))
      && (points.shape[1] > 0 ==>
            && (r.Success? <==> forall k | 0 <= k < points.shape[1] :: ColumnPoint(num, points, k).Success?)
            && (r.Failure? ==>
                  exists k | 0 <= k < points.shape[1] ::
                    && ColumnPoint(num, points, k).Failure? && r.error == ColumnPoint(num, points, k).error
                    && forall j | 0 <= j < k :: ColumnPoint(num, points, j).Success?))
  {
    if !num.canCast(points, Float32) then
      Failure(TypeError)
    else if |points.shape| != 2 || (points.shape[0] != 3 && points.shape[0] != 4) then
      Failure(ValueError(WrongShape))
    else if points.shape[1] == 0 then
      Failure(ZeroDivisionError)
    else
      var cols := ColumnPoints(num, points);
      CollectAll(cols);
      CollectFirstFailure(cols);
      var pointsMsg :- Collect(cols);
      Success(Polygon(pointsMsg))
  }

  /**
   * An accepted array yields exactly `shape[1]` `Point32` records, point k
   * built from column k.
   */
  lemma PolygonFromArrayColumns(num: Numerics, points: NpArray)
    requires PolygonFromArray(num, points).Success?
    ensures |points.shape| == 2 && (points.shape[0] == 3 || points.shape[0] == 4) && points.shape[1] > 0
    ensures var msg := PolygonFromArray(num, points).value;
      && msg.Polygon? && |msg.points| == points.shape[1]
      && forall k | 0 <= k < points.shape[1] ::
           msg.points[k] == Point32(At(points, 0, k), At(points, 1, k), At(points, 2, k))
  {
    var n := points.shape[1];
    CollectAll(ColumnPoints(num, points));
    var msg := PolygonFromArray(num, points).value;
    forall k | 0 <= k < n
      ensures msg.points[k] == Point32(At(points, 0, k), At(points, 1, k), At(points, 2, k))
    {
      var c := Column(points, k);
      assert c.flat[..3] == [At(points, 0, k), At(points, 1, k), At(points, 2, k)];
    }
  }

  /**
   * The loop of `numpy_to_polygon`: each column of `np.hsplit(points, n)`,
   * squeezed to a 1-d array, is encoded as a `Point32` and appended.
   */
  method EncodeEachColumn(num: Numerics, points: NpArray) returns (r: Result<seq<Message>>)
    requires |points.shape| == 2
    ensures r == Collect(ColumnPoints(num, points))
  {
    var n := points.shape[1];
    ghost var cols := ColumnPoints(num, points);
    var pointsMsg: seq<Message> := [];
    var k := 0;
    while k < n
      invariant 0 <= k <= n
      invariant Collect(cols[..k]) == Success(pointsMsg)
    {
      var pointMsg := ColumnPoint(num, points, k);
      assert cols[..k + 1] == cols[..k] + [pointMsg];
      CollectSnoc(cols[..k], pointMsg);
      if pointMsg.Failure? {
        assert cols == cols[..k + 1] + cols[k + 1..];
        CollectFailurePersists(cols[..k + 1], cols[k + 1..]);
        return Failure(pointMsg.error);
      }
      pointsMsg := pointsMsg + [pointMsg.value];
      k := k + 1;
    }
    assert cols[..n] == cols;
    r := Success(pointsMsg);
  }

  /**
   * `numpy_to_polygon(message_type, points)`: the cast and shape checks, then
   * one `Point32` per column.
   */
  method NumpyToPolygon(num: Numerics, t: MsgType, points: NpArray) returns (r: Result<Message>)
    requires t == PolygonType
    ensures r == PolygonFromArray(num, points)
  {
    if !num.canCast(points, Float32) {
      return Failure(TypeError);
    }
    if |points.shape| != 2 || (points.shape[0] != 3 && points.shape[0] != 4) {
      return Failure(ValueError(WrongShape));
    }
    if points.shape[1] == 0 {
      return Failure(ZeroDivisionError);
    }
    var pointsMsg := EncodeEachColumn(num, points);
    if pointsMsg.Failure? {
      return Failure(pointsMsg.error);
    }
    r := Success(Polygon(pointsMsg.value));
  }


  /** Encoding a decoded polygon with at least one point gives back the unstamped message. */
  lemma PolygonRoundTrip(num: Numerics, msg: Message, homogeneous: bool)
    requires CastsToOwnPrecision(num)
    requires Conforms(msg) && PolygonDecodable(msg) && |Unstamp(msg).points| > 0
    ensures PolygonFromArray(num, PolygonToNumpy(msg, homogeneous)) == Success(Unstamp(msg))
  {
    var u := Unstamp(msg);
    UnstampType(msg);
    var n := |u.points|;
    var a := PolygonToNumpy(msg, homogeneous);
    PolygonColumns(msg, homogeneous, 0);
    assert num.canCast(a, Float32);
    forall k | 0 <= k < n
      ensures ColumnPoint(num, a, k) == Success(u.points[k])
    {
      PolygonColumns(msg, homogeneous, k);
      var p := u.points[k];
      assert Column(a, k) == VectorArray(p, homogeneous);
      VectorRoundTrip(num, p, homogeneous);
    }
    CollectAll(ColumnPoints(num, a));
    assert Collect(ColumnPoints(num, a)).value == u.points;
  }

  lemma Point32Components(p: Message, homogeneous: bool)
    requires p.Point32?
    ensures VectorDecodable(p)
    ensures VectorArray(p, homogeneous).flat == [p.x, p.y, p.z] + if homogeneous then [1.0] else []
  {
  }

  /** Entry [i, k] of a decoded polygon of Point32 records is component i of point k. */
  lemma PolygonEntry(msg: Message, homogeneous: bool, i: nat, k: nat)
    requires msg.Polygon? && forall j | 0 <= j < |msg.points| :: msg.points[j].Point32?
    requires k < |msg.points| && i < (if homogeneous then 4 else 3)
    ensures PolygonDecodable(msg)
    ensures var decoded := PolygonToNumpy(msg, homogeneous);
      var p := msg.points[k];
      && decoded.shape == [if homogeneous then 4 else 3, |msg.points|]
      && At(decoded, i, k) == if i < 3 then [p.x, p.y, p.z][i] else 1.0
  {
    forall j | 0 <= j < |msg.points| ensures VectorDecodable(msg.points[j]) {
      Point32Components(msg.points[j], homogeneous);
    }
    var decoded := PolygonToNumpy(msg, homogeneous);
    var p := msg.points[k];
    PolygonColumns(msg, homogeneous, k);
    Point32Components(p, homogeneous);
    assert At(decoded, i, k) == Column(decoded, k).flat[i];
  }

  /**
   * Decoding an encoded polygon gives back the array's first three rows, and
   * 1.0 throughout a fourth row.
   */
  lemma PolygonDecodeAfterEncode(num: Numerics, points: NpArray, msg: Message)
    requires PolygonFromArray(num, points) == Success(msg)
    ensures PolygonDecodable(msg)
    ensures var decoded := PolygonToNumpy(msg, points.shape[0] == 4);
      && decoded.shape == points.shape
      && forall i, k | 0 <= i < points.shape[0] && 0 <= k < points.shape[1] ::
           At(decoded, i, k) == if i < 3 then At(points, i, k) else 1.0
  {
    PolygonFromArrayColumns(num, points);
    var homogeneous := points.shape[0] == 4;
    var n := points.shape[1];
    assert points.shape == [points.shape[0], n];
    assert msg.Polygon? && |msg.points| == n;
    assert forall k | 0 <= k < n :: msg.points[k] == Point32(At(points, 0, k), At(points, 1, k), At(points, 2, k));
    PolygonEntry(msg, homogeneous, 0, 0);
    var decoded := PolygonToNumpy(msg, homogeneous);
    forall i, k | 0 <= i < points.shape[0] && 0 <= k < n
      ensures At(decoded, i, k) == if i < 3 then At(points, i, k) else 1.0
    {
      PolygonEntry(msg, homogeneous, i, k);
      var p := msg.points[k];
      assert i < 3 ==> [p.x, p.y, p.z][i] == At(points, i, k);
    }
  }

}
