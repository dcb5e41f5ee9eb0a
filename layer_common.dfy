/**
 * The CPU-side work shared by the `Particles` layer (particles.py) and the
 * `Billboards` layer (billboards.py): argument broadcasting and checks, the
 * zero column for 2-D points, the billboard mesh, the four-fold repetition
 * of per-particle rows, the gather of the visible vertices, the data
 * extent and the normalisation of the filter argument.
 *
 * numpy arrays are sequences of rows; an argument that may be a Python
 * scalar or an array of any dimension is a `Utils.Size`.
 */
module LayerCommon {
  import opened Wrappers
  import opened ArrayOps
  import Utils
  type Size = Utils.Size

  /** `np.asarray(coords)`: an array of any dimension, in row-major order. */
  datatype NdArray = NdArray(shape: seq<nat>, flat: seq<real>)

  predicate WellFormed(a: NdArray) {
    |a.flat| == Utils.Product(a.shape)
  }

  /** The exceptions the constructors raise. */
  datatype LayerError =
    | TypeError       // `len()` of a 0-d array
    | ValueError      // coords not two-dimensional; shapes that do not broadcast
    | AssertionError  // the size check of `generate_billboards_2d`
    | AxisError       // `np.repeat(values, 4, axis=0)` on a 0-d array
    | IndexError      // a face index outside the vertex arrays

  /** Everything the constructor derives from its arguments. */
  datatype Prepared = Prepared(
    coords: seq<seq<real>>,       // (n, d) after padding
    width: nat,                   // d
    size: seq<real>,              // the n sizes
    centercoords: seq<seq<real>>, // (4n, d)
    values: seq<seq<real>>,       // values repeated four times along axis 0
    mesh: Utils.Mesh)

  /** The n rows of d consecutive entries each (a reshape to (n, d)). */
  function Rows(flat: seq<real>, d: nat, n: nat): (r: seq<seq<real>>)
    requires |flat| == n * d
    ensures |r| == n && Utils.Rectangular(r, d)
  {
    if n == 0 then []
    else
      assert |flat[d..]| == (n - 1) * d;
      [flat[..d]] + Rows(flat[d..], d, n - 1)
  }

  /** Entry (i, j) of the reshaped array is flat entry i*d + j. */
  lemma {:induction false} RowsAt(flat: seq<real>, d: nat, n: nat, i: nat, j: nat)
    requires |flat| == n * d && i < n && j < d
    ensures i * d + j < |flat|
    ensures Rows(flat, d, n)[i][j] == flat[i * d + j]
  {
    if i > 0 {
      assert |flat[d..]| == (n - 1) * d;
      RowsAt(flat[d..], d, n - 1, i - 1, j);
      assert i * d + j == d + ((i - 1) * d + j);
    }
  }

  /** `np.concatenate([np.zeros((n, 1)), coords], axis=-1)`. */
  function PrependZero(rows: seq<seq<real>>): (r: seq<seq<real>>)
    ensures |r| == |rows| && forall i :: 0 <= i < |r| ==> r[i] == [0.0] + rows[i]
  {
    seq(|rows|, i requires 0 <= i < |rows| => [0.0] + rows[i])
  }

  /** `x * np.ones(n)` for a scalar x, the array itself otherwise. */
  function Broadcast(x: Size, n: nat): (r: Size)
    ensures Utils.WellShaped(x) ==> Utils.WellShaped(r)
    ensures x.Array? ==> r == x
    ensures x.Scalar? ==> (r.Array? && r.shape == [n] && |r.flat| == n &&
                           forall i :: 0 <= i < n ==> r.flat[i] == x.value)
  {
    match x
    case Scalar(v) =>
      assert Utils.Product([n]) == n * Utils.Product([]);
      Utils.Array([n], seq(n, _ => v * 1.0))
    case Array(_, _) => x
  }

  /** `np.repeat(a, 4, axis=0)` of an array of one or more dimensions, as rows. */
  function RepeatRows(a: Size): (r: Result<seq<seq<real>>, LayerError>)
    requires a.Array? && Utils.WellShaped(a)
    ensures r.Err? <==> a.shape == []
    ensures r.Ok? ==> |r.value| == 4 * a.shape[0]
  {
    if a.shape == [] then Err(AxisError)
    else
      var w := Utils.Product(a.shape[1..]);
      assert Utils.Product(a.shape) == a.shape[0] * w;
      var rows := Rows(a.flat, w, a.shape[0]);
      RepeatLength(rows, 4);
      Ok(Repeat(rows, 4))
  }

  /**
   * The constructor's computation, shared by both layers. A scalar
   * `values` or `size` is broadcast with `len(coords)` before any check, so a
   * 0-d `coords` fails there with TypeError; then coords must be
   * two-dimensional; 2-column points get a leading zero column; the mesh is
   * generated (its size check can fail); finally centres and values are
   * repeated four times.
   */
  function Prepare(coords: NdArray, size: Size, values: Size): (r: Result<Prepared, LayerError>)
    requires WellFormed(coords) && Utils.WellShaped(size) && Utils.WellShaped(values)
  {
    if coords.shape == [] && (values.Scalar? || size.Scalar?) then Err(TypeError)
    else if |coords.shape| != 2 then Err(ValueError)
    else
      var n := coords.shape[0];
      Build(Points(coords), PointWidth(coords), Broadcast(size, n), Broadcast(values, n))
  }

  /** The rows of a two-dimensional coords array, with a zero column in front of 2-column points. */
  function Points(coords: NdArray): (p: seq<seq<real>>)
    requires WellFormed(coords) && |coords.shape| == 2
    ensures |p| == coords.shape[0] && Utils.Rectangular(p, PointWidth(coords))
  {
    var n, d := coords.shape[0], coords.shape[1];
    ProductOfTwo(coords.shape);
    var rows := Rows(coords.flat, d, n);
    if d == 2 then PrependZero(rows) else rows
  }

  /**
   * Point i is row i of coords; a 2-column point (x, y) becomes (0, x, y),
   * so its own columns are the last two.
   */
  lemma PointsAt(coords: NdArray, i: nat, j: nat)
    requires WellFormed(coords) && |coords.shape| == 2 && i < coords.shape[0] && j < coords.shape[1]
    ensures i * coords.shape[1] + j < |coords.flat|
    ensures var d := coords.shape[1]; var p := Points(coords)[i];
      && (d == 2 ==> |p| == 3 && p[0] == 0.0 && p[1 + j] == coords.flat[i * d + j])
      && (d != 2 ==> |p| == d && p[j] == coords.flat[i * d + j])
  {
    ProductOfTwo(coords.shape);
    RowsAt(coords.flat, coords.shape[1], coords.shape[0], i, j);
  }

  lemma ProductOfTwo(shape: seq<nat>)
    requires |shape| == 2
    ensures Utils.Product(shape) == shape[0] * shape[1]
  {
    assert shape[1..][1..] == [];
    assert Utils.Product(shape[1..]) == shape[1] * Utils.Product([]);
  }

  function PointWidth(coords: NdArray): nat
    requires |coords.shape| == 2
  {
    if coords.shape[1] == 2 then 3 else coords.shape[1]
  }

  /** `generate_billboards_2d` of the points, then the four-fold repetition of centres and values. */
  function Build(points: seq<seq<real>>, width: nat, size: Size, values: Size): (r: Result<Prepared, LayerError>)
    requires Utils.Rectangular(points, width) && Utils.WellShaped(size) && Utils.WellShaped(values)
    requires values.Array?
  {
    match Utils.GenerateBillboards2D(points, width, size)
    case Err(e) => Err(if e == Utils.TypeError then TypeError else AssertionError)
    case Ok(mesh) =>
      match RepeatRows(values)
      case Err(e) => Err(e)
      case Ok(repeated) =>
        Ok(Prepared(points, width, Utils.Sizes(size, |points|).value, Repeat(points, 4), repeated, mesh))
  }

  /** Which exception the constructor raises, if any: the checks in the order the code makes them. */
  lemma PrepareErrors(coords: NdArray, size: Size, values: Size)
    requires WellFormed(coords) && Utils.WellShaped(size) && Utils.WellShaped(values)
    ensures var r := Prepare(coords, size, values);
      && (r == Err(TypeError) <==>
            (coords.shape == [] && (values.Scalar? || size.Scalar?))
            || (|coords.shape| == 2 && size.Array? && size.shape == []))
      && (r == Err(ValueError) <==> |coords.shape| != 2 && !(coords.shape == [] && (values.Scalar? || size.Scalar?)))
      && (r == Err(AssertionError) <==>
            |coords.shape| == 2 && size.Array? && size.shape != [] && size.shape != [coords.shape[0]])
      && (r == Err(AxisError) <==>
            |coords.shape| == 2 && (size.Scalar? || size.shape == [coords.shape[0]])
            && values.Array? && values.shape == [])
  {
    if |coords.shape| == 2 {
      var n := coords.shape[0];
      var size' := Broadcast(size, n);
      assert Utils.Sizes(size', n).Err? <==> size.Array? && size.shape != [n];
    }
  }

  /**
   * On success: n particles of width d (3 for 2-D input, whose two columns
   * become the last two), a mesh from `generate_billboards_2d` of the padded
   * points, and centres repeated so that row 4i+k is particle i.
   */
  lemma PrepareShapes(coords: NdArray, size: Size, values: Size, i: nat, k: nat)
    requires WellFormed(coords) && Utils.WellShaped(size) && Utils.WellShaped(values)
    requires Prepare(coords, size, values).Ok?
    ensures |coords.shape| == 2
    ensures var p := Prepare(coords, size, values).value;
      var n, d := coords.shape[0], coords.shape[1];
      && |p.coords| == n && |p.size| == n && Utils.Rectangular(p.coords, p.width)
      && p.width == (if d == 2 then 3 else d)
      && p.coords == Points(coords)
      && Ok(p.mesh) == Utils.GenerateBillboards2D(p.coords, p.width, Broadcast(size, n))
      && |p.centercoords| == 4 * n
      && (i < n && k < 4 ==> p.centercoords[4 * i + k] == p.coords[i])
  {
    var p := Prepare(coords, size, values).value;
    var n := coords.shape[0];
    RepeatLength(p.coords, 4);
    if i < n && k < 4 {
      RepeatAt(p.coords, 4, i, k);
      assert 4 * i + k == i * 4 + k;
    }
  }

  /**
   * A scalar `values` becomes one value per vertex: the four vertices of
   * every particle carry the scalar; an array of n entries gives particle i's
   * value to its four vertices.
   */
  lemma PrepareValues(coords: NdArray, size: Size, values: Size, i: nat, k: nat)
    requires WellFormed(coords) && Utils.WellShaped(size) && Utils.WellShaped(values)
    requires Prepare(coords, size, values).Ok?
    requires i < coords.shape[0] && k < 4
    ensures var p := Prepare(coords, size, values).value;
      && (values.Scalar? ==> |p.values| == 4 * coords.shape[0] && p.values[4 * i + k] == [values.value])
      && (values.Array? && values.shape == [coords.shape[0]] ==>
            |p.values| == 4 * coords.shape[0] && p.values[4 * i + k] == [values.flat[i]])
  {
    var n := coords.shape[0];
    var v := Broadcast(values, n);
    if values.Scalar? || values.shape == [n] {
      assert v.shape == [n] && Utils.Product(v.shape[1..]) == 1;
      var rows := Rows(v.flat, 1, n);
      RepeatAt(rows, 4, i, k);
      assert 4 * i + k == i * 4 + k;
      RowsAt(v.flat, 1, n, i, 0);
      assert rows[i] == [v.flat[i]];
    }
  }

  /** numpy's reading of an index into an axis of length len: negative indices count from the end. */
  function Wrap(index: int, len: nat): (k: nat)
    requires -(len as int) <= index < len
    ensures k < len
  {
    if index < 0 then len + index else index
  }

  /** `rows[idx]` (fancy indexing): IndexError unless every index is in [-len, len). */
  function Gather<T>(rows: seq<T>, idx: seq<int>): (r: Result<seq<T>, LayerError>)
    ensures r.Ok? <==> forall k :: 0 <= k < |idx| ==> -|rows| <= idx[k] < |rows|
    ensures r.Err? ==> r.error == IndexError
    ensures r.Ok? ==> (|r.value| == |idx| &&
                       forall k :: 0 <= k < |idx| ==> r.value[k] == rows[Wrap(idx[k], |rows|)])
  {
    if idx == [] then Ok([])
    else if !(-|rows| <= idx[0] < |rows|) then Err(IndexError)
    else
      match Gather(rows, idx[1..])
      case Err(e) => Err(e)
      case Ok(rest) => Ok([rows[Wrap(idx[0], |rows|)]] + rest)
  }

  /** `row[-k:]`: the last k entries, or the whole row when it is shorter. */
  function LastColumns(row: seq<real>, k: nat): (r: seq<real>)
    ensures |r| == if |row| < k then |row| else k
    ensures forall j :: 0 <= j < |r| ==> r[j] == row[|row| - |r| + j]
  {
    if |row| < k then row else row[|row| - k..]
  }

  /** `table[:, -k:]`. */
  function LastColumnsOfRows(rows: seq<seq<real>>, k: nat): (r: seq<seq<real>>)
    ensures |r| == |rows| && forall i :: 0 <= i < |r| ==> r[i] == LastColumns(rows[i], k)
  {
    seq(|rows|, i requires 0 <= i < |rows| => LastColumns(rows[i], k))
  }

  /** `view_faces.flatten()` of an (m, 3) face array: the three corners of face f are entries 3f .. 3f+2. */
  function FlattenFaces(faces: seq<seq<int>>): seq<int> {
    Flatten(faces)
  }

  /**
   * The gathered buffers for the visible faces: texture coordinates of every
   * corner, and the last three columns of its centre, both in face order.
   */
  function VisibleBuffers(texcoords: seq<seq<real>>, centercoords: seq<seq<real>>, faces: seq<seq<int>>)
    : (r: Result<(seq<seq<real>>, seq<seq<real>>), LayerError>)
    requires |texcoords| == |centercoords|
    ensures r.Ok? <==> forall k :: 0 <= k < |FlattenFaces(faces)| ==>
                         -|texcoords| <= FlattenFaces(faces)[k] < |texcoords|
    ensures r.Ok? ==> |r.value.0| == |r.value.1| == |FlattenFaces(faces)|
  {
    var f := FlattenFaces(faces);
    match Gather(texcoords, f)
    case Err(e) => Err(e)
    case Ok(tex) =>
      var centers := Gather(centercoords, f).value;
      Ok((tex, LastColumnsOfRows(centers, 3)))
  }

  /** Corner c of visible face j gets the texture coordinate and centre of vertex faces[j][c]. */
  lemma VisibleBuffersAt(texcoords: seq<seq<real>>, centercoords: seq<seq<real>>, faces: seq<seq<int>>,
                         j: nat, c: nat)
    requires |texcoords| == |centercoords|
    requires forall f :: 0 <= f < |faces| ==> |faces[f]| == 3
    requires VisibleBuffers(texcoords, centercoords, faces).Ok?
    requires j < |faces| && c < 3
    ensures -|texcoords| <= faces[j][c] < |texcoords|
    ensures var b := VisibleBuffers(texcoords, centercoords, faces).value;
      var v := Wrap(faces[j][c], |texcoords|);
      3 * j + c < |b.0| && b.0[3 * j + c] == texcoords[v] && b.1[3 * j + c] == LastColumns(centercoords[v], 3)
  {
    FlattenAt(faces, 3, j, c);
    assert 3 * j + c == j * 3 + c;
  }

  /** `np.full((2, ndim), np.nan)` or the rows (mins, maxs). */
  datatype Extrema = AllNaN(ndim: nat) | Box(mins: seq<real>, maxs: seq<real>)

  /** The size added on axis j: zero except on the last two axes (`size[:, :-2] *= 0`). */
  function HalfSize(s: real, j: nat, ndim: nat): real {
    if j + 2 < ndim then 0.0 else 0.5 * s
  }

  /** Column j of a row broadcast to ndim columns: a single column is repeated. */
  function Column(row: seq<real>, j: nat): real
    requires |row| == 1 || j < |row|
  {
    if |row| == 1 then row[0] else row[j]
  }

  function Highs(coords: seq<seq<real>>, sizes: seq<real>, j: nat, ndim: nat): (h: seq<real>)
    requires |sizes| == |coords| && forall i :: 0 <= i < |coords| ==> |coords[i]| == 1 || j < |coords[i]|
    ensures |h| == |coords|
  {
    seq(|coords|, i requires 0 <= i < |coords| => Column(coords[i], j) + HalfSize(sizes[i], j, ndim))
  }

  function Lows(coords: seq<seq<real>>, sizes: seq<real>, j: nat, ndim: nat): (h: seq<real>)
    requires |sizes| == |coords| && forall i :: 0 <= i < |coords| ==> |coords[i]| == 1 || j < |coords[i]|
    ensures |h| == |coords|
  {
    seq(|coords|, i requires 0 <= i < |coords| => Column(coords[i], j) - HalfSize(sizes[i], j, ndim))
  }

  /**
   * `_extent_data`: NaN when there are no particles; otherwise per axis the
   * minimum of coords - size/2 and the maximum of coords + size/2, with the
   * size counted only on the last two axes. coords of width w broadcast
   * against the (n, ndim) size array only when w is ndim or 1.
   */
  function ExtentData(coords: seq<seq<real>>, w: nat, sizes: seq<real>, ndim: nat): (r: Result<Extrema, LayerError>)
    requires Utils.Rectangular(coords, w) && |sizes| == |coords|
    ensures r.Err? <==> |coords| > 0 && w != ndim && w != 1
    ensures r == Ok(AllNaN(ndim)) <==> |coords| == 0
    ensures r.Ok? && r.value.Box? ==> |r.value.mins| == ndim && |r.value.maxs| == ndim
  {
    if |coords| == 0 then Ok(AllNaN(ndim))
    else if w != ndim && w != 1 then Err(ValueError)
    else
      Ok(Box(seq(ndim, j requires 0 <= j < ndim => SeqMin(Lows(coords, sizes, j, ndim))),
             seq(ndim, j requires 0 <= j < ndim => SeqMax(Highs(coords, sizes, j, ndim)))))
  }

  /**
   * The box contains every particle's extent: on axis j the particle spans
   * [c - h, c + h] with h half its size on the last two axes and 0 elsewhere;
   * each bound is attained by some particle; with non-negative sizes
   * mins <= maxs on every axis.
   */
  lemma ExtentBounds(coords: seq<seq<real>>, w: nat, sizes: seq<real>, ndim: nat, j: nat)
    requires Utils.Rectangular(coords, w) && |sizes| == |coords| && |coords| > 0 && (w == ndim || w == 1)
    requires j < ndim
    ensures var e := ExtentData(coords, w, sizes, ndim).value;
      && (forall i :: 0 <= i < |coords| ==>
            e.mins[j] <= Column(coords[i], j) - HalfSize(sizes[i], j, ndim)
            && Column(coords[i], j) + HalfSize(sizes[i], j, ndim) <= e.maxs[j])
      && (exists i :: 0 <= i < |coords| && e.mins[j] == Column(coords[i], j) - HalfSize(sizes[i], j, ndim))
      && (exists i :: 0 <= i < |coords| && e.maxs[j] == Column(coords[i], j) + HalfSize(sizes[i], j, ndim))
      && ((forall i :: 0 <= i < |sizes| ==> 0.0 <= sizes[i]) ==> e.mins[j] <= e.maxs[j])
  {
    var e := ExtentData(coords, w, sizes, ndim).value;
    var lows, highs := Lows(coords, sizes, j, ndim), Highs(coords, sizes, j, ndim);
    assert e.mins[j] == SeqMin(lows) && e.maxs[j] == SeqMax(highs);
    AxisBounds(coords, sizes, j, ndim, lows, highs);
  }

  /** e is a box of ndim axes that holds every particle's extent on every axis. */
  predicate Covers(e: Extrema, coords: seq<seq<real>>, w: nat, sizes: seq<real>, ndim: nat)
    requires Utils.Rectangular(coords, w) && |sizes| == |coords| && (w == ndim || w == 1)
  {
    && e.Box? && |e.mins| == ndim && |e.maxs| == ndim
    && forall i, j | 0 <= i < |coords| && 0 <= j < ndim ::
         e.mins[j] <= Column(coords[i], j) - HalfSize(sizes[i], j, ndim)
         && Column(coords[i], j) + HalfSize(sizes[i], j, ndim) <= e.maxs[j]
  }

  /** The extent of a non-empty, broadcastable set of particles covers all of them. */
  lemma ExtentCovers(coords: seq<seq<real>>, w: nat, sizes: seq<real>, ndim: nat)
    requires Utils.Rectangular(coords, w) && |sizes| == |coords| && |coords| > 0 && (w == ndim || w == 1)
    ensures Covers(ExtentData(coords, w, sizes, ndim).value, coords, w, sizes, ndim)
  {
    forall j | 0 <= j < ndim {
      ExtentBounds(coords, w, sizes, ndim, j);
    }
  }

  /** The same bounds for one axis, stated on its columns of lows and highs. */
  lemma AxisBounds(coords: seq<seq<real>>, sizes: seq<real>, j: nat, ndim: nat, lows: seq<real>, highs: seq<real>)
    requires |sizes| == |coords| > 0 && forall i :: 0 <= i < |coords| ==> |coords[i]| == 1 || j < |coords[i]|
    requires lows == Lows(coords, sizes, j, ndim) && highs == Highs(coords, sizes, j, ndim)
    ensures forall i :: 0 <= i < |coords| ==>
              SeqMin(lows) <= Column(coords[i], j) - HalfSize(sizes[i], j, ndim)
              && Column(coords[i], j) + HalfSize(sizes[i], j, ndim) <= SeqMax(highs)
    ensures exists i :: 0 <= i < |coords| && SeqMin(lows) == Column(coords[i], j) - HalfSize(sizes[i], j, ndim)
    ensures exists i :: 0 <= i < |coords| && SeqMax(highs) == Column(coords[i], j) + HalfSize(sizes[i], j, ndim)
    ensures (forall i :: 0 <= i < |sizes| ==> 0.0 <= sizes[i]) ==> SeqMin(lows) <= SeqMax(highs)
  {
    var lo, hi := SeqMin(lows), SeqMax(highs);
    forall i | 0 <= i < |coords|
      ensures lo <= Column(coords[i], j) - HalfSize(sizes[i], j, ndim)
      ensures Column(coords[i], j) + HalfSize(sizes[i], j, ndim) <= hi
    {
      assert lo <= lows[i] && highs[i] <= hi;
    }
    var k :| 0 <= k < |lows| && lows[k] == lo;
    assert lo == Column(coords[k], j) - HalfSize(sizes[k], j, ndim);
    var m :| 0 <= m < |highs| && highs[m] == hi;
    assert hi == Column(coords[m], j) + HalfSize(sizes[m], j, ndim);
    if forall i :: 0 <= i < |sizes| ==> 0.0 <= sizes[i] {
      assert lo <= lows[0] && lows[0] <= highs[0] && highs[0] <= hi;
    }
  }

  /** The value the filter setter receives: None, a single filter, or an iterable of filters. */
  datatype FilterValue<F> = NoFilter | Single(filter: F) | Several(filters: seq<F>)

  /** The `filter` setter: None becomes (), a non-iterable v becomes (v,), an iterable its tuple. */
  function FilterTuple<F>(value: FilterValue<F>): (r: seq<F>)
    ensures value.NoFilter? ==> r == []
    ensures value.Single? ==> r == [value.filter]
    ensures value.Several? ==> r == value.filters
  {
    match value
    case NoFilter => []
    case Single(f) => [f]
    case Several(fs) => fs
  }

  /** Setting the stored tuple again changes nothing, and every filter given is kept, in order. */
  lemma FilterTupleStable<F>(value: FilterValue<F>)
    ensures FilterTuple(Several(FilterTuple(value))) == FilterTuple(value)
    ensures |FilterTuple(value)| == match value case NoFilter => 0 case Single(_) => 1 case Several(fs) => |fs|
    ensures forall f :: f in FilterTuple(value) <==>
      (value.Single? && f == value.filter) || (value.Several? && f in value.filters)
  {
  }

  /** `array[:, ::-1]`: each row reversed, as every buffer upload does. */
  function ReverseColumns(rows: seq<seq<real>>): (r: seq<seq<real>>)
    ensures |r| == |rows|
    ensures forall i :: 0 <= i < |r| ==> (|r[i]| == |rows[i]| &&
                        forall j :: 0 <= j < |r[i]| ==> r[i][j] == rows[i][|rows[i]| - 1 - j])
  {
    seq(|rows|, i requires 0 <= i < |rows| => Reverse(rows[i]))
  }

  function Reverse(row: seq<real>): (r: seq<real>)
    ensures |r| == |row| && forall j :: 0 <= j < |r| ==> r[j] == row[|row| - 1 - j]
  {
    seq(|row|, j requires 0 <= j < |row| => row[|row| - 1 - j])
  }

  /** Reversing the columns twice gives back the array: an upload loses nothing. */
  lemma ReverseColumnsInvolution(rows: seq<seq<real>>)
    ensures ReverseColumns(ReverseColumns(rows)) == rows
  {
    var r := ReverseColumns(ReverseColumns(rows));
    assert forall i :: 0 <= i < |rows| ==> r[i] == rows[i];
  }
}
