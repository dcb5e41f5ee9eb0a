/**
 * `generate_billboards_2d` and `_unit_quat_3to4` (src/napari_particles/utils.py).
 *
 * A billboard is a quad of four corner vertices around a particle, drawn as
 * two triangles. For n particles the mesh has 4n vertices, 4n texture
 * coordinates and 2n triangles; particle i owns vertices 4i .. 4i+3.
 * Arrays are sequences of rows; `coords` is an (n, d) array.
 */
module Utils {
  import opened Wrappers
  import opened ArrayOps
  import RealMath

  /** The `size` argument: a Python scalar, or anything `np.asarray` turns into an array. */
  datatype Size = Scalar(value: real) | Array(shape: seq<nat>, flat: seq<real>)

  function Product(shape: seq<nat>): nat {
    if shape == [] then 1 else shape[0] * Product(shape[1..])
  }

  /** Multiplying the dimensions up from the front, one more dimension multiplies the count by it. */
  lemma {:induction false} ProductSnoc(shape: seq<nat>, d: nat)
    ensures Product(shape + [d]) == Product(shape) * d
  {
    if shape == [] {
      assert ([] + [d])[1..] == [];
    } else {
      assert (shape + [d])[1..] == shape[1..] + [d];
      ProductSnoc(shape[1..], d);
      assert Product(shape + [d]) == shape[0] * (Product(shape[1..]) * d);
    }
  }

  /** A numpy array holds exactly as many elements as its shape says. */
  predicate WellShaped(size: Size) {
    size.Array? ==> |size.flat| == Product(size.shape)
  }

  /** `len(size)` of a 0-d array raises TypeError; the shape assertion raises AssertionError. */
  datatype MeshError = TypeError | AssertionError

  datatype Mesh = Mesh(vertices: seq<seq<real>>, faces: seq<seq<int>>, texcoords: seq<seq<real>>)

  /** An (n, d) array: every row has d columns. */
  predicate Rectangular(rows: seq<seq<real>>, d: nat) {
    forall i :: 0 <= i < |rows| ==> |rows[i]| == d
  }

  /** `verts0`: the corners of a unit square centred at the origin, counter-clockwise. */
  const Corners: seq<seq<real>> := [[-0.5, -0.5], [0.5, -0.5], [0.5, 0.5], [-0.5, 0.5]]

  /** `texcoords0`: the texture coordinates of the four corners. */
  const TexCorners: seq<seq<real>> := [[0.0, 0.0], [1.0, 0.0], [1.0, 1.0], [0.0, 1.0]]

  /** The two triangles of one quad. */
  const QuadFaces: seq<seq<int>> := [[0, 1, 2], [0, 3, 2]]

  /**
   * The size broadcast and check: a scalar becomes n copies of itself
   * (`np.ones(n) * size`); an array must be one-dimensional with n entries.
   */
  function Sizes(size: Size, n: nat): (r: Result<seq<real>, MeshError>)
    requires WellShaped(size)
    ensures r.Ok? ==> |r.value| == n
    ensures size.Scalar? ==> r.Ok? && forall i :: 0 <= i < n ==> r.value[i] == size.value
    ensures size.Array? ==> (r == Err(TypeError) <==> size.shape == [])
    ensures size.Array? ==> (r.Ok? <==> size.shape == [n]) && (r.Ok? ==> r.value == size.flat)
  {
    match size
    case Scalar(v) => Ok(seq(n, _ => 1.0 * v))
    case Array(shape, flat) =>
      if shape == [] then Err(TypeError)
      else if shape[0] == n && |shape| == 1 then
        assert Product(shape) == shape[0] * Product([]);
        Ok(flat)
      else Err(AssertionError)
  }

  /** `size[:, None, None] * verts0[None]` reshaped to (4n, 2). */
  function ScaledCorners(sizes: seq<real>): seq<seq<real>> {
    Flatten(CornerBlocks(sizes))
  }

  function CornerBlocks(sizes: seq<real>): (b: seq<seq<seq<real>>>)
    ensures |b| == |sizes| && forall i :: 0 <= i < |b| ==> |b[i]| == 4
  {
    seq(|sizes|, i requires 0 <= i < |sizes| =>
      seq(4, k requires 0 <= k < 4 => [sizes[i] * Corners[k][0], sizes[i] * Corners[k][1]]))
  }

  lemma CornerBlockAt(sizes: seq<real>, i: nat, k: nat)
    requires i < |sizes| && k < 4
    ensures CornerBlocks(sizes)[i][k] == [sizes[i] * Corners[k][0], sizes[i] * Corners[k][1]]
  {
  }

  lemma {:induction false} RepeatRectangular(coords: seq<seq<real>>, d: nat, k: nat)
    requires Rectangular(coords, d)
    ensures Rectangular(Repeat(coords, k), d)
  {
    if coords != [] {
      RepeatRectangular(coords[1..], d, k);
    }
  }

  /**
   * The local corners of every particle, `size[:, None, None] * verts0[None]`
   * reshaped to (4n, 2); with more than two columns each row is prefixed by
   * all but the last two columns of its particle (`np.repeat(coords, 4)[:, :-2]`).
   */
  function Vertices(coords: seq<seq<real>>, d: nat, sizes: seq<real>): (v: seq<seq<real>>)
    requires Rectangular(coords, d) && |sizes| == |coords|
    ensures |v| == 4 * |coords|
  {
    var local := ScaledCorners(sizes);
    FlattenLength(CornerBlocks(sizes), 4);
    if d > 2 then
      var rep := Repeat(coords, 4);
      RepeatLength(coords, 4);
      RepeatRectangular(coords, d, 4);
      seq(|local|, j requires 0 <= j < |local| => rep[j][..d - 2] + local[j])
    else local
  }

  /**
   * `np.tile([[0,1,2],[0,3,2]], (n, 1))` plus
   * `np.repeat(np.repeat(4 * np.arange(n)[:, None], 3, axis=-1), 2, axis=0)`.
   */
  function Faces(n: nat): (f: seq<seq<int>>)
    ensures |f| == 2 * n
  {
    var tiled := Tile(QuadFaces, n);
    var offsets := Repeat(seq(n, i => [4 * i, 4 * i, 4 * i]), 2);
    TileLength(QuadFaces, n);
    RepeatLength(seq(n, i => [4 * i, 4 * i, 4 * i]), 2);
    assert forall f :: 0 <= f < 2 * n ==> |tiled[f]| == 3 && |offsets[f]| == 3 by {
      forall f | 0 <= f < 2 * n ensures |tiled[f]| == 3 && |offsets[f]| == 3 {
        TileAt(QuadFaces, n, f / 2, f % 2);
        RepeatAt(seq(n, i => [4 * i, 4 * i, 4 * i]), 2, f / 2, f % 2);
      }
    }
    AddTables(tiled, offsets)
  }

  /**
   * `generate_billboards_2d(coords, size)`, built the way the numpy code
   * builds it. The size check comes first; it is the only failure. On
   * success there are 4n vertices, 2n triangles and 4n texture coordinates.
   */
  function GenerateBillboards2D(coords: seq<seq<real>>, d: nat, size: Size): (r: Result<Mesh, MeshError>)
    requires Rectangular(coords, d) && WellShaped(size)
    ensures r.Ok? <==> Sizes(size, |coords|).Ok?
    ensures r.Err? ==> r.error == Sizes(size, |coords|).error
    ensures r.Ok? ==> |r.value.vertices| == 4 * |coords| && |r.value.faces| == 2 * |coords|
                      && |r.value.texcoords| == 4 * |coords|
  {
    var n := |coords|;
    match Sizes(size, n)
    case Err(e) => Err(e)
    case Ok(sizes) =>
      TileLength(TexCorners, n);
      Ok(Mesh(Vertices(coords, d, sizes), Faces(n), Tile(TexCorners, n)))
  }

  /**
   * The triangles of particle i are (4i, 4i+1, 4i+2) and (4i, 4i+3, 4i+2),
   * so every index stays inside the particle's own block of four vertices.
   */
  lemma FacesOfParticle(n: nat, i: nat)
    requires i < n
    ensures var faces := Faces(n);
      && faces[2 * i] == [4 * i, 4 * i + 1, 4 * i + 2]
      && faces[2 * i + 1] == [4 * i, 4 * i + 3, 4 * i + 2]
  {
    var offs := seq(n, i => [4 * i, 4 * i, 4 * i]);
    TileAt(QuadFaces, n, i, 0);
    TileAt(QuadFaces, n, i, 1);
    RepeatAt(offs, 2, i, 0);
    RepeatAt(offs, 2, i, 1);
    assert i * |QuadFaces| == 2 * i && i * 2 == 2 * i;
  }

  /** Every triangle has three corners, each one of the 4n vertices. */
  lemma FaceIndicesInRange(n: nat)
    ensures var faces := Faces(n);
      forall f :: 0 <= f < |faces| ==> |faces[f]| == 3 && forall c :: 0 <= c < 3 ==> 0 <= faces[f][c] < 4 * n
  {
    var faces := Faces(n);
    forall f | 0 <= f < |faces| ensures |faces[f]| == 3 && forall c :: 0 <= c < 3 ==> 0 <= faces[f][c] < 4 * n {
      var i := f / 2;
      FacesOfParticle(n, i);
      assert f == 2 * i || f == 2 * i + 1;
    }
  }

  /**
   * Vertex 4i+k: all but the last two coordinates of particle i (when there
   * are more than two), then corner k of the unit square scaled by the
   * particle's size.
   */
  lemma VertexAt(coords: seq<seq<real>>, d: nat, sizes: seq<real>, i: nat, k: nat)
    requires Rectangular(coords, d) && |sizes| == |coords| && i < |coords| && k < 4
    ensures Vertices(coords, d, sizes)[4 * i + k] ==
      (if d > 2 then coords[i][..d - 2] else []) + [sizes[i] * Corners[k][0], sizes[i] * Corners[k][1]]
  {
    var local := ScaledCorners(sizes);
    FlattenAt(CornerBlocks(sizes), 4, i, k);
    assert i * 4 + k == 4 * i + k;
    CornerBlockAt(sizes, i, k);
    if d > 2 {
      RepeatAt(coords, 4, i, k);
      assert Repeat(coords, 4)[4 * i + k] == coords[i];
    }
  }

  /** Every vertex row has d columns, or 2 when the coordinates have at most two. */
  lemma VertexWidth(coords: seq<seq<real>>, d: nat, sizes: seq<real>)
    requires Rectangular(coords, d) && |sizes| == |coords|
    ensures Rectangular(Vertices(coords, d, sizes), if d > 2 then d else 2)
  {
    var v := Vertices(coords, d, sizes);
    forall j | 0 <= j < |v| ensures |v[j]| == if d > 2 then d else 2 {
      VertexAt(coords, d, sizes, j / 4, j % 4);
    }
  }

  /** A zero size collapses the quad's four local corners onto (0, 0). */
  lemma ZeroSizeCollapses(coords: seq<seq<real>>, d: nat, sizes: seq<real>, i: nat, k: nat)
    requires Rectangular(coords, d) && |sizes| == |coords| && i < |coords| && k < 4
    requires sizes[i] == 0.0
    ensures var v := Vertices(coords, d, sizes)[4 * i + k];
      |v| >= 2 && v[|v| - 2..] == [0.0, 0.0]
  {
    VertexAt(coords, d, sizes, i, k);
    ZeroTail(Vertices(coords, d, sizes)[4 * i + k], if d > 2 then coords[i][..d - 2] else [], sizes[i], k);
  }

  lemma ZeroTail(v: seq<real>, front: seq<real>, s: real, k: nat)
    requires k < 4 && s == 0.0 && v == front + [s * Corners[k][0], s * Corners[k][1]]
    ensures |v| >= 2 && v[|v| - 2..] == [0.0, 0.0]
  {
    assert v[|v| - 2..] == [v[|v| - 2], v[|v| - 1]];
  }

  /** Texture coordinate 4i+k is corner k of the unit texture square. */
  lemma TexcoordAt(n: nat, i: nat, k: nat)
    requires i < n && k < 4
    ensures |Tile(TexCorners, n)| == 4 * n && Tile(TexCorners, n)[4 * i + k] == TexCorners[k]
  {
    TileAt(TexCorners, n, i, k);
    assert i * |TexCorners| + k == 4 * i + k;
  }

  function SumSquares(p: seq<real>): (r: real)
    ensures 0.0 <= r
  {
    if p == [] then 0.0 else p[0] * p[0] + SumSquares(p[1..])
  }

  /**
   * `_unit_quat_3to4(p)` for one row p: (w, p) with w = sqrt(1 - |p|^2),
   * scalar FIRST. When |p| > 1 numpy's square root yields NaN, which the
   * model represents as `None`.
   */
  function UnitQuat3To4(m: RealMath.Math, p: seq<real>): (r: Option<seq<real>>)
    ensures r.Some? <==> SumSquares(p) <= 1.0
    ensures r.Some? ==> |r.value| == |p| + 1 && r.value[1..] == p
  {
    var s := 1.0 - SumSquares(p);
    if s < 0.0 then None else Some([m.sqrt(s)] + p)
  }

  /** When |p| <= 1 the result is a unit quaternion whose scalar part is non-negative. */
  lemma UnitQuat3To4IsUnit(m: RealMath.Math, p: seq<real>)
    requires RealMath.SqrtLaw(m.sqrt) && SumSquares(p) <= 1.0
    ensures var q := UnitQuat3To4(m, p).value;
      0.0 <= q[0] && SumSquares(q) == 1.0
  {
    var q := UnitQuat3To4(m, p).value;
    assert q[1..] == p;
  }
}
