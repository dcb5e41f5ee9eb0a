/**
 * particles.py: the `Particles` layer and the older `BillboardsFilter` it
 * attaches. The layer turns points into billboard quads, keeps the
 * per-vertex texture coordinates and centres, hands the visible ones to the
 * filter, and reports its data extent. Its vertex stage is
 * `BillboardShader.OwnLengthVertex`.
 *
 * The napari `Surface` the layer extends receives (vertices, faces, values);
 * they are kept as fields. Its slicing, which decides the visible faces, is
 * not part of this model: the visible faces are a parameter.
 */
module ParticlesLayer {
  import opened Wrappers
  import opened ArrayOps
  import Utils
  import opened LayerCommon
  import Filters

  /** The filter of particles.py: texture coordinates and centres, no sigmas or rotations. */
  class BillboardsFilter {
    var attached: bool
    var hasVisual: bool
    const antialias: real
    var centercoords: Option<seq<seq<real>>>
    var texcoords: Option<seq<seq<real>>>
    var centercoordsBuffer: seq<seq<real>>
    var texcoordsBuffer: seq<seq<real>>

    /** The guard of `_update_coords_buffer`. */
    predicate UploadsCoords()
      reads this
    {
      attached && hasVisual
    }

    /** The guard of `_update_texcoords_buffer`, which tests `or` instead of `and`. */
    predicate UploadsTexcoords()
      reads this
    {
      attached || hasVisual
    }

    /** While uploads happen, every assigned array sits column-reversed in its buffer. */
    predicate InSync()
      reads this
    {
      UploadsCoords() ==>
        && (centercoords.Some? ==> centercoordsBuffer == ReverseColumns(centercoords.value))
        && (texcoords.Some? ==> texcoordsBuffer == ReverseColumns(texcoords.value))
    }

    constructor(antialias: real)
      ensures !attached && !hasVisual && this.antialias == antialias
      ensures centercoords.None? && texcoords.None?
      ensures centercoordsBuffer == [] && texcoordsBuffer == []
      ensures InSync()
    {
      this.antialias := antialias;
      attached, hasVisual := false, false;
      centercoords, texcoords := None, None;
      centercoordsBuffer, texcoordsBuffer := [], [];
    }

    /** The `centercoords` setter. */
    method SetCentercoords(a: seq<seq<real>>)
      modifies this
      ensures centercoords == Some(a) && texcoords == old(texcoords)
      ensures centercoordsBuffer == if old(UploadsCoords()) then ReverseColumns(a) else old(centercoordsBuffer)
      ensures texcoordsBuffer == old(texcoordsBuffer)
      ensures attached == old(attached) && hasVisual == old(hasVisual)
      ensures old(InSync()) ==> InSync()
    {
      centercoords := Some(a);
      if attached && hasVisual {
        centercoordsBuffer := ReverseColumns(a);
      }
    }

    /** The `texcoords` setter. */
    method SetTexcoords(a: seq<seq<real>>)
      modifies this
      ensures texcoords == Some(a) && centercoords == old(centercoords)
      ensures texcoordsBuffer == if old(UploadsTexcoords()) then ReverseColumns(a) else old(texcoordsBuffer)
      ensures centercoordsBuffer == old(centercoordsBuffer)
      ensures attached == old(attached) && hasVisual == old(hasVisual)
      ensures old(InSync()) ==> InSync()
    {
      texcoords := Some(a);
      if attached || hasVisual {
        texcoordsBuffer := ReverseColumns(a);
      }
    }
  }

  class Particles {
    var coords: seq<seq<real>>
    var width: nat
    var size: seq<real>
    var centercoords: seq<seq<real>>
    var texcoords: seq<seq<real>>
    /** The data handed to the `Surface` constructor. */
    var vertices: seq<seq<real>>
    var faces: seq<seq<int>>
    var values: seq<seq<real>>
    var filter: seq<Filters.Filter>
    const billboardFilter: BillboardsFilter

    /** One size per point, and one texture coordinate and one centre per vertex. */
    predicate Valid()
      reads this
    {
      Utils.Rectangular(coords, width) && |size| == |coords|
      && |texcoords| == 4 * |coords| && |centercoords| == 4 * |coords|
    }

    /** The fields hold what the constructor derived from its arguments. */
    predicate Holds(p: Prepared)
      reads this
    {
      && coords == p.coords && width == p.width && size == p.size
      && centercoords == p.centercoords && texcoords == p.mesh.texcoords
      && vertices == p.mesh.vertices && faces == p.mesh.faces && values == p.values
    }

    constructor(p: Prepared, filter: seq<Filters.Filter>, antialias: real)
      ensures Holds(p) && this.filter == filter
      ensures fresh(billboardFilter) && billboardFilter.antialias == antialias
      ensures !billboardFilter.attached && !billboardFilter.hasVisual
      ensures billboardFilter.centercoords.None? && billboardFilter.texcoords.None?
    {
      coords, width, size := p.coords, p.width, p.size;
      centercoords, texcoords := p.centercoords, p.mesh.texcoords;
      vertices, faces, values := p.mesh.vertices, p.mesh.faces, p.values;
      billboardFilter := new BillboardsFilter(antialias);
      this.filter := filter;
    }

    /**
     * `Particles(coords, size, values, filter, antialias)`: raises what
     * `Prepare` reports, otherwise holds the prepared arrays, a fresh
     * detached billboard filter and the normalised filter tuple.
     */
    static method Create(coords: NdArray, size: Utils.Size, values: Utils.Size,
                         filter: FilterValue<Filters.Filter>, antialias: real)
      returns (r: Result<Particles, LayerError>)
      requires WellFormed(coords) && Utils.WellShaped(size) && Utils.WellShaped(values)
      ensures var p := Prepare(coords, size, values);
        && (r.Err? <==> p.Err?)
        && (r.Err? ==> r.error == p.error)
        && (r.Ok? ==> fresh(r.value) && fresh(r.value.billboardFilter) && r.value.Valid()
                      && r.value.Holds(p.value) && r.value.filter == FilterTuple(filter)
                      && r.value.billboardFilter.antialias == antialias
                      && !r.value.billboardFilter.attached)
    {
      var p := Prepare(coords, size, values);
      if p.Err? {
        return Err(p.error);
      }
      PrepareShapes(coords, size, values, 0, 0);
      var layer := new Particles(p.value, [], antialias);
      layer.SetFilter(filter);
      return Ok(layer);
    }

    /** The `filter` setter. */
    method SetFilter(value: FilterValue<Filters.Filter>)
      modifies this
      ensures filter == FilterTuple(value)
      ensures coords == old(coords) && width == old(width) && size == old(size)
      ensures centercoords == old(centercoords) && texcoords == old(texcoords)
      ensures vertices == old(vertices) && faces == old(faces) && values == old(values)
    {
      filter := FilterTuple(value);
    }

    /** `self.ndim` of the surface: the width of a vertex row. */
    function Ndim(): nat
      reads this
    {
      if width > 2 then width else 2
    }

    /**
     * `_extent_data`: NaN for an empty layer; otherwise a box over `ndim`
     * axes holding every particle's extent. The size broadcast fails only
     * for points of width 0: `ndim` is the larger of the padded width and
     * 2, so every other width equals `ndim` or is 1.
     */
    function Extent(): (r: Result<Extrema, LayerError>)
      reads this
      requires Valid()
      ensures r.Err? <==> |coords| > 0 && width == 0
      ensures |coords| == 0 ==> r == Ok(AllNaN(Ndim()))
      ensures r.Ok? && |coords| > 0 ==> (width == Ndim() || width == 1) && Covers(r.value, coords, width, size, Ndim())
    {
      if |coords| > 0 && width != 0 then
        ExtentCovers(coords, width, size, Ndim());
        ExtentData(coords, width, size, Ndim())
      else
        ExtentData(coords, width, size, Ndim())
    }

    /**
     * `_update_billboard_filter`: only when the filter is attached and some
     * face is visible, the filter receives the texture coordinates and the
     * last three centre columns of the corners of the visible faces.
     */
    method UpdateBillboardFilter(viewFaces: seq<seq<int>>) returns (err: Option<LayerError>)
      requires Valid()
      modifies billboardFilter
      ensures var acts := old(billboardFilter.attached) && |FlattenFaces(viewFaces)| > 0;
        var b := VisibleBuffers(texcoords, centercoords, viewFaces);
        && (err.Some? <==> acts && b.Err?)
        && (err.Some? ==> err.value == IndexError)
        && (acts && b.Ok? ==>
              && billboardFilter.texcoords == Some(b.value.0)
              && billboardFilter.centercoords == Some(b.value.1)
              && billboardFilter.texcoordsBuffer ==
                   (if old(billboardFilter.UploadsTexcoords()) then ReverseColumns(b.value.0)
                    else old(billboardFilter.texcoordsBuffer))
              && billboardFilter.centercoordsBuffer ==
                   (if old(billboardFilter.UploadsCoords()) then ReverseColumns(b.value.1)
                    else old(billboardFilter.centercoordsBuffer)))
        && (!(acts && b.Ok?) ==> unchanged(billboardFilter))
        && billboardFilter.attached == old(billboardFilter.attached)
        && billboardFilter.hasVisual == old(billboardFilter.hasVisual)
        && (old(billboardFilter.InSync()) ==> billboardFilter.InSync())
    {
      var f := FlattenFaces(viewFaces);
      if billboardFilter.attached && |f| > 0 {
        var tex := Gather(texcoords, f);
        if tex.Err? {
          return Some(tex.error);
        }
        billboardFilter.SetTexcoords(tex.value);
        var centers := Gather(centercoords, f);
        billboardFilter.SetCentercoords(LastColumnsOfRows(centers.value, 3));
      }
      return None;
    }
  }
}
