/**
 * billboards.py: the `Billboards` layer and its own `BillboardsFilter`. The
 * layer prepares its arrays exactly as `Particles` does (`LayerCommon.Prepare`)
 * but keeps the extra filters it was given instead of a filter tuple, and
 * refreshes its billboard filter whenever that filter is attached, visible
 * faces or not. Its vertex stage is `BillboardShader.PlainVertex`.
 */
module BillboardsLayer {
  import opened Wrappers
  import Utils
  import opened LayerCommon
  import Filters

  /** Both setters return early unless the filter is attached and has a visual. */
  class BillboardsFilter {
    var attached: bool
    var hasVisual: bool
    var centercoords: Option<seq<seq<real>>>
    var texcoords: Option<seq<seq<real>>>
    var centercoordsBuffer: seq<seq<real>>
    var texcoordsBuffer: seq<seq<real>>

    /** The negation of the early-return test `not self._attached or self._visual is None`. */
    predicate Uploads()
      reads this
    {
      attached && hasVisual
    }

    /** While uploads happen, every assigned array sits column-reversed in its buffer. */
    predicate InSync()
      reads this
    {
      Uploads() ==>
        && (centercoords.Some? ==> centercoordsBuffer == ReverseColumns(centercoords.value))
        && (texcoords.Some? ==> texcoordsBuffer == ReverseColumns(texcoords.value))
    }

    constructor()
      ensures !attached && !hasVisual
      ensures centercoords.None? && texcoords.None?
      ensures centercoordsBuffer == [] && texcoordsBuffer == []
      ensures InSync()
    {
      attached, hasVisual := false, false;
      centercoords, texcoords := None, None;
      centercoordsBuffer, texcoordsBuffer := [], [];
    }

    /** The `centercoords` setter. */
    method SetCentercoords(a: seq<seq<real>>)
      modifies this
      ensures centercoords == Some(a) && texcoords == old(texcoords)
      ensures centercoordsBuffer == if old(Uploads()) then ReverseColumns(a) else old(centercoordsBuffer)
      ensures texcoordsBuffer == old(texcoordsBuffer)
      ensures attached == old(attached) && hasVisual == old(hasVisual)
      ensures old(InSync()) ==> InSync()
    {
      centercoords := Some(a);
      if !attached || !hasVisual {
        return;
      }
      centercoordsBuffer := ReverseColumns(a);
    }

    /** The `texcoords` setter. */
    method SetTexcoords(a: seq<seq<real>>)
      modifies this
      ensures texcoords == Some(a) && centercoords == old(centercoords)
      ensures texcoordsBuffer == if old(Uploads()) then ReverseColumns(a) else old(texcoordsBuffer)
      ensures centercoordsBuffer == old(centercoordsBuffer)
      ensures attached == old(attached) && hasVisual == old(hasVisual)
      ensures old(InSync()) ==> InSync()
    {
      texcoords := Some(a);
      if !attached || !hasVisual {
        return;
      }
      texcoordsBuffer := ReverseColumns(a);
    }
  }

  class Billboards {
    var coords: seq<seq<real>>
    var width: nat
    var size: seq<real>
    var centercoords: seq<seq<real>>
    var texcoords: seq<seq<real>>
    /** The data handed to the `Surface` constructor. */
    var vertices: seq<seq<real>>
    var faces: seq<seq<int>>
    var values: seq<seq<real>>
    /** `_other_filters`: attached next to the billboard filter when the layer joins a viewer. */
    const otherFilters: seq<Filters.Filter>
    const billboardFilter: BillboardsFilter

    /** One size per point, and one texture coordinate and one centre per vertex. */
    predicate Valid()
      reads this
    {
      Utils.Rectangular(coords, width) && |size| == |coords|
      && |texcoords| == 4 * |coords| && |centercoords| == 4 * |coords|
    }

    /** The fields hold what the constructor derived from its arguments. */
    predicate Holds(p: Prepared)
      reads this
    {
      && coords == p.coords && width == p.width && size == p.size
      && centercoords == p.centercoords && texcoords == p.mesh.texcoords
      && vertices == p.mesh.vertices && faces == p.mesh.faces && values == p.values
    }

    constructor(p: Prepared, filters: Option<seq<Filters.Filter>>)
      ensures Holds(p)
      ensures otherFilters == if filters.Some? then filters.value else []
      ensures fresh(billboardFilter) && !billboardFilter.attached && !billboardFilter.hasVisual
      ensures billboardFilter.centercoords.None? && billboardFilter.texcoords.None?
    {
      coords, width, size := p.coords, p.width, p.size;
      centercoords, texcoords := p.centercoords, p.mesh.texcoords;
      vertices, faces, values := p.mesh.vertices, p.mesh.faces, p.values;
      billboardFilter := new BillboardsFilter();
      otherFilters := if filters.Some? then filters.value else [];
    }

    /**
     * `Billboards(coords, size, values, filters)`: raises what `Prepare`
     * reports; otherwise holds the prepared arrays, a fresh detached
     * billboard filter, and the given filters (`None` becomes no filters).
     */
    static method Create(coords: NdArray, size: Utils.Size, values: Utils.Size,
                         filters: Option<seq<Filters.Filter>>)
      returns (r: Result<Billboards, LayerError>)
      requires WellFormed(coords) && Utils.WellShaped(size) && Utils.WellShaped(values)
      ensures var p := Prepare(coords, size, values);
        && (r.Err? <==> p.Err?)
        && (r.Err? ==> r.error == p.error)
        && (r.Ok? ==> fresh(r.value) && fresh(r.value.billboardFilter) && r.value.Valid()
                      && r.value.Holds(p.value)
                      && r.value.otherFilters == (if filters.Some? then filters.value else [])
                      && !r.value.billboardFilter.attached)
    {
      var p := Prepare(coords, size, values);
      if p.Err? {
        return Err(p.error);
      }
      PrepareShapes(coords, size, values, 0, 0);
      var layer := new Billboards(p.value, filters);
      return Ok(layer);
    }

    /** `self.ndim` of the surface: the width of a vertex row. */
    function Ndim(): nat
      reads this
    {
      if width > 2 then width else 2
    }

    /**
     * `_extent_data`: NaN for an empty layer; otherwise a box over `ndim`
     * axes holding every particle's extent. The size broadcast fails only
     * for points of width 0: `ndim` is the larger of the padded width and
     * 2, so every other width equals `ndim` or is 1.
     */
    function Extent(): (r: Result<Extrema, LayerError>)
      reads this
      requires Valid()
      ensures r.Err? <==> |coords| > 0 && width == 0
      ensures |coords| == 0 ==> r == Ok(AllNaN(Ndim()))
      ensures r.Ok? && |coords| > 0 ==> (width == Ndim() || width == 1) && Covers(r.value, coords, width, size, Ndim())
    {
      if |coords| > 0 && width != 0 then
        ExtentCovers(coords, width, size, Ndim());
        ExtentData(coords, width, size, Ndim())
      else
        ExtentData(coords, width, size, Ndim())
    }

    /**
     * `_update_billboard_filter`: whenever the filter is attached, it
     * receives the texture coordinates and the last three centre columns of
     * the corners of the visible faces, even when no face is visible.
     */
    method UpdateBillboardFilter(viewFaces: seq<seq<int>>) returns (err: Option<LayerError>)
      requires Valid()
      modifies billboardFilter
      ensures var acts := old(billboardFilter.attached);
        var b := VisibleBuffers(texcoords, centercoords, viewFaces);
        && (err.Some? <==> acts && b.Err?)
        && (err.Some? ==> err.value == IndexError)
        && (acts && b.Ok? ==>
              && billboardFilter.texcoords == Some(b.value.0)
              && billboardFilter.centercoords == Some(b.value.1)
              && billboardFilter.texcoordsBuffer ==
                   (if old(billboardFilter.Uploads()) then ReverseColumns(b.value.0)
                    else old(billboardFilter.texcoordsBuffer))
              && billboardFilter.centercoordsBuffer ==
                   (if old(billboardFilter.Uploads()) then ReverseColumns(b.value.1)
                    else old(billboardFilter.centercoordsBuffer)))
        && (!(acts && b.Ok?) ==> unchanged(billboardFilter))
        && billboardFilter.attached == old(billboardFilter.attached)
        && billboardFilter.hasVisual == old(billboardFilter.hasVisual)
        && (old(billboardFilter.InSync()) ==> billboardFilter.InSync())
    {
      if billboardFilter.attached {
        var f := FlattenFaces(viewFaces);
        var tex := Gather(texcoords, f);
        if tex.Err? {
          return Some(tex.error);
        }
        billboardFilter.SetTexcoords(tex.value);
        var centers := Gather(centercoords, f);
        billboardFilter.SetCentercoords(LastColumnsOfRows(centers.value, 3));
      }
      return None;
    }
  }
}
