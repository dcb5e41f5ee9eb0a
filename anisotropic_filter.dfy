/**
 * The CPU side of the `BillboardsFilter` of billboards_filter.py: the
 * per-vertex arrays it stores and the vertex buffers it uploads them to.
 * Every upload reverses the columns (`array[:, ::-1]`). Centres, sigmas and
 * quaternion vectors are uploaded only when the filter is attached AND has a
 * visual; texture coordinates when it is attached OR has a visual.
 *
 * `attached` and `hasVisual` are set by vispy when the filter is attached to
 * a visual; that step is not part of this model. An array that was never
 * assigned is `None` (reading it in Python raises AttributeError).
 */
module AnisotropicFilter {
  import opened Wrappers
  import opened LayerCommon

  class BillboardsFilter {
    var attached: bool
    var hasVisual: bool
    /** `vfunc['antialias']`: the level-of-detail cutoff of the vertex stage. */
    const antialias: real

    var centercoords: Option<seq<seq<real>>>
    var sigmas: Option<seq<seq<real>>>
    var quatvec: Option<seq<seq<real>>>
    var texcoords: Option<seq<seq<real>>>

    var centercoordsBuffer: seq<seq<real>>
    var sigmasBuffer: seq<seq<real>>
    var quatvecBuffer: seq<seq<real>>
    var texcoordsBuffer: seq<seq<real>>

    /** Whether a stored array reaches its buffer: the guard of `_update_coords_buffer` and its siblings. */
    predicate UploadsArrays()
      reads this
    {
      attached && hasVisual
    }

    /** The guard of `_update_texcoords_buffer`, which tests `or` instead of `and`. */
    predicate UploadsTexcoords()
      reads this
    {
      attached || hasVisual
    }

    /** While uploads happen, every assigned array sits column-reversed in its buffer. */
    predicate InSync()
      reads this
    {
      UploadsArrays() ==>
        && (centercoords.Some? ==> centercoordsBuffer == ReverseColumns(centercoords.value))
        && (sigmas.Some? ==> sigmasBuffer == ReverseColumns(sigmas.value))
        && (quatvec.Some? ==> quatvecBuffer == ReverseColumns(quatvec.value))
        && (texcoords.Some? ==> texcoordsBuffer == ReverseColumns(texcoords.value))
    }

    /** `BillboardsFilter(antialias)`: detached, nothing assigned, all buffers empty. */
    constructor(antialias: real)
      ensures !attached && !hasVisual && this.antialias == antialias
      ensures centercoords.None? && sigmas.None? && quatvec.None? && texcoords.None?
      ensures centercoordsBuffer == [] && sigmasBuffer == [] && quatvecBuffer == [] && texcoordsBuffer == []
      ensures InSync()
    {
      this.antialias := antialias;
      attached, hasVisual := false, false;
      centercoords, sigmas, quatvec, texcoords := None, None, None, None;
      centercoordsBuffer, sigmasBuffer, quatvecBuffer, texcoordsBuffer := [], [], [], [];
    }

    /** The `centercoords` setter. */
    method SetCentercoords(a: seq<seq<real>>)
      modifies this
      ensures centercoords == Some(a)
      ensures centercoordsBuffer == if old(UploadsArrays()) then ReverseColumns(a) else old(centercoordsBuffer)
      ensures attached == old(attached) && hasVisual == old(hasVisual)
      ensures sigmas == old(sigmas) && quatvec == old(quatvec) && texcoords == old(texcoords)
      ensures sigmasBuffer == old(sigmasBuffer) && quatvecBuffer == old(quatvecBuffer)
      ensures texcoordsBuffer == old(texcoordsBuffer)
      ensures old(InSync()) ==> InSync()
    {
      centercoords := Some(a);
      if attached && hasVisual {
        centercoordsBuffer := ReverseColumns(a);
      }
    }

    /** The `sigmas` setter. */
    method SetSigmas(a: seq<seq<real>>)
      modifies this
      ensures sigmas == Some(a)
      ensures sigmasBuffer == if old(UploadsArrays()) then ReverseColumns(a) else old(sigmasBuffer)
      ensures attached == old(attached) && hasVisual == old(hasVisual)
      ensures centercoords == old(centercoords) && quatvec == old(quatvec) && texcoords == old(texcoords)
      ensures centercoordsBuffer == old(centercoordsBuffer) && quatvecBuffer == old(quatvecBuffer)
      ensures texcoordsBuffer == old(texcoordsBuffer)
      ensures old(InSync()) ==> InSync()
    {
      sigmas := Some(a);
      if attached && hasVisual {
        sigmasBuffer := ReverseColumns(a);
      }
    }

    /** The `quatvec` setter. */
    method SetQuatvec(a: seq<seq<real>>)
      modifies this
      ensures quatvec == Some(a)
      ensures quatvecBuffer == if old(UploadsArrays()) then ReverseColumns(a) else old(quatvecBuffer)
      ensures attached == old(attached) && hasVisual == old(hasVisual)
      ensures centercoords == old(centercoords) && sigmas == old(sigmas) && texcoords == old(texcoords)
      ensures centercoordsBuffer == old(centercoordsBuffer) && sigmasBuffer == old(sigmasBuffer)
      ensures texcoordsBuffer == old(texcoordsBuffer)
      ensures old(InSync()) ==> InSync()
    {
      quatvec := Some(a);
      if attached && hasVisual {
        quatvecBuffer := ReverseColumns(a);
      }
    }

    /** The `texcoords` setter: its guard uploads as soon as either flag is set. */
    method SetTexcoords(a: seq<seq<real>>)
      modifies this
      ensures texcoords == Some(a)
      ensures texcoordsBuffer == if old(UploadsTexcoords()) then ReverseColumns(a) else old(texcoordsBuffer)
      ensures attached == old(attached) && hasVisual == old(hasVisual)
      ensures centercoords == old(centercoords) && sigmas == old(sigmas) && quatvec == old(quatvec)
      ensures centercoordsBuffer == old(centercoordsBuffer) && sigmasBuffer == old(sigmasBuffer)
      ensures quatvecBuffer == old(quatvecBuffer)
      ensures old(InSync()) ==> InSync()
    {
      texcoords := Some(a);
      if attached || hasVisual {
        texcoordsBuffer := ReverseColumns(a);
      }
    }
  }
}
