# napari-particles, modelled in Dafny

napari-particles draws point clouds in napari as camera-facing textured
quads ("billboards"). This project models its core and proves properties
about it:

- **Mesh generation** (`Utils`, utils.py). `generate_billboards_2d` builds
  four corner vertices, two triangles and four texture coordinates per
  particle. `_unit_quat_3to4` completes a quaternion's vector part with its
  scalar.
- **The vertex shaders** (`QuaternionShader`, `BillboardShader`). There are
  three versions:
  - the anisotropic filter of billboards_filter.py, with its quaternion and
    matrix helpers, the closed-form 2x2 `inverse`, the level-of-detail rule
    and the inverse projected covariance of a rotated Gaussian;
  - the older filter of particles.py;
  - the plain filter of billboards.py.
- **The filter objects** (`AnisotropicFilter`, `ParticlesLayer`,
  `BillboardsLayer`). Their array setters store an array and, under a
  guard, upload it column-reversed to a vertex buffer.
- **The two layers** (`ParticlesLayer.Particles`, `BillboardsLayer.Billboards`)
  and what they share (`LayerCommon`): input preparation with numpy's
  broadcasting, its error cases and the padding of 2-D points, the upload
  of the visible faces' buffers, the data extent, and the `filter` setter.
- **The fragment filters** (`Filters`, filters.py): the three intensity
  profiles, the `ShaderFilter` dispatch on the mode name, and `TextureFilter`.
- **The octree** (`Octrees`, Octree.h and OctreePoint.h): octant
  selection, leaf test, insertion with splitting.
- **The particle cloud** (`ParticleClouds`, myoctree.cpp). Input particles
  go into the octree. Each interior node gets an aggregate particle. All
  particles are flattened into position, size and value vectors.
- **The SMLM reader** (`SmlmLayout`, `Smlm`, examples/smlm_file.py). It
  covers the manifest walk, the numpy strided views over a table's bytes,
  the struct fallback (format string, record unpacking), and the per-column
  minimum, maximum and mean.

Reals stand for floats. Division by zero in GLSL produces non-finite
values; the model returns `None` where such a division reaches an output. A
non-finite on-screen distance fails every `<` test, so the
level-of-detail rule does not fire on it. `sqrt` and `exp` are a parameter
(`RealMath.Math`), and only their laws are assumed where a property needs
them. The vispy transforms are parameters of the vertex shaders.

Where the code and its description differ, the model follows the code:

- myoctree.cpp calls `tree->insert(&particles.back())` and reads a
  `data` slot that Octree.h does not declare. The model inserts each
  particle under its index as id. Each interior node's data slot is kept in
  an `Annotation` that holds the index of its aggregate particle.
- The `texcoords` setter of the anisotropic and the older filter guards its
  upload with `attached or visual is not None`, unlike its siblings' `and`.
  It is modelled as written.

## Model

| member | source | states |
|---|---|---|
| ArrayOps.RepeatAt | src/napari_particles/utils.py:30 | row i*k+j of `np.repeat(s, k, axis=0)` is row i of s, and the result has `|s|*k` rows |
| ArrayOps.TileAt | src/napari_particles/utils.py:39 | row i*|s|+j of `np.tile(s, (n, 1))` is row j of s, and the result has `n*|s|` rows |
| ArrayOps.FlattenAt | src/napari_particles/utils.py:24-25 | reshaping n blocks of width w puts element j of block i at i*w+j |
| ArrayOps.SeqMax | examples/smlm_file.py:65 | `max()` of a non-empty array is an element that no element exceeds |
| ArrayOps.SeqMin | examples/smlm_file.py:64 | `min()` of a non-empty array is an element that no element is below |
| LinAlg.DiagonalCongruence4 | src/napari_particles/billboards_filter.py:119-125 | A^T D A is symmetric for every A when D is diagonal |
| LinAlg.CongruenceCornerSymmetric | src/napari_particles/billboards_filter.py:138-139 | the upper-left 2x2 block of R^T C R is symmetric when C is |
| LinAlg.LengthOfQuotient | src/napari_particles/billboards_filter.py:154-160 | dividing a vector by l > 0 divides its GLSL length by l |
| LinAlg.NormalizedIsUnit | src/napari_particles/particles.py:55-56 | `normalize` of a vector of non-zero length has length 1 |
| LinAlg.LengthSquared3 | src/napari_particles/billboards_filter.py:101 | `length` is non-negative and its square is the dot product |
| QuaternionShader.Rot3 | src/napari_particles/billboards_filter.py:21-25 | `quaternion_rot3` leaves r unchanged when the vector part of q is zero |
| QuaternionShader.Rot4IsRot3 | src/napari_particles/billboards_filter.py:28-33 | `quaternion_rot4` rotates r.xyz exactly as `quaternion_rot3`, writes 0 last and ignores r.w |
| QuaternionShader.QuatMat3IsTransposedRot3 | src/napari_particles/billboards_filter.py:36-53 | the transpose of `quaternion_mat3(q)` applied to v equals `quaternion_rot3(q, v)` for every q and v |
| QuaternionShader.QuatMat4Block | src/napari_particles/billboards_filter.py:55-75 | `quaternion_mat4(q)` is `quaternion_mat3(q)` padded with last row and column (0, 0, 0, 1) |
| QuaternionShader.Inverse | src/napari_particles/billboards_filter.py:83-85 | the closed-form `inverse` is finite exactly when the determinant is non-zero |
| QuaternionShader.InverseIsInverse | src/napari_particles/billboards_filter.py:83-85 | when it exists, `inverse(m)` is a two-sided inverse of m |
| QuaternionShader.QuatMultAsWritten | src/napari_particles/billboards_filter.py:9-15 | `quaternion_mult` as written: the scalar part comes first in the result, the Hamilton vector part after it |
| QuaternionShader.QuatMultAsWrittenRotatesLayout | src/napari_particles/billboards_filter.py:13 | the as-written product by the identity moves q's scalar to the front, so (1, 0, 0, 0) comes back as (0, 1, 0, 0) |
| QuaternionShader.QuatMult | src/napari_particles/billboards_filter.py:9-15 | the Hamilton product in the scalar-last layout; its last entry is `p.w*q.w - dot(p.xyz, q.xyz)` |
| QuaternionShader.QuatMultIdentity | src/napari_particles/billboards_filter.py:9-15 | the identity quaternion is neutral on both sides of the corrected product |
| QuaternionShader.QuatMultNorm | src/napari_particles/billboards_filter.py:9-15 | the squared norm of a product is the product of the squared norms, so unit quaternions multiply to unit quaternions |
| BillboardShader.ScreenDistance | src/napari_particles/billboards_filter.py:164 | the on-screen distance is finite exactly when both w are non-zero, and then it is non-negative |
| BillboardShader.CenterDepth | src/napari_particles/billboards_filter.py:181-182 | `center.z/center.w` is finite exactly when the projected centre has w != 0 |
| BillboardShader.SharedFrame | src/napari_particles/billboards_filter.py:154-160 | dividing both camera vectors by `len` is finite exactly when camera_right has non-zero length |
| BillboardShader.SharedFrameLengths | src/napari_particles/billboards_filter.py:154-160 | after that division, right has length 1 and up has length |up| / |right| |
| BillboardShader.OwnFrame | src/napari_particles/particles.py:53-56 | normalising each camera vector is finite exactly when both have non-zero length |
| BillboardShader.OwnFrameLengths | src/napari_particles/particles.py:55-56 | after normalising, both camera vectors have length 1 |
| BillboardShader.FramesAgreeIffEqualLengths | src/napari_particles/billboards_filter.py:154-160 | the shared division and the per-vector `normalize` agree if and only if the two camera vectors are equally long |
| BillboardShader.Clamp | src/napari_particles/billboards_filter.py:172 | `clamp(x, lo, hi)` lies in [lo, hi] and is x when x already does |
| BillboardShader.RescaleTexProperties | src/napari_particles/billboards_filter.py:172 | the texture rescale fixes the centre (.5, .5), is the identity at scale 1, saturates at 10, and moves every coordinate away from the centre by a factor between 1 and 10 |
| BillboardShader.LodScaleAboveOne | src/napari_particles/billboards_filter.py:169-171 | when the level-of-detail rule fires at a positive distance, `dist_cutoff/dist` exceeds 1, so quads only grow |
| BillboardShader.ShaderQuatIsUnit | src/napari_particles/billboards_filter.py:101-103 | for length(quatvec) <= 1 the rebuilt quaternion is a unit quaternion with w >= 0 |
| BillboardShader.ShaderQuatMatchesUnitQuat3To4 | src/napari_particles/billboards_filter.py:101-103 | the shader's quaternion is `_unit_quat_3to4(quatvec)` with the scalar moved from first to last |
| BillboardShader.Covariance | src/napari_particles/billboards_filter.py:119-125 | `transpose(quatmat)*cov*quatmat` is symmetric |
| BillboardShader.ScreenMatrix | src/napari_particles/billboards_filter.py:128-139 | `mat2(transpose(Rmat)*mat3(cov)*Rmat)` is symmetric when cov is, for every camera |
| BillboardShader.InverseOfSymmetric | src/napari_particles/billboards_filter.py:84 | the inverse of a symmetric 2x2 matrix is symmetric |
| BillboardShader.CovarianceInvSymmetric | src/napari_particles/billboards_filter.py:119-140 | the inverse covariance the vertex stage hands on is symmetric whenever it exists |
| BillboardShader.AnisotropicVertex | src/napari_particles/billboards_filter.py:95-190 | the vertex stage's output is finite exactly when the camera frame is and the level-of-detail rule does not fire at distance 0; a point with w = 0 has no finite distance, so the rule does not fire. Position, swapped and possibly rescaled texcoord, scale intensity (a scale > 1 only when the rule fires) and inverse covariance each follow the shader's formulas; the depth is `center.z/center.w`, finite iff the centre's w is non-zero |
| BillboardShader.OwnLengthVertex | src/napari_particles/particles.py:33-87 | the older vertex stage: its own-length frame, the same failure cases (a w = 0 point skips the rule), the quad enlarged when the rule fires, texcoords passed through unchanged and unswapped, and the depth finite iff the centre's w is non-zero |
| BillboardShader.PlainVertex | src/napari_particles/billboards.py:31-54 | the plain vertex stage places the corner along the normalised camera vectors and passes texcoords through; it is finite exactly when both camera vectors have non-zero length |
| AnisotropicFilter.BillboardsFilter.constructor | src/napari_particles/billboards_filter.py:206-227 | a new filter is detached, has nothing assigned, has all four buffers empty and keeps `antialias` |
| AnisotropicFilter.BillboardsFilter.SetCentercoords | src/napari_particles/billboards_filter.py:234-241 | stores the array; the buffer becomes its column reversal iff attached and a visual is set; nothing else changes; buffers stay in sync |
| AnisotropicFilter.BillboardsFilter.SetSigmas | src/napari_particles/billboards_filter.py:248-255 | the same for `sigmas` |
| AnisotropicFilter.BillboardsFilter.SetQuatvec | src/napari_particles/billboards_filter.py:261-268 | the same for `quatvec` |
| AnisotropicFilter.BillboardsFilter.SetTexcoords | src/napari_particles/billboards_filter.py:275-282 | the same for `texcoords`, but uploaded when attached OR a visual is set |
| Filters.ProfileNamed | src/napari_particles/filters.py:42-74 | a mode names a profile iff it is 'gaussian', 'bubbles' or 'bubbles2', and then the profile carries that name |
| Filters.ProfileNameRoundTrip | src/napari_particles/filters.py:42-74 | every profile is found again under its own name |
| Filters.GaussianProperties | src/napari_particles/filters.py:44-48 | the gaussian profile depends on length(x) only, is 1 at the centre and lies in (0, 1] |
| Filters.BubblesProperties | src/napari_particles/filters.py:51-61 | bubbles is 0 from r = .9 on, lies in [0, 1] inside, and both branches reach 1 at r = .8 |
| Filters.Bubbles2Properties | src/napari_particles/filters.py:64-72 | bubbles2 is at least r*r/.81 inside r0, the gaussian ring outside, and always lies in (0, 1] |
| Filters.ProfilePoint | src/napari_particles/filters.py:82 | `2*(v_texcoord-.5)` maps the unit square into [-1, 1]^2 and the texture centre to the origin |
| Filters.ProfileInUnitInterval | src/napari_particles/filters.py:42-74 | every profile takes values in [0, 1] |
| Filters.ShadeAttenuates | src/napari_particles/filters.py:81-84 | `gl_FragColor *= val` never raises a non-negative channel nor makes it negative |
| Filters.Hook | src/napari_particles/filters.py:78 | `fhook` defaults to 'post' and is otherwise the caller's |
| Filters.NewShaderFilter | src/napari_particles/filters.py:76-90 | a known mode gets the profiled fragment code of that profile; any other mode string becomes the fragment code verbatim; the hook as `Hook` says |
| Filters.TextureFilter.Create | src/napari_particles/filters.py:15-27 | ValueError iff the texture is not 3-dimensional; otherwise a fresh filter whose sampler shows the texture, with the hook `Hook` picks |
| Filters.TextureFilter.SetTexture | src/napari_particles/filters.py:34-37 | the setter stores the texture and rebinds the sampler to it, with no shape check |
| Utils.Sizes | src/napari_particles/utils.py:17-22 | a scalar size is broadcast to n entries; a 0-d array size fails with TypeError at `len`; an array size succeeds iff its shape is (n,), and then gives its own entries |
| Utils.GenerateBillboards2D | src/napari_particles/utils.py:6-43 | fails exactly as the sizes do; otherwise 4 vertices, 2 faces and 4 texcoords per particle |
| Utils.VertexAt | src/napari_particles/utils.py:24-31 | vertex 4i+k is the leading columns of coords[i] (all but the last two, when there are more than two) followed by size_i times corner k |
| Utils.Vertices | src/napari_particles/utils.py:24-31 | the vertex table has 4 rows per particle |
| Utils.CornerBlockAt | src/napari_particles/utils.py:24 | corner k of particle i is size_i times the unit corner k |
| Utils.VertexWidth | src/napari_particles/utils.py:29-31 | every vertex has max(d, 2) columns |
| Utils.ZeroSizeCollapses | src/napari_particles/utils.py:24 | a particle of size 0 has all four corners at (0, 0) in the last two columns |
| Utils.FacesOfParticle | src/napari_particles/utils.py:41-42 | particle i's triangles are (4i, 4i+1, 4i+2) and (4i, 4i+3, 4i+2) |
| Utils.Faces | src/napari_particles/utils.py:41-42 | the face table has 2 triangles per particle |
| Utils.FaceIndicesInRange | src/napari_particles/utils.py:41-42 | every face has three vertex indices, all below 4n |
| Utils.TexcoordAt | src/napari_particles/utils.py:34-39 | texcoord 4i+k is texture corner k |
| Utils.UnitQuat3To4 | src/napari_particles/utils.py:54-56 | defined exactly when the squared norm is at most 1; the result is the scalar followed by p |
| Utils.UnitQuat3To4IsUnit | src/napari_particles/utils.py:54-56 | the completed quaternion has norm 1 and a non-negative scalar |
| LayerCommon.RepeatRows | src/napari_particles/particles.py:189 | `np.repeat(values, 4, axis=0)` fails on a 0-d array and otherwise has 4 rows per entry |
| LayerCommon.PointsAt | src/napari_particles/particles.py:172-183 | the points are the rows of coords, with a zero z in front when they have 2 columns |
| LayerCommon.Points | src/napari_particles/particles.py:172-183 | one point per row of coords, all of the padded width |
| LayerCommon.RowsAt | src/napari_particles/particles.py:172 | entry (i, j) of the reshaped coordinates is flat entry i*d+j |
| LayerCommon.PrepareErrors | src/napari_particles/particles.py:167-189 | each error of the layer constructor (TypeError, ValueError, AssertionError, numpy's AxisError) happens exactly for the inputs listed |
| LayerCommon.PrepareShapes | src/napari_particles/particles.py:172-193 | a successful preparation holds the padded points, the mesh of `generate_billboards_2d`, and centre coordinates repeated 4 times per particle |
| LayerCommon.PrepareValues | src/napari_particles/particles.py:173-189 | values are broadcast and repeated: vertex 4i+k carries particle i's value |
| LayerCommon.Gather | src/napari_particles/particles.py:206 | fancy indexing succeeds iff every index is in [-n, n), and then picks each row with negative indices wrapped |
| LayerCommon.Wrap | src/napari_particles/particles.py:206 | a negative index counts from the end and lands in range |
| LayerCommon.LastColumns | src/napari_particles/particles.py:207 | `row[-k:]` holds the last min(k, len) entries, in order |
| LayerCommon.LastColumnsOfRows | src/napari_particles/particles.py:207 | `a[:, -k:]` takes the last columns of every row |
| LayerCommon.VisibleBuffers | src/napari_particles/particles.py:204-207 | the buffers for the visible faces exist iff every flattened face index is in range, with one row per flattened index |
| LayerCommon.VisibleBuffersAt | src/napari_particles/particles.py:204-207 | corner c of visible face j gets the texcoord and the last three centre columns of its vertex |
| LayerCommon.ExtentData | src/napari_particles/particles.py:222-237 | no points give an all-NaN extent; otherwise the size broadcast fails unless the width is ndim or 1, and the extent has ndim columns |
| LayerCommon.ExtentCovers | src/napari_particles/particles.py:229-237 | for non-empty, broadcastable points the extent is a box of ndim axes holding every particle's extent on every axis |
| LayerCommon.ExtentBounds | src/napari_particles/particles.py:229-237 | each axis's min and max bound every point's coordinate -/+ half its size (only on the last two axes), both are attained, and min <= max for non-negative sizes |
| LayerCommon.FilterTupleStable | src/napari_particles/particles.py:214-220 | setting the filter again to its own tuple changes nothing; the tuple has 0, 1 or as many entries as given, and holds exactly the filters given |
| LayerCommon.ReverseColumnsInvolution | src/napari_particles/billboards_filter.py:241 | reversing the columns twice gives the array back |
| BillboardsLayer.BillboardsFilter.constructor | src/napari_particles/billboards.py:29-78 | a new plain filter is detached with nothing assigned and empty buffers |
| BillboardsLayer.BillboardsFilter.SetCentercoords | src/napari_particles/billboards.py:87-96 | stores the array and uploads it reversed only when attached and a visual is set; nothing else changes |
| BillboardsLayer.BillboardsFilter.SetTexcoords | src/napari_particles/billboards.py:103-112 | the same for texcoords |
| BillboardsLayer.Billboards.Create | src/napari_particles/billboards.py:127-156 | the layer is built iff the inputs prepare, with the same error otherwise; it holds the prepared arrays, a fresh detached filter and the other filters (none when None) |
| BillboardsLayer.Billboards.Extent | src/napari_particles/billboards.py:170-185 | an empty layer has an all-NaN extent; the size broadcast fails only for points of width 0, since ndim is the larger of the padded width and 2 and every other width equals ndim or is 1; otherwise the extent is a box that holds every particle |
| BillboardsLayer.Billboards.UpdateBillboardFilter | src/napari_particles/billboards.py:163-167 | when attached, the visible buffers are uploaded through the setters (IndexError when a face index is out of range); otherwise the filter is untouched |
| ParticlesLayer.BillboardsFilter.constructor | src/napari_particles/particles.py:27-117 | a new older filter is detached, empty and keeps `antialias` |
| ParticlesLayer.BillboardsFilter.SetCentercoords | src/napari_particles/particles.py:126-133 | stores the array and uploads it reversed when attached and a visual is set |
| ParticlesLayer.BillboardsFilter.SetTexcoords | src/napari_particles/particles.py:140-147 | stores the array and uploads it reversed when attached OR a visual is set |
| ParticlesLayer.Particles.Create | src/napari_particles/particles.py:167-196 | built iff the inputs prepare; holds the prepared arrays, the filter tuple and a fresh detached filter with the given antialias |
| ParticlesLayer.Particles.SetFilter | src/napari_particles/particles.py:214-220 | the filter setter stores the filter tuple and changes nothing else |
| ParticlesLayer.Particles.Extent | src/napari_particles/particles.py:222-237 | an empty layer has an all-NaN extent; the size broadcast fails only for points of width 0, since ndim is the larger of the padded width and 2 and every other width equals ndim or is 1; otherwise the extent is a box that holds every particle |
| ParticlesLayer.Particles.UpdateBillboardFilter | src/napari_particles/particles.py:203-207 | uploads only when attached and some face is visible; IndexError for an out-of-range face index; otherwise the filter is untouched |
| Octrees.Octant | src/napari_particles/octree/lib/Octree.h:51-57 | the octant is below 8, and its bits 4, 2, 1 are set iff x, y, z are not below the origin |
| Octrees.ChildOriginInOctant | src/napari_particles/octree/lib/Octree.h:97-104 | the centre of child i lies in octant i of its parent |
| Octrees.OctantContains | src/napari_particles/octree/lib/Octree.h:97-104 | a point inside a node is inside the child box of its octant |
| Octrees.NewOctree | src/napari_particles/octree/lib/Octree.h:32-37 | a new node is a valid empty leaf over the given box, with id -1 and position 0 |
| Octrees.IsLeafNode | src/napari_particles/octree/lib/Octree.h:59-71 | testing child 0 alone decides that all eight children are absent, or all present, in a valid tree |
| Octrees.StoresSomething | src/napari_particles/octree/lib/Octree.h:68-70 | a valid node stores a point iff it is interior or holds an id |
| Octrees.PointInChild | src/napari_particles/octree/lib/Octree.h:113-116 | a point stored below an interior node is stored in the child of its octant |
| Octrees.Split | src/napari_particles/octree/lib/Octree.h:93-104 | splitting makes an interior node with id -1 and eight empty children over the octant boxes |
| Octrees.StoredInLeaf | src/napari_particles/octree/lib/Octree.h:77-81 | an empty leaf takes the point: still valid, one more stored pair |
| Octrees.Subdivide | src/napari_particles/octree/lib/Octree.h:90-109 | subdividing a full leaf keeps its contents, now in the child of its point's octant, under an interior node |
| Octrees.Forward | src/napari_particles/octree/lib/Octree.h:112-117 | an interior node passes the point to the child of its octant and changes no other child |
| Octrees.SplitInsert | src/napari_particles/octree/lib/Octree.h:83-110 | the split branch stores the pair or leaves the leaf as it was |
| Octrees.Insert | src/napari_particles/octree/lib/Octree.h:73-118 | insertion keeps the tree valid over the same box. It adds exactly (id, point) when it succeeds, refuses a point the tree already holds, and leaves the tree unchanged when it fails; an empty leaf always takes the point (when other points succeed: `InsertSucceeds`, `InsertEventually`) |
| Octrees.SeparatedLater | src/napari_particles/octree/lib/Octree.h:97-104 | two points apart within some number of splits stay apart within more |
| Octrees.SeparatedEventually | src/napari_particles/octree/lib/Octree.h:97-104 | two distinct points end up in different child boxes after enough splits |
| Octrees.PlaceableLater | src/napari_particles/octree/lib/Octree.h:73-118 | a larger split budget never takes room away from a point |
| Octrees.PlaceableEventually | src/napari_particles/octree/lib/Octree.h:73-118 | a point inside the box and distinct from every stored point has room within some budget |
| Octrees.InsertForwards | src/napari_particles/octree/lib/Octree.h:112-117 | an interior node takes the point iff the child of its octant does |
| Octrees.InsertSucceeds | src/napari_particles/octree/lib/Octree.h:73-118 | `insert` succeeds on a point inside the box that is separated from every stored point within the budget |
| Octrees.InsertStores | src/napari_particles/octree/lib/Octree.h:73-118 | then the node stores exactly its old pairs plus (id, point) |
| Octrees.InsertEventually | src/napari_particles/octree/lib/Octree.h:73-118 | a point inside the box and distinct from every stored point is stored, under its id, by every budget from some bound on |
| Octrees.OctreePoint.constructor | src/napari_particles/octree/lib/OctreePoint.h:10 | the point is made with the given position |
| Octrees.OctreePoint.GetPosition | src/napari_particles/octree/lib/OctreePoint.h:11 | returns the stored position |
| Octrees.OctreePoint.SetPosition | src/napari_particles/octree/lib/OctreePoint.h:12 | replaces the stored position |
| ParticleClouds.Aggregate | src/napari_particles/octree/lib/myoctree.cpp:25-44 | the loop of the aggregate constructor: sizes summed, values and positions averaged |
| ParticleClouds.AggregateOfOne | src/napari_particles/octree/lib/myoctree.cpp:25-44 | one part aggregates to itself under the new id |
| ParticleClouds.AggregateValueBetween | src/napari_particles/octree/lib/myoctree.cpp:31-41 | the aggregate's value lies between the least and the greatest of its parts' values |
| ParticleClouds.AggregateInBox | src/napari_particles/octree/lib/myoctree.cpp:31-43 | the aggregate's position lies in every axis-aligned box that holds all its parts |
| ParticleClouds.AggregatePartsExist | src/napari_particles/octree/lib/myoctree.cpp:128-135 | every interior node of a valid tree has at least one child with a particle, so the aggregate never divides by zero |
| ParticleClouds.GatherParts | src/napari_particles/octree/lib/myoctree.cpp:128-133 | collects the particles of the children that have one, in child order |
| ParticleClouds.ChildParticles | src/napari_particles/octree/lib/myoctree.cpp:128-133 | at most one part per child visited |
| ParticleClouds.ChildParticlesHas | src/napari_particles/octree/lib/myoctree.cpp:129-133 | every child's particle is among the gathered parts |
| ParticleClouds.Intermediates | src/napari_particles/octree/lib/myoctree.cpp:111-141 | a leaf adds nothing; an interior node adds its children's aggregates first and then its own, which its data slot names; ids stay equal to indices |
| ParticleClouds.IntermediatesExtends | src/napari_particles/octree/lib/myoctree.cpp:111-141 | adding intermediates only appends: the particles already there are unchanged |
| ParticleClouds.NewParticlesAt | src/napari_particles/octree/lib/myoctree.cpp:94-98 | input particle i has id i, the i-th point of the buffer, value 1 and size 10 |
| ParticleClouds.NewParticles | src/napari_particles/octree/lib/myoctree.cpp:94-98 | the loop makes one particle per point |
| ParticleClouds.InsertAll | src/napari_particles/octree/lib/myoctree.cpp:94-104 | inserting the inputs one by one keeps the tree valid over the same box |
| ParticleClouds.InsertInputs | src/napari_particles/octree/lib/myoctree.cpp:94-104 | the input loop appends the new particles, inserts them in order, and stores each added pair under the particle's index; when the inputs have room, the tree holds its old pairs plus every input point under its index |
| ParticleClouds.InputPairOf | src/napari_particles/octree/lib/myoctree.cpp:94-104 | every pair the loop adds is input point i under index base+i, for some i below the count |
| ParticleClouds.InsertAllStores | src/napari_particles/octree/lib/myoctree.cpp:94-104 | when the inputs have room, inserting them one by one stores every input point under its own index on top of the old pairs |
| ParticleClouds.FuelSuffices | src/napari_particles/octree/lib/myoctree.cpp:94-104 | over an empty tree, distinct inputs inside the box have room within some split budget |
| ParticleClouds.InitStoresAll | src/napari_particles/octree/lib/myoctree.cpp:85-104 | over a new cloud's empty tree, distinct inputs inside the box all end up in the tree, input i under index i, for a large enough budget |
| ParticleClouds.ColumnsLayout | src/napari_particles/octree/lib/myoctree.cpp:143-155 | particle k's position sits at 3k..3k+2 as z, y, x; its size and value at k |
| ParticleClouds.ParticleCloud.constructor | src/napari_particles/octree/lib/myoctree.cpp:57-60 | a new cloud has an empty tree over the box and no particles |
| ParticleClouds.ParticleCloud.Init | src/napari_particles/octree/lib/myoctree.cpp:85-109 | `init` inserts the inputs (all of them, each under its index, when they have room), adds the intermediates and appends all particles to the vectors |
| ParticleClouds.ParticleCloud.AddInputs | src/napari_particles/octree/lib/myoctree.cpp:94-104 | the input loop of `init`; every input is stored under its index when the inputs have room |
| ParticleClouds.ParticleCloud.InsertIntermediates | src/napari_particles/octree/lib/myoctree.cpp:111-141 | the recursion leaves annotation and particles as `Intermediates` says |
| ParticleClouds.ParticleCloud.AddIntermediates | src/napari_particles/octree/lib/myoctree.cpp:107 | `insertIntermediates(tree)` on the whole tree |
| ParticleClouds.ParticleCloud.PopulateVectors | src/napari_particles/octree/lib/myoctree.cpp:143-155 | appends the positions (z, y, x), sizes and values of all particles |
| ParticleClouds.ParticleCloud.Foo | src/napari_particles/octree/lib/myoctree.cpp:66-83 | every entry of the buffer becomes 10 |
| SmlmLayout.ParseDtype | examples/smlm_file.py:9-10 | a name parses to the dtype of that name, and fails exactly when no dtype has that name |
| SmlmLayout.ParseDtypeName | examples/smlm_file.py:9-10 | each dtype is found again under its own name |
| SmlmLayout.CodeAgreesWithWidth | examples/smlm_file.py:9-10 | each dtype's struct code reads back as that dtype, and its standard struct size equals its `dtype2length` |
| SmlmLayout.Width | examples/smlm_file.py:10 | `dtype2length` is 1, 4 or 8 bytes |
| SmlmLayout.CodeDtype | examples/smlm_file.py:9 | a struct code reads back as the dtype that has it |
| SmlmLayout.OffsetsIncrease | examples/smlm_file.py:44-49 | each column starts where the previous one ends, and the last one ends at rowLen |
| SmlmLayout.CellsDisjoint | examples/smlm_file.py:44-49 | with stride rowLen, two different (row, column) cells of the views never overlap |
| SmlmLayout.DigitsRoundTrip | examples/smlm_file.py:54 | `str(n)` is all digits and reads back as n |
| SmlmLayout.NatToString | examples/smlm_file.py:54 | `str(n)` is never empty |
| SmlmLayout.FormatStringSnoc | examples/smlm_file.py:52-54 | each step of the loop appends `str(shape[i])` and the struct code of `dtype[i]` |
| SmlmLayout.FormatReads | examples/smlm_file.py:52-56 | struct reads the built format string as the (count, dtype) items, and rejects it when a count is negative |
| SmlmLayout.FormatRoundTrip | examples/smlm_file.py:52-56 | with non-negative counts the format string reads back as exactly the format's items |
| SmlmLayout.NegativeCountUnreadable | examples/smlm_file.py:54-56 | a negative count makes the format string unreadable |
| SmlmLayout.StructSizeOfOnes | examples/smlm_file.py:39-41 | with all counts 1 the struct size is rowLen |
| SmlmLayout.UnpackIsFields | examples/smlm_file.py:56-59 | with all counts 1, unpacking a record reads its fields column by column |
| SmlmLayout.Fields | examples/smlm_file.py:56-59 | a record of rowLen bytes yields one value per column |
| SmlmLayout.UnpackOnes | examples/smlm_file.py:56-59 | with all counts 1, unpacked value j of a record is the bytes of column j decoded |
| Smlm.ParseDtypes | examples/smlm_file.py:39-41 | the lookup succeeds iff every dtype name is known, keeping the names in order; otherwise the error names the first unknown dtype |
| Smlm.ParseRow | examples/smlm_file.py:39-41 | the first loop parses the dtypes and sums their widths into rowLen |
| Smlm.ViewAt | examples/smlm_file.py:48 | row r of a strided view is the cell at r*stride + offset, decoded |
| Smlm.View | examples/smlm_file.py:48 | a strided view has `rows` entries |
| Smlm.MakeViews | examples/smlm_file.py:44-49 | the numpy loop returns the dict of views, or the first error (negative rows, a view past the end of the buffer) |
| Smlm.ViewsOk | examples/smlm_file.py:47-49 | the views exist iff there are no columns, or rows >= 0 and every view fits in the buffer |
| Smlm.ViewsKeys | examples/smlm_file.py:47-49 | the dict of views has exactly the headers as keys |
| Smlm.ViewsColumn | examples/smlm_file.py:47-49 | a header's entry is the view of the last column with that name |
| Smlm.ViewsNeedWholeTable | examples/smlm_file.py:48 | for rows > 0 and at least one column, the views exist iff rows*rowLen bytes are present |
| Smlm.EmptyLists | examples/smlm_file.py:57 | the fallback starts with an empty list for every header |
| Smlm.BuildFormat | examples/smlm_file.py:52-54 | the loop builds the format string |
| Smlm.AppendValues | examples/smlm_file.py:60-61 | value j is appended to header j's list; an error (Python's IndexError) when there are fewer values than headers |
| Smlm.AppendRowAt | examples/smlm_file.py:60-61 | appending a record adds exactly value j to header j's list when j is not yet passed |
| Smlm.AppendRow | examples/smlm_file.py:60-61 | appending a record keeps the table's keys |
| Smlm.RowsFrom | examples/smlm_file.py:58-61 | the chunk loop from byte i keeps the table's keys when it succeeds |
| Smlm.UnpackRows | examples/smlm_file.py:52-61 | the fallback path returns the table `Unpacked` describes |
| Smlm.UnpackChunks | examples/smlm_file.py:58-61 | the chunk loop returns the table `RowsFrom` describes from byte 0 |
| Smlm.RowsFromOnes | examples/smlm_file.py:58-61 | with all counts 1 and a whole number of records, the chunk loop appends to each header exactly the numpy view of its column |
| Smlm.UnpackedMatchesViews | examples/smlm_file.py:44-61 | with all counts 1 and a whole number of records, the fallback and the numpy path give every header the same column |
| Smlm.UnpackedNeedsWholeRecords | examples/smlm_file.py:56-59 | a fallback that succeeds on non-empty bytes had non-negative counts and a positive rowLen, and either its records are rowLen long and fill the bytes exactly, or the bytes are a single short record of the struct's size |
| Smlm.MeanBetween | examples/smlm_file.py:66 | the mean of a non-empty column lies between any bounds of its values |
| Smlm.SumConcat | examples/smlm_file.py:66 | the sum of a concatenation is the sum of the parts |
| Smlm.MeanOfConstant | examples/smlm_file.py:66 | a column of one repeated value has that value as its mean |
| Smlm.Summarize | examples/smlm_file.py:63-67 | defined iff no column is empty; each min and max is a value of the column that bounds all of them, each avg is the column's mean, and min <= avg <= max |
| Smlm.LoadColumns | examples/smlm_file.py:32-62 | the table's columns: matching lengths, known dtypes, then the numpy views or the unpacked lists |
| Smlm.LoadedColumns | examples/smlm_file.py:32-62 | loaded columns hold every header of the format |
| Smlm.LoadTable | examples/smlm_file.py:32-68 | the columns of `LoadColumns` and their min, max and mean as `Summarize` states, the fallback keeping its lists |
| Smlm.LoadTableAsWritten | examples/smlm_file.py:46-62 | as written: with numpy as `LoadTable`; without numpy every table that unpacked ends in a NameError at line 62, and the others in their own error |
| Smlm.EntryLoaded | examples/smlm_file.py:17-89 | loading an entry changes only its `data`, only for a table found in the archive, which then holds every header's column with min <= avg <= max |
| Smlm.ReadSmlmFile | examples/smlm_file.py:11-92 | no manifest or a version other than 0.2 is an error. Otherwise the entries are loaded in order, tables through the corrected `LoadTable`, and the first failing entry ends the call with its error; else the manifest comes back with every entry loaded and the same list of entries |

## Left out

- Rendering and UI plumbing is not modelled. This covers `_attach`,
  `add_to_viewer`, `get_visual`, `_set_view_slice`, napari's `Surface`
  constructor and its keyword defaults, and the fragment stages' depth
  writes. The transforms `_attach` binds are parameters of the vertex
  stages.
- Floats are reals. There is no rounding and no float32 conversion.
  Only divisions by zero become `None`. `sqrt` and `exp` are parameters
  with stated laws.
- BillboardShader.AnisotropicVertex: a negative argument to `sqrt` is not
  NaN in the model. `sqrt(1 - dot(quatvec, quatvec))` for a quatvec longer
  than 1 (billboards_filter.py:101-102) and `sqrt(sigmas)` for a negative
  sigma (billboards_filter.py:121-123) give NaN in GLSL, but the model
  passes them to the `sqrt` parameter, whose laws say nothing below 0, so
  the stage can still return a value there.
- The scipy-based helpers of utils.py (`unit_quat_random`,
  `unit_quat_scale`, `unit_quat_multiply`, `rotvec_to_quatvec`) are out of
  scope. They call a library that is not part of this model.
- The 'sphere' and 'particle' profiles are not modelled. They are not part
  of the `_shader_functions` table modelled here.
- Octree nodes are values: `insert` returns the updated node. Pointers, in
  place update and aliasing between nodes are not captured. The octree
  destructor, the copy constructor (which leaves `children` unset) and the
  default `OctreePoint()` (which leaves the position unset) are not
  modelled.
- Octrees.Insert carries a `fuel` bound on consecutive splits. The source
  recursion does not end when two points never separate: two equal points,
  and also two distinct points outside the root box on the same side of
  it, since the child origins converge on the box's corner and both points
  keep falling into the same octant. The model then refuses the point and
  leaves the tree unchanged.
- ParticleClouds.Aggregate requires at least one part. The source would
  divide by zero on none, which `AggregatePartsExist` shows never happens
  for the nodes the source aggregates.
- A node's `data` slot points to its aggregate particle
  (myoctree.cpp:131,137). In the model the node's `Annotation` holds that
  particle's index instead of a `Particle *`. `reinterpret_cast` and the
  NULL tests on data slots are replaced by the `Annotation`.
- The index model assumes particles never move. In the source `particles`
  is a `std::vector<Particle>` with no reserved capacity (myoctree.cpp:51),
  so each `push_back` (myoctree.cpp:98, 136) may reallocate it and leave
  dangling the pointers already handed to the tree (myoctree.cpp:103) and
  stored in `data` slots (myoctree.cpp:137). A later split (Octree.h:90-104)
  or aggregate (myoctree.cpp:25-44) may then read through a stale pointer.
  The model computes what the code means with stable addresses; that
  undefined behaviour is not modelled.
- ParticleClouds.InsertInputs, ParticleClouds.ParticleCloud.AddInputs and
  ParticleClouds.ParticleCloud.Init require at least 3n floats.
  The source reads point i from floats 3i..3i+2 of an n-row buffer
  whatever its row width; rows narrower than 3 make it read past the end
  of the buffer, which is not modelled.
- The `print` calls of the plain filter's buffer updates
  (billboards.py:95, 111) are not modelled.
- Console output (`verbose`, `std::cout`), pybind11 bindings, `__repr__`
  and the `getPos`/`getSize`/`getValue` array copies are not modelled.
- ParticleClouds.ParticleCloud.Foo: the element count is an unbounded
  product of the shape. The source's `int n` can overflow for huge shapes;
  that is not modelled.
- The SMLM archive is a map from member names to bytes, and the parsed
  manifest is a parameter. Zip and JSON decoding, and missing JSON keys,
  are not modelled. Whether `import numpy` succeeds is a parameter.
- The image branch of `readSmlmFile` (PIL) is not modelled. Entries that
  are not tables are passed through unchanged. That branch tests
  `file_format['mode']` (smlm_file.py:73), a name only a preceding table
  entry binds: an image listed before any table raises UnboundLocalError, and one
  after a table uses that table's format. Neither is modelled.
- ReadSmlmFile: loads tables through the corrected `LoadTable`. With numpy
  unavailable, the source raises NameError for every table that unpacks
  (see Findings); `LoadTableAsWritten` models that path.
- Logging calls are not modelled. A table missing from the archive is
  skipped, as in the source.
- Byte decoding is a parameter (`Decoder`). struct's native alignment
  padding and byte order are not modelled; records use the standard sizes
  of `dtype2length`.
- numpy views ignore a format's `shape`, as in the source. Smlm.ViewsOk
  states the buffer bound for rows > 0; numpy's treatment of an offset at
  the very end of an empty view is not modelled.

## Findings

| source | as written | input that shows it | evidently intended | confidence | as-written member | corrected member |
|---|---|---|---|---|---|---|
| src/napari_particles/billboards_filter.py:9-15 | `quaternion_mult` reads both quaternions scalar-last (`p.w`, `q.w`) but returns the scalar first | p = (0, 0, 0, 1), the identity, and q = (1, 0, 0, 0) give (0, 1, 0, 0) instead of q | return the vector part first and the scalar last, the layout of `vec4(quatvec, quat_w)`; `float4` (line 13) is not a GLSL type either, so the function would not compile if it were bound | not executed; the function is never bound into the shader | QuaternionShader.QuatMultAsWrittenRotatesLayout | QuaternionShader.QuatMultIdentity |
| examples/smlm_file.py:46-62 | without numpy, the fallback ends with `np.array(...)`; `np` is a name of `readSmlmFile` that the failed `import numpy as np` never bound | any binary table read with numpy unavailable whose bytes unpack: NameError instead of a table | keep the unpacked lists as the columns and summarise them with the builtins `min`, `max` and `sum`/`len`: Python lists have no `.min()`, so keeping the lists alone would raise AttributeError at line 64 | not executed | Smlm.LoadTableAsWritten | Smlm.LoadTable |
