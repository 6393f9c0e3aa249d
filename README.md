# Volumetric offsetting engine of socketlab, in Dafny

This project models the voxel engine that turns a limb scan into a
prosthetic-socket shell (`socketlab/src/socketlab/offset.py`) and proves
properties of the model. The engine works on a 3D boolean occupancy grid
with an origin and a pitch. Each step below is modelled in the form the
Python code takes:

- **Pitch choice.** `auto_voxel_mm` picks about 384 voxels along the longest
  bounding-box axis, clamped to [0.3, 1.0] mm (`Voxelize.AutoVoxelMm`).
- **Surface voxelisation with bounded retries.** `_voxelize_surface` retries
  with a halved pitch (floor 0.25 mm) until the grid is non-empty, not full
  and at least 2 cells thick on every axis. It is a method with a loop,
  `Voxelize.VoxelizeSurface`, proved equal to the recursive specification
  `Voxelize.SurfaceVoxelization`. The rasteriser `mesh.voxelized` is a
  function parameter (an oracle from pitch to grid and origin).
- **Shape helpers.**
  - `_ensure_min_shape` appends empty cells at the high end of short axes.
  - `_pad_grid` adds an empty margin on every side.
  - Both are pure functions in `Padding`.
- **Guarded dilation.** `_safe_dilation` tries radii max(1, r), …, 1 and
  keeps the first dilation that is neither empty nor full. It is a `while`
  loop in `Banding.SafeDilation`, specified by `Banding.SafeDilate`.
- **Banding.**
  - `make_shell_inner_outer` computes the voxel radii, pads, dilates twice,
    shifts the origin, and applies the marks.
  - It then forms the shell (outer and not inner, or the boundary of outer
    when that is empty): `Banding.MakeShellInnerOuter`.
  - `volumetric_offset_mesh` dilates or erodes once:
    `Banding.VolumetricOffset`.
- **Mark sculpting.** `_apply_marks` edits the two grids in place, mark by
  mark. They are arrays modified through cuboid and sphere masks in
  `Marks.ApplyMark`/`Marks.ApplyMarks`. These are proved equal to a fold
  over the mark list, `Marks.MarksApplied`.
- **Plane trim.** `trim_with_plane_volumetric` clears every Z layer above
  the cut, in place: `PlaneTrim.ClearAbove` and
  `PlaneTrim.TrimWithPlaneVolumetric`.

## Conventions

- **Grid layout.** A grid (`Grids.Grid`) is its dimensions plus a flat cell
  sequence in numpy's C order, where cell (x, y, z) is at (x·ny + y)·nz + z.
- **Out-of-range cells.** `Grids.At` reads a cell outside the grid as empty.
  This is scipy's `border_value=0` and gives the erosion boundary
  behaviour.
- **Structuring element.** `skimage.morphology.ball(r)` is the set of integer
  offsets with dx² + dy² + dz² ≤ r².
- **Morphology.** Dilation and erosion are defined once, over an inclusive
  cuboid (`Grids.DilatedAt`, `Grids.ErodedAt`).
  - The whole-grid operations use the full box.
  - Pad and relief marks use the mark's cuboid, which reproduces the code's
    behaviour of running the morphology on the sub-array only.
- **Rounding.**
  - Python's `round` and numpy's `np.round` round half to even
    (`Numeric.RoundHalfEven`).
  - `np.ceil` is `Numeric.Ceil`.
- **Sphere test.** The test `sqrt(d2) <= radius` is written as
  `radius >= 0 && d2 <= radius²`.

The model keeps these behaviours of the code, which a reader might not
expect:

- Both banding radii and the pad/relief radius use `round(|x| / pitch)`,
  with an absolute value. A negative clearance therefore also grows the
  grid.
- The skip test `x0>=x1 or y0>=y1 or z0>=z1` also skips a cuboid that is
  one voxel thick along an axis, not only an empty one
  (`Marks.ThinCuboidSkipped`).
- A mark of any type other than `trim` goes through the pad/relief path.
  An unknown type leaves inner unchanged but still runs the
  "outer covers inner" step over its cuboid.
- When every voxelisation attempt is degenerate, the pitch returned is
  halved once more than the pitch that made the grid
  (`Voxelize.SurfaceVoxelizationExhausted`).
  - `make_shell_inner_outer` and `volumetric_offset_mesh` then compute
    radii and the origin shift from that pitch.
  - `trim_with_plane_volumetric` computes layer heights from it.

## Model

| member | source | states |
|---|---|---|
| Numeric.RoundHalfEven | socketlab/src/socketlab/offset.py:30 | Python `round`: the result is within 1/2 of x, and a tie goes to the even integer |
| Numeric.RoundHalfEvenUnique | socketlab/src/socketlab/offset.py:30 | those two properties determine the rounded value uniquely |
| Numeric.Ceil | socketlab/src/socketlab/offset.py:196 | `np.ceil`: the least integer not below x |
| Numeric.VoxelRadius | socketlab/src/socketlab/offset.py:70-71 | max(1, round(\|mm\|/pitch)) is at least 1, at least \|mm\|/pitch − 1/2, and when above 1 at most \|mm\|/pitch + 1/2 |
| Numeric.VoxelRadiusTies | socketlab/src/socketlab/offset.py:70-71 | concrete radii: 1.25 mm and 0.75 mm at 0.5 mm both give 2 voxels (half to even); −2.5 mm gives 5; 0.1 mm gives the floor of 1 |
| Grids.Build | socketlab/src/socketlab/offset.py:127-139 | the grid built from a cell predicate has the given dimensions and holds exactly that predicate on every in-range cell |
| Grids.GridExt | socketlab/src/socketlab/offset.py:127-139 | two grids with equal dimensions and equal occupancy are equal |
| Grids.DecodeIndex | socketlab/src/socketlab/offset.py:113 | the flat C-order index of an in-range cell decodes back to that cell |
| Grids.AnyIffSomeCell | socketlab/src/socketlab/offset.py:149 | `grid.any()` holds iff some cell is set |
| Grids.Dilate | socketlab/src/socketlab/offset.py:35 | `binary_dilation(grid, ball(r))` keeps the dimensions and every set cell |
| Grids.Erode | socketlab/src/socketlab/offset.py:37 | `binary_erosion(grid, ball(r))` keeps the dimensions and sets no cell that was empty |
| Grids.DilationExtensive | socketlab/src/socketlab/offset.py:225 | within any cuboid, dilation by a ball keeps every set cell (the ball contains its centre) |
| Grids.ErosionShrinks | socketlab/src/socketlab/offset.py:229 | within any cuboid, an eroded cell was set and lies in the cuboid |
| Padding.EnsureMinShape | socketlab/src/socketlab/offset.py:127-139 | every axis becomes max(n, min_size); existing cells keep index and value, added cells are empty; the grid is returned unchanged when no axis is short |
| Padding.EnsureMinShapeCount | socketlab/src/socketlab/offset.py:127-139 | the occupied set and the number of set cells are unchanged |
| Padding.PadGrid | socketlab/src/socketlab/offset.py:160-163 | identity for pad ≤ 0; otherwise each axis grows by 2·pad and cell c holds what c − (pad, pad, pad) held |
| Padding.PadGridMoves | socketlab/src/socketlab/offset.py:160-163 | cell (i, j, k) moves to (i + pad, j + pad, k + pad) |
| Padding.PadGridOccupied | socketlab/src/socketlab/offset.py:160-163 | the occupied set of the padded grid is the original one shifted by pad |
| Padding.PadGridCount | socketlab/src/socketlab/offset.py:160-163 | padding preserves the number of set cells |
| Voxelize.AutoVoxelMm | socketlab/src/socketlab/offset.py:13-16 | the pitch lies in [0.3, 1.0]; it is max extent / 384 when that is in range, 0.3 below and 1.0 above |
| Voxelize.AutoVoxelMonotone | socketlab/src/socketlab/offset.py:13-16 | a longer longest extent never yields a smaller pitch |
| Voxelize.PitchAtClosedForm | socketlab/src/socketlab/offset.py:152 | after k ≥ 1 halvings the pitch is max(p / 2^k, 0.25) |
| Voxelize.PitchAtFloor | socketlab/src/socketlab/offset.py:152 | every retried pitch is at least 0.25 mm |
| Voxelize.PitchAtNonIncreasing | socketlab/src/socketlab/offset.py:152 | from a pitch of at least 0.25 mm the retried pitches never grow and stay within [0.25, p] |
| Voxelize.Retry | socketlab/src/socketlab/offset.py:146-157 | the result has at least 2 cells per axis, holds exactly the chosen matrix's cells, and reports a pitch within [min(p, 0.25), max(p, 0.25)] |
| Voxelize.SurfaceVoxelizationFirstUsable | socketlab/src/socketlab/offset.py:146-150 | when attempt k ≤ retries is the first non-empty, non-full grid with min dim ≥ 2, that grid is returned with the pitch that produced it |
| Voxelize.SurfaceVoxelizationExhausted | socketlab/src/socketlab/offset.py:151-157 | when no attempt is usable, the last attempt's matrix is returned padded to min dim 2, and the reported pitch is halved once more than the pitch that produced it, so it differs from it unless that pitch is 0.25 |
| Voxelize.SurfaceVoxelizationNoAttempts | socketlab/src/socketlab/offset.py:153-157 | with a negative budget the rasteriser is called once at the requested pitch |
| Voxelize.VoxelizeSurface | socketlab/src/socketlab/offset.py:142-157 | the loop returns the specification's result, calls the rasteriser between 1 and retries + 1 times, at pitches p, p/2, … (floor 0.25), and returns min dim ≥ 2 |
| Marks.ParseDefaults | socketlab/src/socketlab/offset.py:186-190 | a mark with no keys is a 10 mm pad of 1 mm at the world origin |
| Marks.ParseFails | socketlab/src/socketlab/offset.py:186-192 | a mark is rejected exactly when its centre, radius or amount fails to convert |
| Marks.RadiusVoxels | socketlab/src/socketlab/offset.py:196 | the cuboid half-width is at least 1 and at least radius / pitch |
| Marks.Cuboid | socketlab/src/socketlab/offset.py:195-200 | every cell of the clamped cuboid lies inside the grid |
| Marks.MarkApplied | socketlab/src/socketlab/offset.py:185-237 | one mark keeps both grids' shape |
| Marks.MarksApplied | socketlab/src/socketlab/offset.py:185 | the fold over the list keeps both grids' shape |
| Marks.MarkAppliedLocal | socketlab/src/socketlab/offset.py:198-202 | no cell outside the mark's cuboid changes in either grid |
| Marks.MarkAppliedSkipped | socketlab/src/socketlab/offset.py:191-202 | a mark that fails to convert or whose cuboid has lo ≥ hi on some axis changes nothing |
| Marks.TrimEffect | socketlab/src/socketlab/offset.py:215-219 | trim clears exactly the sphere cells of the cuboid in both grids and leaves every other cell as it was |
| Marks.SphereInCuboid | socketlab/src/socketlab/offset.py:196-213 | every grid cell whose centre lies within the radius lies in the clamped cuboid |
| Marks.TrimClearsSphere | socketlab/src/socketlab/offset.py:204-219 | a trim that is not skipped empties every grid cell within its radius in both grids |
| Marks.ThinCuboidSkipped | socketlab/src/socketlab/offset.py:201-202 | a trim whose clamped cuboid is one voxel thick is skipped although its sphere covers a grid cell |
| Marks.PadReliefEffect | socketlab/src/socketlab/offset.py:221-237 | pad/relief change inner only at sphere cells of the cuboid, where it takes the sub-array dilation (pad) or erosion (relief) of the old inner by max(1, round(\|amount\|/pitch)) (other kinds keep it); over the cuboid outer becomes old outer or new inner, so no outer cell is cleared and outer ⊇ inner there; pad only adds inner cells, relief only removes them |
| Marks.ReliefKeepsOuter | socketlab/src/socketlab/offset.py:228-237 | while outer covers inner, a relief leaves outer exactly as it was |
| Marks.ReliefEmptiesCuboidFace | socketlab/src/socketlab/offset.py:222-231 | erosion on the cuboid sub-array empties every sphere cell on the cuboid's low x face, whatever lies beyond the cuboid |
| Marks.MarkAppliedKeepsWall | socketlab/src/socketlab/offset.py:232-237 | every mark keeps outer ⊇ inner |
| Marks.MarksAppliedAppend | socketlab/src/socketlab/offset.py:185 | applying xs + ys is applying xs, then ys (strict list order) |
| Marks.MalformedMarkSkipped | socketlab/src/socketlab/offset.py:186-192 | a mark that fails to convert drops out of the list and the marks after it still apply |
| Marks.MarksAppliedKeepWall | socketlab/src/socketlab/offset.py:185-237 | the whole pass keeps outer ⊇ inner |
| Marks.MarksAppliedLocal | socketlab/src/socketlab/offset.py:185-237 | a cell outside every mark's cuboid is never changed |
| Marks.ApplyMark | socketlab/src/socketlab/offset.py:193-237 | the in-place edit of the two buffers yields exactly one step of the fold |
| Marks.ApplyMarks | socketlab/src/socketlab/offset.py:176-238 | the in-place loop over the marks yields exactly the fold over the list |
| Banding.DilateDown | socketlab/src/socketlab/offset.py:168-173 | the result keeps the dimensions and every input cell, and is either neither empty nor full or the input itself |
| Banding.SafeDilate | socketlab/src/socketlab/offset.py:166-173 | the same for `_safe_dilation` from radius max(1, r) |
| Banding.SafeDilateFirst | socketlab/src/socketlab/offset.py:167-171 | the radius used is the largest k ≤ max(1, r) whose dilation is neither empty nor full |
| Banding.SafeDilateNone | socketlab/src/socketlab/offset.py:172-173 | when every radius degenerates the input comes back unchanged |
| Banding.SafeDilation | socketlab/src/socketlab/offset.py:166-173 | the decrementing loop returns the specification's result |
| Banding.Shell | socketlab/src/socketlab/offset.py:86-89 | the shell lies within outer and keeps its dimensions; when some outer cell is not inner, it is exactly outer ∧ ¬inner and so disjoint from inner |
| Banding.BallOne | socketlab/src/socketlab/offset.py:89 | `ball(1)` is the centre and its six face neighbours |
| Banding.BoundaryFaces | socketlab/src/socketlab/offset.py:89 | the fallback shell is the set of outer cells having a face neighbour outside outer |
| Banding.ShellNonEmpty | socketlab/src/socketlab/offset.py:86-89 | a non-empty outer grid always yields a non-empty shell |
| Banding.RequestedPitch | socketlab/src/socketlab/offset.py:24-25 | the requested pitch is positive, and in [0.3, 1.0] when chosen automatically |
| Banding.PaddedOriginKeepsPositions | socketlab/src/socketlab/offset.py:84 | with the origin shifted by −pad·pitch, every voxel keeps its world position after padding |
| Banding.PadVoxels | socketlab/src/socketlab/offset.py:76 | the margin is at least 5 cells and exceeds each radius by at least 4 |
| Banding.MakeShellInnerOuter | socketlab/src/socketlab/offset.py:56-95 | inner and outer are the marks applied to the safe dilations of the padded grid, with the reported pitch and shifted origin; outer ⊇ inner and shell ⊆ outer; every axis has at least 12 cells, so the pre-meshing `_ensure_min_shape` is the identity |
| Banding.VolumetricOffset | socketlab/src/socketlab/offset.py:19-40 | the grid is the dilation (offset ≥ 0) or erosion of the surface grid by the voxel radius; positive offsets only add cells, negative ones only remove them; the shape is kept |
| PlaneTrim.TrimmedAboveCells | socketlab/src/socketlab/offset.py:113-117 | a cell survives iff it was set and its layer centre is at most z_trim + pitch/2; the shape is kept |
| PlaneTrim.LayerClearedIffAbove | socketlab/src/socketlab/offset.py:115-117 | with a positive pitch, layer k is cleared iff k ≥ ⌊(z_trim + pitch/2 − origin_z)/pitch⌋ + 1 |
| PlaneTrim.ClearedLayersContiguous | socketlab/src/socketlab/offset.py:115-117 | the cleared layers form a contiguous top block of Z indices |
| PlaneTrim.ClearAbove | socketlab/src/socketlab/offset.py:117 | the in-place masked assignment yields exactly the trimmed grid |
| PlaneTrim.TrimWithPlaneVolumetric | socketlab/src/socketlab/offset.py:106-119 | the grid to mesh is the surface grid with the layers above the cut cleared, using the reported pitch and the voxelisation origin; min dim ≥ 2 |
| Grids.InBall | socketlab/src/socketlab/offset.py:31 | `skimage.morphology.ball(r)`: the integer offsets with dx² + dy² + dz² ≤ r² (definition) |
| Grids.DilatedAt | socketlab/src/socketlab/offset.py:35 | scipy dilation restricted to a cuboid: a cell is set iff some ball neighbour inside the cuboid is set (definition) |
| Grids.ErodedAt | socketlab/src/socketlab/offset.py:37 | scipy erosion restricted to a cuboid: a cell is set iff every ball neighbour lies in the cuboid and is set (definition) |
| Voxelize.Usable | socketlab/src/socketlab/offset.py:149 | the acceptance test: not empty, not full, at least 2 cells on every axis (definition) |
| Voxelize.Halve | socketlab/src/socketlab/offset.py:152 | one retry step: max(v · 0.5, 0.25) (definition) |
| Voxelize.PitchAt | socketlab/src/socketlab/offset.py:144-152 | the pitch of attempt k: the requested one, halved k times (definition) |
| Voxelize.SurfaceVoxelization | socketlab/src/socketlab/offset.py:142-157 | the specification of `_voxelize_surface`: up to retries + 1 attempts, the first usable one, else the last one padded with the once-more-halved pitch (definition; its properties are the lemmas above) |
| Marks.Lookup | socketlab/src/socketlab/offset.py:189-190 | `float(mk.get(primary, mk.get(secondary, default)))`, failing when the value does not convert (definition) |
| Marks.CenterOf | socketlab/src/socketlab/offset.py:188 | the centre from `center_mm`, else `center`, else the origin, failing unless it is three convertible values (definition) |
| Marks.Parse | socketlab/src/socketlab/offset.py:186-192 | the `try` block: type defaulting to "pad", centre, radius 10.0, amount 1.0, or a skipped mark (definition) |
| Marks.CenterVoxel | socketlab/src/socketlab/offset.py:195 | round((centre − origin) / pitch) per axis, ties to even (definition) |
| Marks.Offset | socketlab/src/socketlab/offset.py:209-211 | signed distance along one axis from the mark centre to a voxel centre (definition) |
| Marks.InSphere | socketlab/src/socketlab/offset.py:212-213 | the sphere mask `sqrt(d2) <= radius`, as radius ≥ 0 and d2 ≤ radius² (definition) |
| Marks.Skipped | socketlab/src/socketlab/offset.py:201 | the skip test: lo ≥ hi on some axis (definition) |
| Marks.Footprint | socketlab/src/socketlab/offset.py:186-202 | the cuboid a mark edits, or none when parsing fails or the cuboid is skipped (definition) |
| Marks.EditRadius | socketlab/src/socketlab/offset.py:221 | pad/relief radius max(1, round(\|amount\|/pitch)) (definition) |
| Marks.Carve | socketlab/src/socketlab/offset.py:217-218 | trim: sphere cells of the cuboid emptied (definition) |
| Marks.LocalMorph | socketlab/src/socketlab/offset.py:222-231 | pad/relief: sphere cells of the cuboid take the dilation/erosion of the cuboid sub-array (definition) |
| Marks.CoverInner | socketlab/src/socketlab/offset.py:233-237 | outer over the cuboid becomes outer or (inner and not outer) (definition) |
| Banding.Between | socketlab/src/socketlab/offset.py:86 | outer ∧ ¬inner (definition) |
| Banding.Boundary | socketlab/src/socketlab/offset.py:89 | outer ∧ ¬erode(outer, ball(1)) (definition; characterised by BoundaryFaces) |
| Banding.PaddedOrigin | socketlab/src/socketlab/offset.py:84 | the voxelisation origin shifted by −pad·pitch on every axis (definition) |
| PlaneTrim.LayerCleared | socketlab/src/socketlab/offset.py:115-116 | layer k is cleared iff origin_z + k·pitch > z_trim + pitch/2 (definition) |
| PlaneTrim.TrimmedAbove | socketlab/src/socketlab/offset.py:117 | the grid with every cleared layer emptied (definition) |
| PlaneTrim.FirstCleared | socketlab/src/socketlab/offset.py:115-116 | ⌊(z_trim + pitch/2 − origin_z)/pitch⌋ + 1 (definition; characterised by LayerClearedIffAbove) |

## Left out

- **Isosurface extraction and mesh cleanup.** Marching cubes and the trimesh
  cleanup calls (offset.py:39-53, 95-103, 119-124) are foreign library code.
  The model stops at the grid handed to extraction, plus its origin and
  pitch. Extraction needs a non-empty grid with every axis ≥ 2. The code
  makes no emptiness check of its own and relies on the library raising,
  so neither does the model.
- **Inner and outer meshes.** `make_shell_inner_outer` returns copies of the
  shell mesh for them (offset.py:98-100). This is mesh output built on the
  extraction left out above.
- **Surface rasterisation.** `mesh.voxelized` is the oracle parameter `vz`.
  Its internals are trimesh code, and the mesh and bounding box appear
  only as that oracle and as the extents triple.
- **Floating point.** NaN and infinities are not modelled: pitches,
  lengths and coordinates are exact reals.
- **Positive pitch.** A positive pitch is required wherever the code
  divides by it, i.e. a caller-supplied `voxel_mm` must be positive.
- **Mark types.** A mark's `type` is modelled as an optional string.
  Non-string values compare unequal to every mark kind, exactly like an
  unknown string.
- **Key aliases.** Each alias pair (`center_mm`/`center` etc.) is modelled as
  two optional fields. A missing list of marks (`None`) is modelled as the
  empty list, which the code treats the same way.
- **`need.any()`.** The `need.any()` guard (offset.py:235) is omitted.
  Or-ing an all-false mask changes nothing.
- **Buffer copies.** `_safe_dilation` returns a copy of its input
  (offset.py:173). Grids are values here, so the copy is the same value.
- **Other modules.** The command line, HTTP server, file I/O, provenance,
  pose normalisation and cross-section metrics are not part of this model.
