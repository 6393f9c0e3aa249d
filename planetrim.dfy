/** The layer clearing of `trim_with_plane_volumetric`: every Z layer whose
    voxel centre lies more than half a voxel above the cutting height is
    emptied in place. */
module PlaneTrim {
  import opened Numeric
  import opened Grids
  import opened Padding
  import opened Voxelize

  /** Layer k is cleared when its centre height originZ + k * pitch is
      above zTrim + pitch / 2 (the complement of numpy's `mask`). */
  predicate LayerCleared(originZ: real, pitch: real, zTrim: real, k: int)
  {
    !(originZ + k as real * pitch <= zTrim + 0.5 * pitch)
  }

  /** The grid after `grid[:, :, ~mask] = False`. */
  function TrimmedAbove(g: Grid, originZ: real, pitch: real, zTrim: real): Grid
  {
    Build(g.dims, (c: Cell) => At(g, c) && !LayerCleared(originZ, pitch, zTrim, c.z))
  }

  /** A cell survives exactly when it was set and its layer lies at or below
      the cut, and the dimensions do not change: TrimmedAbove's definition
      stated cell by cell in the form numpy's mask takes. */
  lemma TrimmedAboveCells(g: Grid, originZ: real, pitch: real, zTrim: real, c: Cell)
    ensures TrimmedAbove(g, originZ, pitch, zTrim).dims == g.dims
    ensures At(TrimmedAbove(g, originZ, pitch, zTrim), c) <==>
            At(g, c) && originZ + c.z as real * pitch <= zTrim + 0.5 * pitch
  {
  }

  /** With a positive pitch the cleared layers are exactly those from
      FirstCleared upwards: a contiguous block at the top of the Z axis. */
  function FirstCleared(originZ: real, pitch: real, zTrim: real): int
    requires pitch > 0.0
  {
    ((zTrim + 0.5 * pitch - originZ) / pitch).Floor + 1
  }

  lemma LayerClearedIffAbove(originZ: real, pitch: real, zTrim: real, k: int)
    requires pitch > 0.0
    ensures LayerCleared(originZ, pitch, zTrim, k) <==> k >= FirstCleared(originZ, pitch, zTrim)
  {
    var t := (zTrim + 0.5 * pitch - originZ) / pitch;
    var f := t.Floor;
    assert t * pitch == zTrim + 0.5 * pitch - originZ;
    if k >= f + 1 {
      assert k as real > t;
      MulLtPos(t, k as real, pitch);
    } else {
      assert k as real <= t;
      MulLePos(k as real, t, pitch);
    }
  }

  lemma MulLtPos(a: real, b: real, p: real)
    requires a < b && p > 0.0
    ensures a * p < b * p
  {
  }

  lemma MulLePos(a: real, b: real, p: real)
    requires a <= b && p > 0.0
    ensures a * p <= b * p
  {
  }

  /** So a cleared layer has only cleared layers above it. */
  lemma ClearedLayersContiguous(originZ: real, pitch: real, zTrim: real, k: int, k': int)
    requires pitch > 0.0 && k <= k'
    requires LayerCleared(originZ, pitch, zTrim, k)
    ensures LayerCleared(originZ, pitch, zTrim, k')
  {
    LayerClearedIffAbove(originZ, pitch, zTrim, k);
    LayerClearedIffAbove(originZ, pitch, zTrim, k');
  }

  /** `grid[:, :, ~mask] = False` on the grid's buffer. */
  method ClearAbove(a: array<bool>, d: Dims, originZ: real, pitch: real, zTrim: real)
    requires a.Length == d.Size()
    modifies a
    ensures a[..] == TrimmedAbove(GridData(d, old(a[..])), originZ, pitch, zTrim).cells
  {
    ghost var g: Grid := GridData(d, a[..]);
    forall i | 0 <= i < a.Length && LayerCleared(originZ, pitch, zTrim, d.Decode(i).z) {
      a[i] := false;
    }
    assert a[..] == TrimmedAbove(g, originZ, pitch, zTrim).cells;
  }

  /** The grid `trim_with_plane_volumetric` hands to marching cubes, with
      the origin and pitch used for meshing. The layer heights use the
      pitch `_voxelize_surface` reports, which after exhausted retries is
      half the pitch the grid was made with. */
  method TrimWithPlaneVolumetric(vz: real -> Voxelization, voxel: real, zTrim: real)
    returns (g: Grid, origin: Point, pitch: real)
    ensures var vs := SurfaceVoxelization(vz, voxel, 3);
            && pitch == vs.pitch && origin == vs.vox.origin
            && g == TrimmedAbove(vs.grid, origin.z, pitch, zTrim)
            && g.dims.MinDim() >= 2
  {
    var vox, grid, used, tried := VoxelizeSurface(vz, voxel, 3);
    origin := vox.origin;
    pitch := used;
    var a := NewBuffer(grid.cells);
    ClearAbove(a, grid.dims, origin.z, pitch, zTrim);
    var cleared: Grid := GridData(grid.dims, a[..]);
    g := EnsureMinShape(cleared, 2);
  }
}
