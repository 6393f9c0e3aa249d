/** The volumetric banding of `make_shell_inner_outer` and the single
    offset of `volumetric_offset_mesh`: voxel radii, padding, the guarded
    dilation `_safe_dilation`, the mark pass, and the shell with its
    boundary fallback. */
module Banding {
  import opened Numeric
  import opened Grids
  import opened Padding
  import opened Voxelize
  import opened Marks

  // ---------------------------------------------------------------------
  // `_safe_dilation`

  /** Dilations by rr, rr - 1, ..., 1 in turn: the first that is neither
      empty nor full, else the input itself. */
  function DilateDown(g: Grid, rr: int): (h: Grid)
    ensures h.dims == g.dims
    ensures Covers(h, g)
    ensures NonDegenerate(h) || h == g
    decreases rr
  {
    if rr < 1 then g
    else
      var d := Dilate(g, rr);
      if NonDegenerate(d) then d else DilateDown(g, rr - 1)
  }

  /** `_safe_dilation(grid, r)`: the search starts at max(1, r). */
  function SafeDilate(g: Grid, r: int): (h: Grid)
    ensures h.dims == g.dims
    ensures Covers(h, g)
    ensures NonDegenerate(h) || h == g
  {
    DilateDown(g, MaxInt(1, r))
  }

  lemma {:induction false} DilateDownFirst(g: Grid, n: int, k: int)
    requires 1 <= k <= n
    requires forall j :: k < j <= n ==> !NonDegenerate(Dilate(g, j))
    requires NonDegenerate(Dilate(g, k))
    ensures DilateDown(g, n) == Dilate(g, k)
    decreases n
  {
    if n > k {
      DilateDownFirst(g, n - 1, k);
    }
  }

  /** The radius chosen is the largest one, not above max(1, r), whose
      dilation is neither empty nor full. */
  lemma SafeDilateFirst(g: Grid, r: int, k: int)
    requires 1 <= k <= MaxInt(1, r)
    requires forall j :: k < j <= MaxInt(1, r) ==> !NonDegenerate(Dilate(g, j))
    requires NonDegenerate(Dilate(g, k))
    ensures SafeDilate(g, r) == Dilate(g, k)
  {
    DilateDownFirst(g, MaxInt(1, r), k);
  }

  lemma {:induction false} DilateDownNone(g: Grid, n: int)
    requires forall j :: 1 <= j <= n ==> !NonDegenerate(Dilate(g, j))
    ensures DilateDown(g, n) == g
    decreases n
  {
    if n >= 1 {
      DilateDownNone(g, n - 1);
    }
  }

  /** When every candidate radius degenerates, the input comes back unchanged. */
  lemma SafeDilateNone(g: Grid, r: int)
    requires forall j :: 1 <= j <= MaxInt(1, r) ==> !NonDegenerate(Dilate(g, j))
    ensures SafeDilate(g, r) == g
  {
    DilateDownNone(g, MaxInt(1, r));
  }

  /** The `while rr >= 1` loop of `_safe_dilation`. */
  method SafeDilation(g: Grid, r: int) returns (h: Grid)
    ensures h == SafeDilate(g, r)
  {
    var rr := MaxInt(1, r);
    while rr >= 1
      invariant rr <= MaxInt(1, r)
      invariant DilateDown(g, rr) == SafeDilate(g, r)
    {
      var d := Dilate(g, rr);
      if Any(d) && !All(d) {
        return d;
      }
      rr := rr - 1;
    }
    h := g;
  }

  // ---------------------------------------------------------------------
  // The shell

  /** outer & ~inner. */
  function Between(inner: Grid, outer: Grid): (s: Grid)
    requires inner.dims == outer.dims
  {
    Build(outer.dims, (c: Cell) => At(outer, c) && !At(inner, c))
  }

  /** outer & ~binary_erosion(outer, ball(1)). */
  function Boundary(outer: Grid): Grid
  {
    Build(outer.dims, (c: Cell) => At(outer, c) && !At(Erode(outer, 1), c))
  }

  /** `shell_grid`: the band between the two surfaces, or the boundary
      layer of outer when the band is empty. */
  function Shell(inner: Grid, outer: Grid): (s: Grid)
    requires inner.dims == outer.dims
    ensures s.dims == outer.dims
    ensures Covers(outer, s)
    // whenever some outer cell is not inner, the shell is that band, so
    // it never overlaps inner
    ensures (exists c :: At(outer, c) && !At(inner, c)) ==>
              forall c :: At(s, c) <==> At(outer, c) && !At(inner, c)
  {
    var primary := Between(inner, outer);
    AnyIffSomeCell(primary);
    if Any(primary) then primary else Boundary(outer)
  }

  /** `ball(1)` is the centre and its six face neighbours. */
  lemma BallOne(dx: int, dy: int, dz: int)
    requires -1 <= dx <= 1 && -1 <= dy <= 1 && -1 <= dz <= 1
    ensures InBall(dx, dy, dz, 1) <==>
            (dx, dy, dz) in {(0, 0, 0), (1, 0, 0), (-1, 0, 0), (0, 1, 0), (0, -1, 0), (0, 0, 1), (0, 0, -1)}
  {
  }

  /** Every set cell of a grid lies in its full box. */
  lemma SetCellsInFullBox(g: Grid)
    ensures forall e :: At(g, e) ==> FullBox(g.dims).Contains(e)
  {
  }

  /** Erosion by `ball(1)` keeps exactly the cells whose six face
      neighbours are all set. */
  lemma ErodedOne(g: Grid, c: Cell)
    ensures ErodedAt(g, FullBox(g.dims), 1, c) <==>
            At(g, c) && FaceNeighboursSet(g, c)
  {
    var box := FullBox(g.dims);
    if ErodedAt(g, box, 1, c) {
      assert InBall(0, 0, 0, 1) && c.Plus(0, 0, 0) == c;
      assert InBall(1, 0, 0, 1) && InBall(-1, 0, 0, 1) && InBall(0, 1, 0, 1);
      assert InBall(0, -1, 0, 1) && InBall(0, 0, 1, 1) && InBall(0, 0, -1, 1);
    }
    if At(g, c) && FaceNeighboursSet(g, c) {
      SetCellsInFullBox(g);
      forall dx: int, dy: int, dz: int | -1 <= dx <= 1 && -1 <= dy <= 1 && -1 <= dz <= 1 && InBall(dx, dy, dz, 1)
        ensures box.Contains(c.Plus(dx, dy, dz)) && At(g, c.Plus(dx, dy, dz))
      {
        BallOne(dx, dy, dz);
      }
    }
  }

  predicate FaceNeighboursSet(g: Grid, c: Cell)
  {
    At(g, c.Plus(1, 0, 0)) && At(g, c.Plus(-1, 0, 0)) &&
    At(g, c.Plus(0, 1, 0)) && At(g, c.Plus(0, -1, 0)) &&
    At(g, c.Plus(0, 0, 1)) && At(g, c.Plus(0, 0, -1))
  }

  /** The fallback shell is the set of outer cells having a face neighbour
      that is not an outer cell (cells beyond the grid count as empty). */
  lemma BoundaryFaces(outer: Grid, c: Cell)
    ensures At(Boundary(outer), c) <==> At(outer, c) && !FaceNeighboursSet(outer, c)
  {
    if outer.dims.Contains(c) {
      ErodedOne(outer, c);
    }
  }

  /** Starting from any occupied cell and walking along +x, some occupied
      cell has an empty +x neighbour. */
  lemma {:induction false} TopAlongX(g: Grid, c: Cell)
    requires At(g, c)
    ensures exists e :: At(g, e) && !At(g, e.Plus(1, 0, 0))
    decreases g.dims.nx - c.x
  {
    if At(g, c.Plus(1, 0, 0)) {
      TopAlongX(g, c.Plus(1, 0, 0));
    }
  }

  /** A non-empty outer grid always yields a non-empty shell. */
  lemma ShellNonEmpty(inner: Grid, outer: Grid)
    requires inner.dims == outer.dims
    requires exists c :: At(outer, c)
    ensures exists c :: At(Shell(inner, outer), c)
  {
    var s := Shell(inner, outer);
    var primary := Between(inner, outer);
    AnyIffSomeCell(primary);
    if Any(primary) {
      var c :| At(primary, c);
      assert At(s, c);
    } else {
      var c :| At(outer, c);
      TopAlongX(outer, c);
      var e :| At(outer, e) && !At(outer, e.Plus(1, 0, 0));
      BoundaryFaces(outer, e);
      assert At(s, e);
    }
  }

  // ---------------------------------------------------------------------
  // Pitch, radii and origin

  /** The pitch asked of the rasteriser: the caller's, or `auto_voxel_mm`
      of the bounding-box extents. */
  function RequestedPitch(extents: (real, real, real), voxel: Option<real>): (p: real)
    requires voxel.Some? ==> voxel.value > 0.0
    ensures p > 0.0
    ensures voxel.None? ==> 0.3 <= p <= 1.0
  {
    if voxel.Some? then voxel.value else AutoVoxelMm(extents.0, extents.1, extents.2)
  }

  /** The world position of voxel (0, 0, 0) after `pad` cells were added in
      front of every axis. */
  function PaddedOrigin(o: Point, pad: int, pitch: real): Point
  {
    Point(o.x - pad as real * pitch, o.y - pad as real * pitch, o.z - pad as real * pitch)
  }

  /** A voxel keeps its world position through padding: cell c of the
      unpadded grid is cell c + pad of the padded one. */
  lemma PaddedOriginKeepsPositions(o: Point, pad: int, pitch: real, c: Cell)
    ensures var o' := PaddedOrigin(o, pad, pitch);
            var c' := c.Plus(pad, pad, pad);
            && o'.x + c'.x as real * pitch == o.x + c.x as real * pitch
            && o'.y + c'.y as real * pitch == o.y + c.y as real * pitch
            && o'.z + c'.z as real * pitch == o.z + c.z as real * pitch
  {
  }

  /** The padding: both radii plus a margin of three cells. */
  function PadVoxels(clearance: real, wall: real, pitch: real): (pad: int)
    requires pitch > 0.0
    ensures pad >= 5
    // the margin exceeds each radius by at least four cells
    ensures pad >= VoxelRadius(clearance, pitch) + 4 && pad >= VoxelRadius(wall, pitch) + 4
  {
    VoxelRadius(clearance, pitch) + VoxelRadius(wall, pitch) + 3
  }

  // ---------------------------------------------------------------------
  // `make_shell_inner_outer` and `volumetric_offset_mesh`

  /** The grids of `make_shell_inner_outer` before meshing: inner (the limb
      grown by the clearance), outer (inner grown by the wall), both after
      the marks, and the shell; with the world origin of voxel (0, 0, 0)
      and the pitch. */
  method MakeShellInnerOuter(vz: real -> Voxelization, extents: (real, real, real),
                             clearance: real, wall: real, voxel: Option<real>, marks: seq<RawMark>)
    returns (inner: Grid, outer: Grid, shell: Grid, origin: Point, pitch: real)
    requires voxel.Some? ==> voxel.value > 0.0
    ensures var vs := SurfaceVoxelization(vz, RequestedPitch(extents, voxel), 3);
            && pitch == vs.pitch && pitch > 0.0
            && var pad := PadVoxels(clearance, wall, pitch);
            && origin == PaddedOrigin(vs.vox.origin, pad, pitch)
            && var i0 := SafeDilate(PadGrid(vs.grid, pad), VoxelRadius(clearance, pitch));
            && var o0 := SafeDilate(i0, VoxelRadius(wall, pitch));
            && Band(inner, outer) == MarksApplied(Band(i0, o0), origin, pitch, marks)
            && inner.dims == PadGrid(vs.grid, pad).dims
    ensures inner.dims == outer.dims && shell == Shell(inner, outer)
    // the wall is never negative, and the shell lies within outer
    ensures Covers(outer, inner) && Covers(outer, shell)
    // every axis has at least twelve cells, so the minimum-shape padding
    // before meshing changes nothing
    ensures shell.dims.MinDim() >= 12 && EnsureMinShape(shell, 2) == shell
  {
    var requested := RequestedPitch(extents, voxel);
    var vox, grid, used, tried := VoxelizeSurface(vz, requested, 3);
    pitch := used;
    var rClear := VoxelRadius(clearance, pitch);
    var rWall := VoxelRadius(wall, pitch);
    var pad := rClear + rWall + 3;
    var padded := PadGrid(grid, pad);
    inner := SafeDilation(padded, rClear);
    outer := SafeDilation(inner, rWall);
    origin := PaddedOrigin(vox.origin, pad, pitch);
    ghost var start := Band(inner, outer);
    assert start.WallOk();
    if |marks| > 0 {
      var a := NewBuffer(inner.cells);
      var b := NewBuffer(outer.cells);
      var d := inner.dims;
      ApplyMarks(a, b, d, origin, pitch, marks);
      inner, outer := GridData(d, a[..]), GridData(d, b[..]);
    }
    MarksAppliedKeepWall(start, origin, pitch, marks);
    shell := Shell(inner, outer);
  }

  /** The grid `volumetric_offset_mesh` hands to marching cubes: the surface
      voxels grown (offset >= 0) or shrunk (offset < 0) by the offset in
      whole voxels. */
  method VolumetricOffset(vz: real -> Voxelization, extents: (real, real, real),
                          offset: real, voxel: Option<real>)
    returns (g: Grid, origin: Point, pitch: real)
    requires voxel.Some? ==> voxel.value > 0.0
    ensures var vs := SurfaceVoxelization(vz, RequestedPitch(extents, voxel), 3);
            && pitch == vs.pitch && pitch > 0.0 && origin == vs.vox.origin
            && var r := VoxelRadius(offset, pitch);
            && g == EnsureMinShape(if offset >= 0.0 then Dilate(vs.grid, r) else Erode(vs.grid, r), 2)
            // a positive offset only adds voxels, a negative one only removes them
            && (offset >= 0.0 ==> Covers(g, vs.grid))
            && (offset < 0.0 ==> Covers(vs.grid, g))
            && g.dims == vs.grid.dims
  {
    var requested := RequestedPitch(extents, voxel);
    var vox, grid, used, tried := VoxelizeSurface(vz, requested, 3);
    pitch := used;
    origin := vox.origin;
    var r := VoxelRadius(offset, pitch);
    var grown := if offset >= 0.0 then Dilate(grid, r) else Erode(grid, r);
    g := EnsureMinShape(grown, 2);
  }
}
