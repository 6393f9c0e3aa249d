/** Pitch selection (`auto_voxel_mm`) and surface voxelisation with bounded
    retries (`_voxelize_surface`). The rasteriser `mesh.voxelized(pitch)` is
    an oracle: a function from a pitch to a grid and its world origin. */
module Voxelize {
  import opened Numeric
  import opened Grids
  import opened Padding

  function LongestExtent(dx: real, dy: real, dz: real): real
  {
    MaxReal(MaxReal(dx, dy), dz)
  }

  /** `auto_voxel_mm`: about 384 voxels along the longest bounding-box axis,
      clamped to [0.3, 1.0] mm (numpy's clip). */
  function AutoVoxelMm(dx: real, dy: real, dz: real): (p: real)
    ensures 0.3 <= p <= 1.0
    ensures 0.3 <= LongestExtent(dx, dy, dz) / 384.0 <= 1.0 ==> p == LongestExtent(dx, dy, dz) / 384.0
    ensures LongestExtent(dx, dy, dz) / 384.0 < 0.3 ==> p == 0.3
    ensures LongestExtent(dx, dy, dz) / 384.0 > 1.0 ==> p == 1.0
  {
    MinReal(MaxReal(LongestExtent(dx, dy, dz) / 384.0, 0.3), 1.0)
  }

  /** A longer bounding box never gets a finer pitch. */
  lemma AutoVoxelMonotone(a: (real, real, real), b: (real, real, real))
    requires LongestExtent(a.0, a.1, a.2) <= LongestExtent(b.0, b.1, b.2)
    ensures AutoVoxelMm(a.0, a.1, a.2) <= AutoVoxelMm(b.0, b.1, b.2)
  {
  }

  /** What the rasteriser returns: the occupancy matrix and the world
      position of voxel (0, 0, 0) (the translation of `vox.transform`). */
  datatype Voxelization = Voxelization(grid: Grid, origin: Point)

  /** The acceptance test of the retry loop: not empty, not full, and at
      least two cells along every axis. */
  predicate Usable(g: Grid)
  {
    Any(g) && !All(g) && g.dims.MinDim() >= 2
  }

  /** One retry step: halve the pitch, but not below 0.25 mm. */
  function Halve(v: real): real
  {
    MaxReal(v * 0.5, 0.25)
  }

  /** The pitch of attempt k (attempt 0 uses the requested pitch). */
  function PitchAt(p: real, k: nat): real
  {
    if k == 0 then p else Halve(PitchAt(p, k - 1))
  }

  function Pow2(k: nat): (r: real)
    ensures r >= 1.0
  {
    if k == 0 then 1.0 else 2.0 * Pow2(k - 1)
  }

  /** After at least one retry the pitch is max(p / 2^k, 0.25). */
  lemma {:induction false} PitchAtClosedForm(p: real, k: nat)
    requires k >= 1
    ensures PitchAt(p, k) == MaxReal(p / Pow2(k), 0.25)
  {
    if k > 1 {
      PitchAtClosedForm(p, k - 1);
      assert p / Pow2(k) == (p / Pow2(k - 1)) * 0.5;
    }
  }

  /** So every retried pitch is at least 0.25 mm ... */
  lemma PitchAtFloor(p: real, k: nat)
    requires k >= 1
    ensures PitchAt(p, k) >= 0.25
  {
  }

  /** ... and, from a requested pitch of at least 0.25 mm, never grows. */
  lemma {:induction false} PitchAtNonIncreasing(p: real, k: nat)
    requires p >= 0.25
    ensures 0.25 <= PitchAt(p, k + 1) <= PitchAt(p, k) <= p
  {
    if k > 0 {
      PitchAtNonIncreasing(p, k - 1);
    }
  }

  /** The result of `_voxelize_surface`: the voxelisation it settled on, the
      grid it returns, and the pitch it reports. */
  datatype Voxelized = Voxelized(vox: Voxelization, grid: Grid, pitch: real)

  /** The loop with n attempts left at pitch v; `last` is the previous
      attempt (None before the first). */
  function Retry(vz: real -> Voxelization, v: real, n: int, last: Option<Voxelization>): (r: Voxelized)
    ensures r.grid.dims.MinDim() >= 2
    // the returned grid is the chosen matrix, at most padded with empty cells
    ensures forall c :: At(r.grid, c) == At(r.vox.grid, c)
    // the reported pitch never leaves [min(v, 0.25), max(v, 0.25)]
    ensures MinReal(v, 0.25) <= r.pitch <= MaxReal(v, 0.25)
    decreases if n <= 0 then 0 else n
  {
    if n <= 0 then
      var lv := if last.None? then vz(v) else last.value;
      Voxelized(lv, EnsureMinShape(lv.grid, 2), v)
    else
      var vox := vz(v);
      if Usable(vox.grid) then Voxelized(vox, vox.grid, v)
      else Retry(vz, Halve(v), n - 1, Some(vox))
  }

  /** `_voxelize_surface(mesh, pitch, retries)`: up to retries + 1 attempts. */
  function SurfaceVoxelization(vz: real -> Voxelization, pitch: real, retries: int): Voxelized
  {
    Retry(vz, pitch, retries + 1, None)
  }

  /** If attempt k is the first usable one (and within the budget), its
      matrix is returned with the pitch that produced it. */
  lemma {:induction false} RetryFirstUsable(vz: real -> Voxelization, p: real, n: int, i: nat,
                                            last: Option<Voxelization>, k: nat)
    requires i <= k < i + n
    requires forall j: nat :: i <= j < k ==> !Usable(vz(PitchAt(p, j)).grid)
    requires Usable(vz(PitchAt(p, k)).grid)
    ensures Retry(vz, PitchAt(p, i), n, last) == Voxelized(vz(PitchAt(p, k)), vz(PitchAt(p, k)).grid, PitchAt(p, k))
    decreases k - i
  {
    if i < k {
      RetryFirstUsable(vz, p, n - 1, i + 1, Some(vz(PitchAt(p, i))), k);
    }
  }

  lemma SurfaceVoxelizationFirstUsable(vz: real -> Voxelization, p: real, retries: int, k: nat)
    requires k <= retries
    requires forall j: nat :: j < k ==> !Usable(vz(PitchAt(p, j)).grid)
    requires Usable(vz(PitchAt(p, k)).grid)
    ensures SurfaceVoxelization(vz, p, retries) == Voxelized(vz(PitchAt(p, k)), vz(PitchAt(p, k)).grid, PitchAt(p, k))
  {
    RetryFirstUsable(vz, p, retries + 1, 0, None, k);
  }

  lemma {:induction false} RetryExhausted(vz: real -> Voxelization, p: real, n: nat, i: nat, last: Option<Voxelization>)
    requires n >= 1
    requires forall j: nat :: i <= j < i + n ==> !Usable(vz(PitchAt(p, j)).grid)
    ensures Retry(vz, PitchAt(p, i), n, last)
         == Voxelized(vz(PitchAt(p, i + n - 1)), EnsureMinShape(vz(PitchAt(p, i + n - 1)).grid, 2), PitchAt(p, i + n))
  {
    if n > 1 {
      RetryExhausted(vz, p, n - 1, i + 1, Some(vz(PitchAt(p, i))));
    }
  }

  /** When no attempt is usable, the last attempt's matrix is returned padded
      to at least 2 cells per axis, but the reported pitch has been halved
      once more than the pitch that produced it. */
  lemma SurfaceVoxelizationExhausted(vz: real -> Voxelization, p: real, retries: nat)
    requires forall j: nat :: j <= retries ==> !Usable(vz(PitchAt(p, j)).grid)
    ensures var r := SurfaceVoxelization(vz, p, retries);
            && r.vox == vz(PitchAt(p, retries))
            && r.grid == EnsureMinShape(r.vox.grid, 2)
            && r.pitch == Halve(PitchAt(p, retries))
            && (PitchAt(p, retries) != 0.25 ==> r.pitch != PitchAt(p, retries))
  {
    RetryExhausted(vz, p, retries + 1, 0, None);
  }

  /** With a negative budget the loop body never runs: the rasteriser is
      called once at the requested pitch. */
  lemma SurfaceVoxelizationNoAttempts(vz: real -> Voxelization, p: real, retries: int)
    requires retries < 0
    ensures SurfaceVoxelization(vz, p, retries) == Voxelized(vz(p), EnsureMinShape(vz(p).grid, 2), p)
  {
  }

  /** The retry loop of `_voxelize_surface`. `tried` records the pitch of
      every call to the rasteriser. */
  method VoxelizeSurface(vz: real -> Voxelization, pitch: real, retries: int)
    returns (vox: Voxelization, grid: Grid, used: real, ghost tried: seq<real>)
    ensures Voxelized(vox, grid, used) == SurfaceVoxelization(vz, pitch, retries)
    ensures grid.dims.MinDim() >= 2
    ensures MinReal(pitch, 0.25) <= used <= MaxReal(pitch, 0.25)
    ensures 1 <= |tried| <= MaxInt(retries + 1, 1)
    ensures forall j :: 0 <= j < |tried| ==> tried[j] == PitchAt(pitch, j)
  {
    var v := pitch;
    var last: Option<Voxelization> := None;
    var k := 0;
    tried := [];
    while k < retries + 1
      invariant 0 <= k && (k == 0 || k <= retries + 1)
      invariant v == PitchAt(pitch, k)
      invariant Retry(vz, v, retries + 1 - k, last) == SurfaceVoxelization(vz, pitch, retries)
      invariant last.Some? <==> k > 0
      invariant |tried| == k && forall j :: 0 <= j < k ==> tried[j] == PitchAt(pitch, j)
    {
      var attempt := vz(v);
      tried := tried + [v];
      if Usable(attempt.grid) {
        return attempt, attempt.grid, v, tried;
      }
      last := Some(attempt);
      v := Halve(v);
      k := k + 1;
    }
    if last.None? {
      last := Some(vz(v));
      tried := tried + [v];
    }
    vox := last.value;
    grid := EnsureMinShape(vox.grid, 2);
    used := v;
  }
}
