/** The 3D boolean occupancy grid: dimensions plus a flat cell buffer
    indexed (x*ny + y)*nz + z, the spherical structuring element, and
    scipy-style binary dilation and erosion restricted to a cuboid. */
module Grids {

  datatype Option<T> = None | Some(value: T)

  /** A point in world space, in millimetres. */
  datatype Point = Point(x: real, y: real, z: real)

  /** Integer voxel coordinates; a cell may lie outside a given grid. */
  datatype Cell = Cell(x: int, y: int, z: int) {
    function Plus(dx: int, dy: int, dz: int): Cell { Cell(x + dx, y + dy, z + dz) }
  }

  datatype Dims = Dims(nx: nat, ny: nat, nz: nat) {
    function Size(): nat { nx * ny * nz }

    function MinDim(): nat
    {
      if nx <= ny && nx <= nz then nx else if ny <= nz then ny else nz
    }

    predicate Contains(c: Cell)
    {
      0 <= c.x < nx && 0 <= c.y < ny && 0 <= c.z < nz
    }

    /** Position of an in-range cell in the flat buffer. */
    function Index(c: Cell): (i: nat)
      requires Contains(c)
      ensures i < Size()
    {
      MulAddBound(c.x, nx, c.y, ny);
      MulAddBound(c.x * ny + c.y, nx * ny, c.z, nz);
      (c.x * ny + c.y) * nz + c.z
    }

    /** The cell stored at flat position i; the inverse of Index. */
    function Decode(i: int): (c: Cell)
      requires 0 <= i < Size()
      ensures Contains(c) && Index(c) == i
    {
      DecodeFacts(this, i);
      Cell((i / nz) / ny, (i / nz) % ny, i % nz)
    }
  }

  lemma MulLeMono(a: int, b: int, k: int)
    requires a <= b && 0 <= k
    ensures a * k <= b * k
  {
  }

  lemma MulAddBound(a: int, A: int, b: int, B: int)
    requires 0 <= a < A && 0 <= b < B
    ensures 0 <= a * B + b < A * B
  {
    MulLeMono(a, A - 1, B);
    MulLeMono(0, a, B);
  }

  /** Euclidean division is determined by quotient and remainder. */
  lemma DivModUnique(i: int, d: int, q: int, r: int)
    requires 0 < d && 0 <= r < d && i == q * d + r
    ensures i / d == q && i % d == r
  {
    var q', r' := i / d, i % d;
    assert i == q' * d + r';
    if q' > q {
      MulLeMono(1, q' - q, d);
      assert false;
    } else if q' < q {
      MulLeMono(1, q - q', d);
      assert false;
    }
  }

  /** A non-negative value below A * d has quotient below A. */
  lemma DivBelow(i: int, d: int, A: int)
    requires 0 < d && 0 <= i < A * d
    ensures 0 <= i / d < A
  {
    var q := i / d;
    assert i == q * d + i % d;
    if q >= A {
      MulLeMono(A, q, d);
      assert false;
    }
    if q < 0 {
      MulLeMono(q, -1, d);
      assert false;
    }
  }

  lemma DecodeFacts(d: Dims, i: int)
    requires 0 <= i < d.Size()
    ensures d.ny > 0 && d.nz > 0
    ensures d.Contains(Cell((i / d.nz) / d.ny, (i / d.nz) % d.ny, i % d.nz))
    ensures d.Index(Cell((i / d.nz) / d.ny, (i / d.nz) % d.ny, i % d.nz)) == i
  {
    var nx, ny, nz := d.nx, d.ny, d.nz;
    var a := i / nz;
    DivBelow(i, nz, nx * ny);
    DivBelow(a, ny, nx);
    var x, y, z := a / ny, a % ny, i % nz;
    assert a == x * ny + y;
    assert i == a * nz + z;
    assert d.Index(Cell(x, y, z)) == (x * ny + y) * nz + z;
  }

  /** Index followed by Decode is the identity on in-range cells. */
  lemma DecodeIndex(d: Dims, c: Cell)
    requires d.Contains(c)
    ensures d.Decode(d.Index(c)) == c
  {
    var a := c.x * d.ny + c.y;
    var i := d.Index(c);
    DivModUnique(i, d.nz, a, c.z);
    DivModUnique(a, d.ny, c.x, c.y);
  }

  datatype GridData = GridData(dims: Dims, cells: seq<bool>)

  /** An occupancy grid whose buffer matches its dimensions. */
  type Grid = g: GridData | |g.cells| == g.dims.Size() witness GridData(Dims(0, 0, 0), [])

  /** Occupancy of a cell; cells outside the grid read as empty (scipy's
      border value 0). */
  function At(g: Grid, c: Cell): bool
  {
    if g.dims.Contains(c) then g.cells[g.dims.Index(c)] else false
  }

  /** The grid of the given dimensions whose in-range cells are given by f. */
  function Build(d: Dims, f: Cell -> bool): (g: Grid)
    ensures g.dims == d
    ensures forall c :: d.Contains(c) ==> At(g, c) == f(c)
  {
    var g := GridData(d, seq(d.Size(), i requires 0 <= i < d.Size() => f(d.Decode(i))));
    BuildAt(d, f, g);
    g
  }

  lemma BuildAt(d: Dims, f: Cell -> bool, g: Grid)
    requires g == GridData(d, seq(d.Size(), i requires 0 <= i < d.Size() => f(d.Decode(i))))
    ensures forall c :: d.Contains(c) ==> At(g, c) == f(c)
  {
    forall c | d.Contains(c) ensures At(g, c) == f(c) {
      DecodeIndex(d, c);
    }
  }

  /** Two grids with the same dimensions and the same occupancy are equal. */
  lemma GridExt(a: Grid, b: Grid)
    requires a.dims == b.dims
    requires forall c :: At(a, c) == At(b, c)
    ensures a == b
  {
    var d := a.dims;
    forall i | 0 <= i < d.Size() ensures a.cells[i] == b.cells[i] {
      var c := d.Decode(i);
      assert At(a, c) == At(b, c);
    }
  }

  /** `big` covers `small`: every cell of `small` is set in `big` (dimensions may differ). */
  ghost predicate Covers(big: Grid, small: Grid)
  {
    forall c :: At(small, c) ==> At(big, c)
  }

  /** numpy's `grid.any()`. */
  predicate Any(g: Grid)
  {
    exists i | 0 <= i < |g.cells| :: g.cells[i]
  }

  /** numpy's `grid.all()`. */
  predicate All(g: Grid)
  {
    forall i | 0 <= i < |g.cells| :: g.cells[i]
  }

  /** Neither uniformly empty nor uniformly full. */
  predicate NonDegenerate(g: Grid)
  {
    Any(g) && !All(g)
  }

  lemma AnyIffSomeCell(g: Grid)
    ensures Any(g) <==> exists c :: At(g, c)
  {
    if Any(g) {
      var i :| 0 <= i < |g.cells| && g.cells[i];
      assert At(g, g.dims.Decode(i));
    }
  }

  /** The set of occupied cells, and its size. */
  function Occupied(g: Grid): set<Cell>
  {
    set x, y, z | 0 <= x < g.dims.nx && 0 <= y < g.dims.ny && 0 <= z < g.dims.nz
                  && At(g, Cell(x, y, z)) :: Cell(x, y, z)
  }

  function Count(g: Grid): nat { |Occupied(g)| }

  lemma OccupiedIff(g: Grid, c: Cell)
    ensures c in Occupied(g) <==> At(g, c)
  {
  }

  /** An inclusive voxel-index cuboid [lo, hi] on every axis. */
  datatype Box = Box(lo: Cell, hi: Cell) {
    predicate Contains(c: Cell)
    {
      lo.x <= c.x <= hi.x && lo.y <= c.y <= hi.y && lo.z <= c.z <= hi.z
    }
  }

  function FullBox(d: Dims): Box
  {
    Box(Cell(0, 0, 0), Cell(d.nx - 1, d.ny - 1, d.nz - 1))
  }

  /** `skimage.morphology.ball(r)`: offsets with dx^2 + dy^2 + dz^2 <= r^2. */
  predicate InBall(dx: int, dy: int, dz: int, r: nat)
  {
    dx * dx + dy * dy + dz * dz <= r * r
  }

  /** scipy binary dilation with ball(r), run on the sub-array `b` of g:
      cell c is set iff some ball neighbour inside b is set. */
  predicate DilatedAt(g: Grid, b: Box, r: nat, c: Cell)
  {
    exists dx: int, dy: int, dz: int | -(r as int) <= dx <= r && -(r as int) <= dy <= r && -(r as int) <= dz <= r ::
      InBall(dx, dy, dz, r) && b.Contains(c.Plus(dx, dy, dz)) && At(g, c.Plus(dx, dy, dz))
  }

  /** scipy binary erosion with ball(r), run on the sub-array `b` of g:
      cell c is set iff every ball neighbour lies inside b and is set
      (neighbours outside the sub-array count as empty). */
  predicate ErodedAt(g: Grid, b: Box, r: nat, c: Cell)
  {
    forall dx: int, dy: int, dz: int | -(r as int) <= dx <= r && -(r as int) <= dy <= r && -(r as int) <= dz <= r ::
      InBall(dx, dy, dz, r) ==> b.Contains(c.Plus(dx, dy, dz)) && At(g, c.Plus(dx, dy, dz))
  }

  /** Whole-grid `binary_dilation(g, structure=ball(r))`. */
  function Dilate(g: Grid, r: nat): (h: Grid)
    ensures h.dims == g.dims
    ensures Covers(h, g)
  {
    var h := Build(g.dims, c => DilatedAt(g, FullBox(g.dims), r, c));
    forall c | At(g, c) ensures At(h, c) {
      DilationExtensive(g, FullBox(g.dims), r, c);
    }
    h
  }

  /** Whole-grid `binary_erosion(g, structure=ball(r))`. */
  function Erode(g: Grid, r: nat): (h: Grid)
    ensures h.dims == g.dims
    ensures Covers(g, h)
  {
    var h := Build(g.dims, c => ErodedAt(g, FullBox(g.dims), r, c));
    forall c | At(h, c) ensures At(g, c) {
      ErosionShrinks(g, FullBox(g.dims), r, c);
    }
    h
  }

  /** The ball contains its centre, so dilation keeps every set cell. */
  lemma DilationExtensive(g: Grid, b: Box, r: nat, c: Cell)
    requires b.Contains(c) && At(g, c)
    ensures DilatedAt(g, b, r, c)
  {
    assert InBall(0, 0, 0, r) && c.Plus(0, 0, 0) == c;
  }

  /** ... and erosion never sets a cell that was empty. */
  lemma ErosionShrinks(g: Grid, b: Box, r: nat, c: Cell)
    requires ErodedAt(g, b, r, c)
    ensures b.Contains(c) && At(g, c)
  {
    assert InBall(0, 0, 0, r) && c.Plus(0, 0, 0) == c;
  }

  /** A fresh mutable buffer holding a copy of a grid's cells. */
  method NewBuffer(s: seq<bool>) returns (a: array<bool>)
    ensures fresh(a) && a[..] == s
  {
    a := new bool[|s|](i requires 0 <= i < |s| => s[i]);
  }
}
