/** Grid shape helpers: `_ensure_min_shape` (grow short axes at the high
    end) and `_pad_grid` (empty margin on every side). */
module Padding {
  import opened Numeric
  import opened Grids

  /** `_ensure_min_shape(grid, min_size)`: every axis shorter than minSize
      is extended with empty cells at its high end. */
  function EnsureMinShape(g: Grid, minSize: nat): (h: Grid)
    ensures h.dims == Dims(MaxInt(g.dims.nx, minSize), MaxInt(g.dims.ny, minSize), MaxInt(g.dims.nz, minSize))
    ensures h.dims.MinDim() >= minSize
    // existing cells keep their coordinates and values; added cells are empty
    ensures forall c :: At(h, c) == At(g, c)
    ensures g.dims.MinDim() >= minSize ==> h == g
  {
    var d := g.dims;
    if d.nx >= minSize && d.ny >= minSize && d.nz >= minSize then g
    else Build(Dims(MaxInt(d.nx, minSize), MaxInt(d.ny, minSize), MaxInt(d.nz, minSize)), (c: Cell) => At(g, c))
  }

  /** `_pad_grid(grid, pad)`: a margin of `pad` empty cells on both sides of
      every axis; the identity when pad <= 0. */
  function PadGrid(g: Grid, pad: int): (h: Grid)
    ensures pad <= 0 ==> h == g
    ensures pad > 0 ==> h.dims == Dims(g.dims.nx + 2 * pad, g.dims.ny + 2 * pad, g.dims.nz + 2 * pad)
    // cell (i, j, k) of h holds what (i - pad, j - pad, k - pad) held in g
    ensures pad > 0 ==> forall c :: At(h, c) == At(g, c.Plus(-pad, -pad, -pad))
  {
    if pad <= 0 then g
    else
      var d := g.dims;
      Build(Dims(d.nx + 2 * pad, d.ny + 2 * pad, d.nz + 2 * pad), (c: Cell) => At(g, c.Plus(-pad, -pad, -pad)))
  }

  /** Padding moves cell (i, j, k) to (i + pad, j + pad, k + pad). */
  lemma PadGridMoves(g: Grid, pad: int, c: Cell)
    requires pad > 0
    ensures At(PadGrid(g, pad), c.Plus(pad, pad, pad)) == At(g, c)
  {
    assert c.Plus(pad, pad, pad).Plus(-pad, -pad, -pad) == c;
  }

  /** Grids with the same occupancy have the same occupied set. */
  lemma SameOccupancy(a: Grid, b: Grid)
    requires forall c :: At(a, c) == At(b, c)
    ensures Occupied(a) == Occupied(b)
  {
    forall c ensures c in Occupied(a) <==> c in Occupied(b) {
      OccupiedIff(a, c);
      OccupiedIff(b, c);
    }
  }

  /** `_ensure_min_shape` adds no occupied cell and loses none. */
  lemma EnsureMinShapeCount(g: Grid, minSize: nat)
    ensures Occupied(EnsureMinShape(g, minSize)) == Occupied(g)
    ensures Count(EnsureMinShape(g, minSize)) == Count(g)
  {
    SameOccupancy(EnsureMinShape(g, minSize), g);
  }

  function ShiftAll(s: set<Cell>, p: int): set<Cell>
  {
    set c | c in s :: c.Plus(p, p, p)
  }

  /** Translation is injective, so it keeps the size of a set of cells. */
  lemma {:induction false} ShiftAllSize(s: set<Cell>, p: int)
    ensures |ShiftAll(s, p)| == |s|
    decreases |s|
  {
    if s != {} {
      var c :| c in s;
      var rest := s - {c};
      ShiftAllSize(rest, p);
      assert ShiftAll(s, p) == ShiftAll(rest, p) + {c.Plus(p, p, p)};
      assert c.Plus(p, p, p) !in ShiftAll(rest, p);
    }
  }

  lemma PadGridOccupied(g: Grid, pad: int)
    requires pad > 0
    ensures Occupied(PadGrid(g, pad)) == ShiftAll(Occupied(g), pad)
  {
    var h := PadGrid(g, pad);
    forall c | c in Occupied(h) ensures c in ShiftAll(Occupied(g), pad) {
      OccupiedIff(h, c);
      var o := c.Plus(-pad, -pad, -pad);
      OccupiedIff(g, o);
      assert o.Plus(pad, pad, pad) == c;
    }
    forall c | c in ShiftAll(Occupied(g), pad) ensures c in Occupied(h) {
      var e :| e in Occupied(g) && e.Plus(pad, pad, pad) == c;
      OccupiedIff(g, e);
      PadGridMoves(g, pad, e);
      OccupiedIff(h, c);
    }
  }

  /** `_pad_grid` preserves the number of occupied cells. */
  lemma PadGridCount(g: Grid, pad: int)
    ensures Count(PadGrid(g, pad)) == Count(g)
  {
    if pad > 0 {
      PadGridOccupied(g, pad);
      ShiftAllSize(Occupied(g), pad);
    }
  }
}
