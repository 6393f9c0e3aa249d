/** `_apply_marks`: clinician marks (pad / relief / trim) applied in list
    order to the inner and outer occupancy grids, each edit confined to a
    clamped voxel cuboid and a spherical mask around the mark centre. */
module Marks {
  import opened Numeric
  import opened Grids

  /** A dictionary entry as `float(...)` sees it: key missing, a value that
      converts to a number, or one that raises. */
  datatype Field = Absent | Num(value: real) | NotNumeric

  /** The centre entry: key missing, a list of entries, or a value that
      cannot be iterated. */
  datatype CenterField = NoCenter | Items(items: seq<Field>) | NotIterable

  /** A mark as supplied by the caller: a dictionary with optional keys
      `type`, `center_mm`/`center`, `radius_mm`/`radius`, `amount_mm`/`amount`. */
  datatype RawMark = RawMark(kind: Option<string>, centerMm: CenterField, center: CenterField,
                             radiusMm: Field, radius: Field, amountMm: Field, amount: Field)

  /** A mark whose fields all converted. */
  datatype Mark = Mark(kind: string, center: Point, radius: real, amount: real)

  /** `float(mk.get(primary, mk.get(secondary, default)))`; None when the
      conversion raises. */
  function Lookup(primary: Field, secondary: Field, default: real): Option<real>
  {
    var f := if !primary.Absent? then primary else if !secondary.Absent? then secondary else Num(default);
    if f.Num? then Some(f.value) else None
  }

  /** `cx, cy, cz = [float(v) for v in mk.get('center_mm', mk.get('center', [0,0,0]))]`. */
  function CenterOf(raw: RawMark): Option<Point>
  {
    var cf := if !raw.centerMm.NoCenter? then raw.centerMm
              else if !raw.center.NoCenter? then raw.center
              else Items([Num(0.0), Num(0.0), Num(0.0)]);
    if cf.Items? && |cf.items| == 3 && cf.items[0].Num? && cf.items[1].Num? && cf.items[2].Num?
    then Some(Point(cf.items[0].value, cf.items[1].value, cf.items[2].value))
    else None
  }

  /** The `try` block of the loop body; None means the mark is skipped. */
  function Parse(raw: RawMark): Option<Mark>
  {
    var kind := if raw.kind.Some? then raw.kind.value else "pad";
    var center := CenterOf(raw);
    var radius := Lookup(raw.radiusMm, raw.radius, 10.0);
    var amount := Lookup(raw.amountMm, raw.amount, 1.0);
    if center.Some? && radius.Some? && amount.Some?
    then Some(Mark(kind, center.value, radius.value, amount.value))
    else None
  }

  /** A mark with every key missing is a 10 mm pad of 1 mm at the world origin. */
  lemma ParseDefaults()
    ensures Parse(RawMark(None, NoCenter, NoCenter, Absent, Absent, Absent, Absent))
         == Some(Mark("pad", Point(0.0, 0.0, 0.0), 10.0, 1.0))
  {
  }

  /** A mark fails to convert exactly when one of its three numeric fields
      does: Parse's condition read as a statement about the mark. */
  lemma ParseFails(raw: RawMark)
    ensures Parse(raw).None? <==>
      (CenterOf(raw).None? || Lookup(raw.radiusMm, raw.radius, 10.0).None? || Lookup(raw.amountMm, raw.amount, 1.0).None?)
  {
  }

  /** Voxel index nearest to the mark centre: round((c - origin) / pitch). */
  function CenterVoxel(m: Mark, origin: Point, pitch: real): Cell
    requires pitch > 0.0
  {
    Cell(RoundHalfEven((m.center.x - origin.x) / pitch),
         RoundHalfEven((m.center.y - origin.y) / pitch),
         RoundHalfEven((m.center.z - origin.z) / pitch))
  }

  /** Half-width of the cuboid, max(1, ceil(radius / pitch)). */
  function RadiusVoxels(m: Mark, pitch: real): (r: int)
    requires pitch > 0.0
    ensures r >= 1 && r as real >= m.radius / pitch
  {
    MaxInt(1, Ceil(m.radius / pitch))
  }

  /** The cuboid around the centre voxel, clamped to [0, shape - 1]. */
  function Cuboid(d: Dims, m: Mark, origin: Point, pitch: real): (b: Box)
    requires pitch > 0.0
    ensures forall c :: b.Contains(c) ==> 0 <= c.x && 0 <= c.y && 0 <= c.z
    ensures forall c :: b.Contains(c) ==> c.x < d.nx && c.y < d.ny && c.z < d.nz
  {
    var cv := CenterVoxel(m, origin, pitch);
    var r := RadiusVoxels(m, pitch);
    Box(Cell(MaxInt(0, cv.x - r), MaxInt(0, cv.y - r), MaxInt(0, cv.z - r)),
        Cell(MinInt(d.nx - 1, cv.x + r), MinInt(d.ny - 1, cv.y + r), MinInt(d.nz - 1, cv.z + r)))
  }

  /** The skip test `x0>=x1 or y0>=y1 or z0>=z1`. It also skips a cuboid
      that is a single voxel thick along some axis. */
  predicate Skipped(b: Box)
  {
    b.lo.x >= b.hi.x || b.lo.y >= b.hi.y || b.lo.z >= b.hi.z
  }

  function Sq(a: real): (r: real)
    ensures r >= 0.0
  {
    a * a
  }

  /** Signed distance along one axis from the mark centre to the centre of
      voxel i. */
  function Offset(o: real, i: int, pitch: real, cx: real): real
  {
    o + i as real * pitch - cx
  }

  /** The sphere mask: the voxel centre origin + c * pitch lies within
      `radius` of the mark centre (sqrt(d2) <= radius, as d2 <= radius^2
      for a non-negative radius). */
  predicate InSphere(m: Mark, origin: Point, pitch: real, c: Cell)
  {
    m.radius >= 0.0 &&
    Sq(Offset(origin.x, c.x, pitch, m.center.x))
    + Sq(Offset(origin.y, c.y, pitch, m.center.y))
    + Sq(Offset(origin.z, c.z, pitch, m.center.z)) <= m.radius * m.radius
  }

  /** Radius of the local pad/relief morphology, max(1, round(|amount| / pitch)). */
  function EditRadius(m: Mark, pitch: real): nat
    requires pitch > 0.0
  {
    VoxelRadius(m.amount, pitch)
  }

  /** The cuboid a mark edits, or None when the mark is skipped. */
  function Footprint(d: Dims, origin: Point, pitch: real, raw: RawMark): Option<Box>
    requires pitch > 0.0
  {
    match Parse(raw)
    case None => None
    case Some(m) =>
      var b := Cuboid(d, m, origin, pitch);
      if Skipped(b) then None else Some(b)
  }

  /** The inner and outer grids being sculpted. */
  datatype Band = Band(inner: Grid, outer: Grid) {
    predicate Valid() { inner.dims == outer.dims }
    /** The wall is never negative: every inner cell is an outer cell. */
    ghost predicate WallOk() { Covers(outer, inner) }
  }

  /** `trim`: empty every sphere cell of the cuboid. */
  function Carve(g: Grid, box: Box, m: Mark, origin: Point, pitch: real): Grid
  {
    Build(g.dims, (c: Cell) => At(g, c) && !(box.Contains(c) && InSphere(m, origin, pitch, c)))
  }

  /** `pad` / `relief`: sphere cells of the cuboid take the value of the
      dilation / erosion of the cuboid sub-array; other kinds leave inner as is. */
  function LocalMorph(g: Grid, box: Box, m: Mark, origin: Point, pitch: real): Grid
    requires pitch > 0.0
  {
    var r := EditRadius(m, pitch);
    if m.kind == "pad" then
      Build(g.dims, (c: Cell) => if box.Contains(c) && InSphere(m, origin, pitch, c) then DilatedAt(g, box, r, c) else At(g, c))
    else if m.kind == "relief" then
      Build(g.dims, (c: Cell) => if box.Contains(c) && InSphere(m, origin, pitch, c) then ErodedAt(g, box, r, c) else At(g, c))
    else g
  }

  /** `outer_local | (inner_local & ~outer_local)` written back over the cuboid. */
  function CoverInner(outer: Grid, inner: Grid, box: Box): Grid
  {
    Build(outer.dims, (c: Cell) => if box.Contains(c) then At(outer, c) || (At(inner, c) && !At(outer, c)) else At(outer, c))
  }

  /** One iteration of the loop over marks. */
  function MarkApplied(b: Band, origin: Point, pitch: real, raw: RawMark): (r: Band)
    requires pitch > 0.0 && b.Valid()
    ensures r.Valid() && r.inner.dims == b.inner.dims
  {
    match Parse(raw)
    case None => b
    case Some(m) =>
      var box := Cuboid(b.inner.dims, m, origin, pitch);
      if Skipped(box) then b
      else if m.kind == "trim" then
        Band(Carve(b.inner, box, m, origin, pitch), Carve(b.outer, box, m, origin, pitch))
      else
        var inner := LocalMorph(b.inner, box, m, origin, pitch);
        Band(inner, CoverInner(b.outer, inner, box))
  }

  /** The whole loop: marks applied strictly in list order. */
  function MarksApplied(b: Band, origin: Point, pitch: real, marks: seq<RawMark>): (r: Band)
    requires pitch > 0.0 && b.Valid()
    ensures r.Valid() && r.inner.dims == b.inner.dims
    decreases |marks|
  {
    if marks == [] then b
    else MarkApplied(MarksApplied(b, origin, pitch, marks[..|marks| - 1]), origin, pitch, marks[|marks| - 1])
  }

  // ---------------------------------------------------------------------
  // Properties of one mark

  /** No cell outside the mark's cuboid changes (and a skipped mark changes nothing). */
  lemma MarkAppliedLocal(b: Band, origin: Point, pitch: real, raw: RawMark, c: Cell)
    requires pitch > 0.0 && b.Valid()
    requires var f := Footprint(b.inner.dims, origin, pitch, raw); f.None? || !f.value.Contains(c)
    ensures var r := MarkApplied(b, origin, pitch, raw);
            At(r.inner, c) == At(b.inner, c) && At(r.outer, c) == At(b.outer, c)
  {
    var d := b.inner.dims;
    if !d.Contains(c) {
      // both grids keep their dimensions, so the cell stays out of range
    }
  }

  lemma MarkAppliedSkipped(b: Band, origin: Point, pitch: real, raw: RawMark)
    requires pitch > 0.0 && b.Valid()
    requires Footprint(b.inner.dims, origin, pitch, raw).None?
    ensures MarkApplied(b, origin, pitch, raw) == b
  {
  }

  /** `trim` empties both grids at the sphere cells of the cuboid and
      touches nothing else. */
  lemma TrimEffect(b: Band, origin: Point, pitch: real, raw: RawMark, c: Cell)
    requires pitch > 0.0 && b.Valid()
    requires Parse(raw).Some? && Parse(raw).value.kind == "trim"
    requires Footprint(b.inner.dims, origin, pitch, raw).Some?
    ensures var r := MarkApplied(b, origin, pitch, raw);
            var box := Footprint(b.inner.dims, origin, pitch, raw).value;
            var m := Parse(raw).value;
            if box.Contains(c) && InSphere(m, origin, pitch, c)
            then !At(r.inner, c) && !At(r.outer, c)
            else At(r.inner, c) == At(b.inner, c) && At(r.outer, c) == At(b.outer, c)
  {
  }

  /** A grid cell whose centre lies within the radius lies in the (clamped)
      cuboid: ceil(radius / pitch) voxels always cover the sphere. */
  lemma SphereInCuboid(d: Dims, m: Mark, origin: Point, pitch: real, c: Cell)
    requires pitch > 0.0 && d.Contains(c) && InSphere(m, origin, pitch, c)
    ensures Cuboid(d, m, origin, pitch).Contains(c)
  {
    SphereAxes(m, origin, pitch, c);
    CuboidAxes(d, m, origin, pitch, c);
  }

  lemma CuboidAxes(d: Dims, m: Mark, origin: Point, pitch: real, c: Cell)
    requires pitch > 0.0 && m.radius >= 0.0 && d.Contains(c)
    requires Sq(Offset(origin.x, c.x, pitch, m.center.x)) <= m.radius * m.radius
    requires Sq(Offset(origin.y, c.y, pitch, m.center.y)) <= m.radius * m.radius
    requires Sq(Offset(origin.z, c.z, pitch, m.center.z)) <= m.radius * m.radius
    ensures Cuboid(d, m, origin, pitch).Contains(c)
  {
    CuboidX(d, m, origin, pitch, c);
    CuboidY(d, m, origin, pitch, c);
    CuboidZ(d, m, origin, pitch, c);
  }

  lemma CuboidX(d: Dims, m: Mark, origin: Point, pitch: real, c: Cell)
    requires pitch > 0.0 && m.radius >= 0.0 && 0 <= c.x < d.nx
    requires Sq(Offset(origin.x, c.x, pitch, m.center.x)) <= m.radius * m.radius
    ensures Cuboid(d, m, origin, pitch).lo.x <= c.x <= Cuboid(d, m, origin, pitch).hi.x
  {
    AxisWithin(origin.x, m.center.x, pitch, m.radius, c.x, d.nx);
  }

  lemma CuboidY(d: Dims, m: Mark, origin: Point, pitch: real, c: Cell)
    requires pitch > 0.0 && m.radius >= 0.0 && 0 <= c.y < d.ny
    requires Sq(Offset(origin.y, c.y, pitch, m.center.y)) <= m.radius * m.radius
    ensures Cuboid(d, m, origin, pitch).lo.y <= c.y <= Cuboid(d, m, origin, pitch).hi.y
  {
    AxisWithin(origin.y, m.center.y, pitch, m.radius, c.y, d.ny);
  }

  lemma CuboidZ(d: Dims, m: Mark, origin: Point, pitch: real, c: Cell)
    requires pitch > 0.0 && m.radius >= 0.0 && 0 <= c.z < d.nz
    requires Sq(Offset(origin.z, c.z, pitch, m.center.z)) <= m.radius * m.radius
    ensures Cuboid(d, m, origin, pitch).lo.z <= c.z <= Cuboid(d, m, origin, pitch).hi.z
  {
    AxisWithin(origin.z, m.center.z, pitch, m.radius, c.z, d.nz);
  }

  /** Each axis' squared offset is at most the squared radius. */
  lemma SphereAxes(m: Mark, origin: Point, pitch: real, c: Cell)
    requires InSphere(m, origin, pitch, c)
    ensures m.radius >= 0.0
    ensures Sq(Offset(origin.x, c.x, pitch, m.center.x)) <= m.radius * m.radius
    ensures Sq(Offset(origin.y, c.y, pitch, m.center.y)) <= m.radius * m.radius
    ensures Sq(Offset(origin.z, c.z, pitch, m.center.z)) <= m.radius * m.radius
  {
    ThreeSquares(Offset(origin.x, c.x, pitch, m.center.x),
                 Offset(origin.y, c.y, pitch, m.center.y),
                 Offset(origin.z, c.z, pitch, m.center.z), m.radius * m.radius);
  }

  lemma ThreeSquares(a: real, b: real, e: real, t: real)
    requires Sq(a) + Sq(b) + Sq(e) <= t
    ensures Sq(a) <= t && Sq(b) <= t && Sq(e) <= t
  {
  }

  lemma SqBound(a: real, R: real)
    requires R >= 0.0 && a * a <= R * R
    ensures -R <= a <= R
  {
    if a > R {
      SqStrict(a, R);
      assert false;
    } else if a < -R {
      SqStrict(-a, R);
      assert false;
    }
  }

  lemma SqStrict(a: real, R: real)
    requires 0.0 <= R < a
    ensures R * R < a * a
  {
    var x, y, z := R * R, R * a, a * a;
    assert x <= y;
    assert y < z;
  }

  /** One axis of SphereInCuboid. */
  lemma AxisWithin(o: real, cx: real, pitch: real, R: real, x: int, n: int)
    requires pitch > 0.0 && R >= 0.0 && 0 <= x < n
    requires Sq(Offset(o, x, pitch, cx)) <= R * R
    ensures var cv := RoundHalfEven((cx - o) / pitch);
            var rv := MaxInt(1, Ceil(R / pitch));
            MaxInt(0, cv - rv) <= x <= MinInt(n - 1, cv + rv)
  {
    var t := (cx - o) / pitch;
    var e := x as real - t;
    assert t * pitch == cx - o;
    assert o + x as real * pitch - cx == pitch * e;
    SqBound(pitch * e, R);
    assert -(R / pitch) <= e <= R / pitch by {
      assert (R / pitch) * pitch == R;
    }
    var cv := RoundHalfEven(t);
    var rv := MaxInt(1, Ceil(R / pitch));
    assert (x - cv) as real <= R / pitch + 0.5 < rv as real + 1.0;
    assert (x - cv) as real >= -(R / pitch) - 0.5 > -(rv as real) - 1.0;
  }

  /** So a trim mark that is not skipped empties every grid cell within its
      radius, in both grids. */
  lemma TrimClearsSphere(b: Band, origin: Point, pitch: real, raw: RawMark, c: Cell)
    requires pitch > 0.0 && b.Valid()
    requires Parse(raw).Some? && Parse(raw).value.kind == "trim"
    requires Footprint(b.inner.dims, origin, pitch, raw).Some?
    requires InSphere(Parse(raw).value, origin, pitch, c)
    ensures var r := MarkApplied(b, origin, pitch, raw);
            !At(r.inner, c) && !At(r.outer, c)
  {
    if b.inner.dims.Contains(c) {
      SphereInCuboid(b.inner.dims, Parse(raw).value, origin, pitch, c);
      TrimEffect(b, origin, pitch, raw, c);
    }
  }

  /** The skip test at work: the cuboid of a 1 mm trim centred one voxel
      beyond the x = 3 face of a 4x4x4 grid is one voxel thick, so the mark
      is skipped although its sphere covers grid cell (3, 2, 2). */
  lemma ThinCuboidSkipped(b: Band)
    requires b.Valid() && b.inner.dims == Dims(4, 4, 4)
    ensures var raw := RawMark(Some("trim"), Items([Num(4.0), Num(2.0), Num(2.0)]), NoCenter,
                              Num(1.0), Absent, Absent, Absent);
            var o := Point(0.0, 0.0, 0.0);
            && Parse(raw).Some?
            && InSphere(Parse(raw).value, o, 1.0, Cell(3, 2, 2))
            && b.inner.dims.Contains(Cell(3, 2, 2))
            && Footprint(b.inner.dims, o, 1.0, raw).None?
            && MarkApplied(b, o, 1.0, raw) == b
  {
    var m := Mark("trim", Point(4.0, 2.0, 2.0), 1.0, 1.0);
    assert RoundHalfEven(4.0) == 4 by { RoundHalfEvenUnique(4.0, 4); }
    assert RoundHalfEven(2.0) == 2 by { RoundHalfEvenUnique(2.0, 2); }
    assert Ceil(1.0) == 1;
    assert Cuboid(Dims(4, 4, 4), m, Point(0.0, 0.0, 0.0), 1.0).lo.x == 3;
  }

  /** pad and relief: inner changes only at sphere cells of the cuboid,
      no outer cell is ever cleared, and over the cuboid outer covers inner. */
  lemma PadReliefEffect(b: Band, origin: Point, pitch: real, raw: RawMark)
    requires pitch > 0.0 && b.Valid()
    requires Parse(raw).Some? && Parse(raw).value.kind != "trim"
    requires Footprint(b.inner.dims, origin, pitch, raw).Some?
    ensures var r := MarkApplied(b, origin, pitch, raw);
            var box := Footprint(b.inner.dims, origin, pitch, raw).value;
            var m := Parse(raw).value;
            && (forall c :: At(r.inner, c) != At(b.inner, c) ==> box.Contains(c) && InSphere(m, origin, pitch, c))
            && Covers(r.outer, b.outer)
            && (forall c :: box.Contains(c) && At(r.inner, c) ==> At(r.outer, c))
            && (m.kind == "pad" ==> Covers(r.inner, b.inner))
            && (m.kind == "relief" ==> Covers(b.inner, r.inner))
            // the new values: sphere cells of the cuboid take the sub-array
            // dilation (pad) or erosion (relief) of the old inner ...
            && (forall c :: box.Contains(c) && InSphere(m, origin, pitch, c) ==>
                  At(r.inner, c) == (if m.kind == "pad" then DilatedAt(b.inner, box, EditRadius(m, pitch), c)
                                     else if m.kind == "relief" then ErodedAt(b.inner, box, EditRadius(m, pitch), c)
                                     else At(b.inner, c)))
            // ... and over the cuboid outer becomes old outer or new inner
            && (forall c :: box.Contains(c) ==> (At(r.outer, c) <==> At(b.outer, c) || At(r.inner, c)))
  {
    var r := MarkApplied(b, origin, pitch, raw);
    var box := Footprint(b.inner.dims, origin, pitch, raw).value;
    var m := Parse(raw).value;
    var d := b.inner.dims;
    forall c | At(r.inner, c) != At(b.inner, c) ensures box.Contains(c) && InSphere(m, origin, pitch, c) {
      assert d.Contains(c);
    }
    forall c | At(b.outer, c) ensures At(r.outer, c) {
      assert d.Contains(c);
    }
    forall c | box.Contains(c) ensures At(r.outer, c) <==> At(b.outer, c) || At(r.inner, c) {
      assert d.Contains(c);
    }
    if m.kind == "pad" {
      forall c | At(b.inner, c) ensures At(r.inner, c) {
        if box.Contains(c) && InSphere(m, origin, pitch, c) {
          DilationExtensive(b.inner, box, EditRadius(m, pitch), c);
        }
      }
    }
    if m.kind == "relief" {
      forall c | At(r.inner, c) ensures At(b.inner, c) {
        assert d.Contains(c);
        if box.Contains(c) && InSphere(m, origin, pitch, c) {
          ErosionShrinks(b.inner, box, EditRadius(m, pitch), c);
        }
      }
    }
  }

  /** While outer covers inner, a relief only removes inner cells, so the
      covering step adds nothing: outer is left exactly as it was. */
  lemma ReliefKeepsOuter(b: Band, origin: Point, pitch: real, raw: RawMark)
    requires pitch > 0.0 && b.Valid() && b.WallOk()
    requires Parse(raw).Some? && Parse(raw).value.kind == "relief"
    ensures MarkApplied(b, origin, pitch, raw).outer == b.outer
  {
    var r := MarkApplied(b, origin, pitch, raw);
    var f := Footprint(b.inner.dims, origin, pitch, raw);
    if f.Some? {
      PadReliefEffect(b, origin, pitch, raw);
      forall c ensures At(r.outer, c) == At(b.outer, c) {
        if !f.value.Contains(c) {
          MarkAppliedLocal(b, origin, pitch, raw, c);
        }
      }
      GridExt(r.outer, b.outer);
    }
  }

  /** Erosion on the cuboid sub-array treats the cells beyond the cuboid as
      empty: a relief empties every sphere cell on the cuboid's low x face,
      whatever lies outside the cuboid. */
  lemma ReliefEmptiesCuboidFace(b: Band, origin: Point, pitch: real, raw: RawMark, c: Cell)
    requires pitch > 0.0 && b.Valid()
    requires Parse(raw).Some? && Parse(raw).value.kind == "relief"
    requires Footprint(b.inner.dims, origin, pitch, raw).Some?
    requires var box := Footprint(b.inner.dims, origin, pitch, raw).value;
             box.Contains(c) && c.x == box.lo.x && InSphere(Parse(raw).value, origin, pitch, c)
    ensures !At(MarkApplied(b, origin, pitch, raw).inner, c)
  {
    var m := Parse(raw).value;
    var box := Footprint(b.inner.dims, origin, pitch, raw).value;
    var r := EditRadius(m, pitch);
    assert InBall(-1, 0, 0, r);
    assert !box.Contains(c.Plus(-1, 0, 0));
    assert !ErodedAt(b.inner, box, r, c);
  }

  /** Every mark keeps outer a superset of inner. */
  lemma MarkAppliedKeepsWall(b: Band, origin: Point, pitch: real, raw: RawMark)
    requires pitch > 0.0 && b.Valid() && b.WallOk()
    ensures MarkApplied(b, origin, pitch, raw).WallOk()
  {
    var r := MarkApplied(b, origin, pitch, raw);
    var f := Footprint(b.inner.dims, origin, pitch, raw);
    if f.Some? {
      var m := Parse(raw).value;
      if m.kind == "trim" {
        forall c | At(r.inner, c) ensures At(r.outer, c) {
          TrimEffect(b, origin, pitch, raw, c);
        }
      } else {
        PadReliefEffect(b, origin, pitch, raw);
        forall c | At(r.inner, c) ensures At(r.outer, c) {
          if !f.value.Contains(c) {
            MarkAppliedLocal(b, origin, pitch, raw, c);
          }
        }
      }
    }
  }

  // ---------------------------------------------------------------------
  // Properties of the ordered fold

  lemma {:induction false} MarksAppliedAppend(b: Band, origin: Point, pitch: real, xs: seq<RawMark>, ys: seq<RawMark>)
    requires pitch > 0.0 && b.Valid()
    ensures MarksApplied(b, origin, pitch, xs + ys)
         == MarksApplied(MarksApplied(b, origin, pitch, xs), origin, pitch, ys)
    decreases |ys|
  {
    if ys == [] {
      assert xs + ys == xs;
    } else {
      var ys' := ys[..|ys| - 1];
      assert (xs + ys)[..|xs + ys| - 1] == xs + ys';
      MarksAppliedAppend(b, origin, pitch, xs, ys');
    }
  }

  /** A mark whose fields fail to convert is skipped; the marks after it
      still apply. */
  lemma MalformedMarkSkipped(b: Band, origin: Point, pitch: real, xs: seq<RawMark>, raw: RawMark, ys: seq<RawMark>)
    requires pitch > 0.0 && b.Valid()
    requires Parse(raw).None?
    ensures MarksApplied(b, origin, pitch, xs + [raw] + ys) == MarksApplied(b, origin, pitch, xs + ys)
  {
    MarksAppliedAppend(b, origin, pitch, xs + [raw], ys);
    MarksAppliedAppend(b, origin, pitch, xs, [raw]);
    assert [raw][..0] == [];
    MarksAppliedAppend(b, origin, pitch, xs, ys);
  }

  lemma {:induction false} MarksAppliedKeepWall(b: Band, origin: Point, pitch: real, marks: seq<RawMark>)
    requires pitch > 0.0 && b.Valid() && b.WallOk()
    ensures MarksApplied(b, origin, pitch, marks).WallOk()
    decreases |marks|
  {
    if marks != [] {
      MarksAppliedKeepWall(b, origin, pitch, marks[..|marks| - 1]);
      MarkAppliedKeepsWall(MarksApplied(b, origin, pitch, marks[..|marks| - 1]), origin, pitch, marks[|marks| - 1]);
    }
  }

  /** A cell outside the cuboid of every mark is never changed. */
  lemma {:induction false} MarksAppliedLocal(b: Band, origin: Point, pitch: real, marks: seq<RawMark>, c: Cell)
    requires pitch > 0.0 && b.Valid()
    requires forall k :: 0 <= k < |marks| ==>
               var f := Footprint(b.inner.dims, origin, pitch, marks[k]); f.None? || !f.value.Contains(c)
    ensures var r := MarksApplied(b, origin, pitch, marks);
            At(r.inner, c) == At(b.inner, c) && At(r.outer, c) == At(b.outer, c)
    decreases |marks|
  {
    if marks != [] {
      var init := marks[..|marks| - 1];
      assert forall k :: 0 <= k < |init| ==> init[k] == marks[k];
      MarksAppliedLocal(b, origin, pitch, init, c);
      MarkAppliedLocal(MarksApplied(b, origin, pitch, init), origin, pitch, marks[|marks| - 1], c);
    }
  }

  // ---------------------------------------------------------------------
  // The in-place implementation on the grids' buffers

  /** One loop iteration, editing the two buffers in place through the
      cuboid and sphere masks. */
  method ApplyMark(inner: array<bool>, outer: array<bool>, d: Dims, origin: Point, pitch: real, raw: RawMark)
    requires inner != outer && inner.Length == d.Size() && outer.Length == d.Size()
    requires pitch > 0.0
    modifies inner, outer
    ensures Band(GridData(d, inner[..]), GridData(d, outer[..]))
         == MarkApplied(Band(GridData(d, old(inner[..])), GridData(d, old(outer[..]))), origin, pitch, raw)
  {
    ghost var b := Band(GridData(d, inner[..]), GridData(d, outer[..]));
    var parsed := Parse(raw);
    if parsed.None? {
      return;
    }
    var m := parsed.value;
    var box := Cuboid(d, m, origin, pitch);
    if Skipped(box) {
      return;
    }
    if m.kind == "trim" {
      forall i | 0 <= i < inner.Length && box.Contains(d.Decode(i)) && InSphere(m, origin, pitch, d.Decode(i)) {
        inner[i] := false;
      }
      forall i | 0 <= i < outer.Length && box.Contains(d.Decode(i)) && InSphere(m, origin, pitch, d.Decode(i)) {
        outer[i] := false;
      }
      assert inner[..] == Carve(b.inner, box, m, origin, pitch).cells;
      assert outer[..] == Carve(b.outer, box, m, origin, pitch).cells;
      return;
    }
    var r := EditRadius(m, pitch);
    var local: Grid := GridData(d, inner[..]);
    if m.kind == "pad" {
      forall i | 0 <= i < inner.Length && box.Contains(d.Decode(i)) && InSphere(m, origin, pitch, d.Decode(i)) {
        inner[i] := DilatedAt(local, box, r, d.Decode(i));
      }
    } else if m.kind == "relief" {
      forall i | 0 <= i < inner.Length && box.Contains(d.Decode(i)) && InSphere(m, origin, pitch, d.Decode(i)) {
        inner[i] := ErodedAt(local, box, r, d.Decode(i));
      }
    }
    assert inner[..] == LocalMorph(b.inner, box, m, origin, pitch).cells;
    forall i | 0 <= i < outer.Length && box.Contains(d.Decode(i)) {
      outer[i] := outer[i] || (inner[i] && !outer[i]);
    }
    assert outer[..] == CoverInner(b.outer, LocalMorph(b.inner, box, m, origin, pitch), box).cells;
  }

  /** `_apply_marks`: the marks in list order, each applied in place. */
  method ApplyMarks(inner: array<bool>, outer: array<bool>, d: Dims, origin: Point, pitch: real, marks: seq<RawMark>)
    requires inner != outer && inner.Length == d.Size() && outer.Length == d.Size()
    requires pitch > 0.0
    modifies inner, outer
    ensures Band(GridData(d, inner[..]), GridData(d, outer[..]))
         == MarksApplied(Band(GridData(d, old(inner[..])), GridData(d, old(outer[..]))), origin, pitch, marks)
  {
    ghost var start := Band(GridData(d, inner[..]), GridData(d, outer[..]));
    var k := 0;
    while k < |marks|
      invariant 0 <= k <= |marks|
      invariant Band(GridData(d, inner[..]), GridData(d, outer[..])) == MarksApplied(start, origin, pitch, marks[..k])
    {
      ApplyMark(inner, outer, d, origin, pitch, marks[k]);
      assert marks[..k + 1][..k] == marks[..k];
      k := k + 1;
    }
    assert marks[..|marks|] == marks;
  }
}
