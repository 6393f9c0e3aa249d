/** Integer/real helpers shared by the offsetting engine: Python's
    half-to-even `round`, `ceil`, and integer/real min/max. */
module Numeric {

  function MaxInt(a: int, b: int): int { if a >= b then a else b }
  function MinInt(a: int, b: int): int { if a <= b then a else b }
  function MaxReal(a: real, b: real): real { if a >= b then a else b }
  function MinReal(a: real, b: real): real { if a <= b then a else b }
  function AbsReal(a: real): real { if a >= 0.0 then a else -a }

  /** Python's `round` / numpy's `np.round` on a real: the nearest integer,
      ties going to the even neighbour. */
  function RoundHalfEven(x: real): (r: int)
    ensures x - 0.5 <= r as real <= x + 0.5
    ensures (r as real - x == 0.5 || x - r as real == 0.5) ==> r % 2 == 0
  {
    var f := x.Floor;
    var frac := x - f as real;
    if frac < 0.5 then f
    else if frac > 0.5 then f + 1
    else if f % 2 == 0 then f
    else f + 1
  }

  /** The two properties in RoundHalfEven's contract determine the result:
      any other integer satisfying them is the same integer. */
  lemma RoundHalfEvenUnique(x: real, n: int)
    requires x - 0.5 <= n as real <= x + 0.5
    requires (n as real - x == 0.5 || x - n as real == 0.5) ==> n % 2 == 0
    ensures n == RoundHalfEven(x)
  {
  }

  /** `math.ceil` / `np.ceil`: the least integer not below x. */
  function Ceil(x: real): (r: int)
    ensures x <= r as real < x + 1.0
  {
    -((-x).Floor)
  }

  /** Radius in whole voxels of a length in mm: max(1, round(|mm| / pitch)).
      It is at least 1, never more than half a voxel short of |mm| / pitch,
      and when above 1 never more than half a voxel beyond it. */
  function VoxelRadius(mm: real, pitch: real): (r: nat)
    requires pitch > 0.0
    ensures r >= 1
    ensures r as real >= AbsReal(mm) / pitch - 0.5
    ensures r > 1 ==> r as real <= AbsReal(mm) / pitch + 0.5
  {
    MaxInt(1, RoundHalfEven(AbsReal(mm) / pitch))
  }

  /** Ties go to the even radius: 1.25 mm at 0.5 mm is 2 voxels, and so is
      0.75 mm; 2.5 mm is 5 voxels and a tiny offset still gets 1 voxel. */
  lemma VoxelRadiusTies()
    ensures VoxelRadius(1.25, 0.5) == 2
    ensures VoxelRadius(0.75, 0.5) == 2
    ensures VoxelRadius(-2.5, 0.5) == 5
    ensures VoxelRadius(0.1, 0.5) == 1
  {
    RoundHalfEvenUnique(2.5, 2);
    RoundHalfEvenUnique(1.5, 2);
    RoundHalfEvenUnique(5.0, 5);
    RoundHalfEvenUnique(0.2, 0);
  }
}
