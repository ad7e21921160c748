/**
 * Resolution policy of the cooling simulator: a fixed table from quality tier and
 * specimen geometry to grid-point counts, the clamp every solver applies to those
 * counts, and the grid spacing and centre index derived from a count.
 */
module Resolution {

  datatype Tier = Low | Medium | High

  datatype Geometry = Square | Cylindrical | Conical

  /**
   * Point counts for a tier and geometry: square gives (rows along the height,
   * columns along the width), cylindrical gives (radial, axial), conical gives the
   * single axial count.
   */
  function ResolutionParams(tier: Tier, geometry: Geometry): (counts: seq<int>)
    ensures |counts| == if geometry == Conical then 1 else 2
    ensures forall c | c in counts :: 12 <= c <= 50
  {
    match (tier, geometry)
    case (Low, Square) => [15, 15]
    case (Low, Cylindrical) => [12, 25]
    case (Low, Conical) => [25]
    case (Medium, Square) => [25, 25]
    case (Medium, Cylindrical) => [18, 35]
    case (Medium, Conical) => [40]
    case (High, Square) => [35, 35]
    case (High, Cylindrical) => [24, 45]
    case (High, Conical) => [50]
  }

  /** Rank of a tier, coarse to fine. */
  function Rank(tier: Tier): nat
  {
    match tier
    case Low => 0
    case Medium => 1
    case High => 2
  }

  /** A finer tier gives strictly more points on every axis of every geometry. */
  lemma FinerTierHasMorePoints(coarse: Tier, fine: Tier, geometry: Geometry, axis: nat)
    requires Rank(coarse) < Rank(fine)
    requires axis < |ResolutionParams(coarse, geometry)|
    ensures |ResolutionParams(fine, geometry)| == |ResolutionParams(coarse, geometry)|
    ensures ResolutionParams(coarse, geometry)[axis] < ResolutionParams(fine, geometry)[axis]
  {
  }

  /** The clamp each solver applies to a count before dividing by count - 1. */
  function AtLeastThree(n: int): (m: int)
    ensures m >= 3 && m >= n
    ensures n >= 3 ==> m == n
    ensures n < 3 ==> m == 3
  {
    if n >= 3 then n else 3
  }

  /** Every count of the table passes through the clamp unchanged. */
  lemma TableIsNeverClamped(tier: Tier, geometry: Geometry, axis: nat)
    requires axis < |ResolutionParams(tier, geometry)|
    ensures AtLeastThree(ResolutionParams(tier, geometry)[axis]) == ResolutionParams(tier, geometry)[axis]
  {
    assert ResolutionParams(tier, geometry)[axis] in ResolutionParams(tier, geometry);
  }

  /** Spacing of n equally spaced points over a length: length / (n - 1). */
  function Spacing(length: real, n: int): (d: real)
    requires n >= 3
    ensures d * (n - 1) as real == length
    ensures length != 0.0 <==> d != 0.0
  {
    length / (n - 1) as real
  }

  /** Index of the representative node on an axis of n points: min(n // 2, n - 1). */
  function CentreIndex(n: int): (c: int)
    requires n >= 1
    ensures 0 <= c < n
    ensures c == n / 2
  {
    if n / 2 <= n - 1 then n / 2 else n - 1
  }
}
