// Entities and geometry of the packing planner. Lengths are integers in 0.001 cm, weights in grams
// and volumes in (0.001 cm)^3. On that grid the planner's length and weight tolerances of 0.000001
// are exact comparisons; its volume tolerance is 1000 units and is kept as the parameter `eps`.

module PackingModel {
  datatype Dimensions = Dimensions(length: int, width: int, height: int)
  datatype Position = Position(x: int, y: int, z: int)
  datatype Placement = Placement(step: nat, unitId: string, sku: string, productName: string,
                                 position: Position, dimensions: Dimensions, weight: int)
  datatype Unit = Unit(id: string, ordinal: nat, sku: string, productName: string,
                       dimensions: Dimensions, weight: int)
  datatype Package = Package(index: nat, bounds: Dimensions, placements: seq<Placement>,
                             usedWeight: int, usedVolume: int)
  datatype Candidate = Candidate(position: Position, bounds: Dimensions,
                                 addedVolume: int, totalVolume: int)

  const MAX_DIMENSION := 500_000
  const MAX_WEIGHT := 1_000_000
  const VOLUME_EPSILON: nat := 1000

  function Abs(n: int): nat {
    if n < 0 then -n else n
  }

  function Max(a: int, b: int): int {
    if a < b then b else a
  }

  function Volume(d: Dimensions): int {
    d.length * d.width * d.height
  }

  predicate Positive(d: Dimensions) {
    0 < d.length && 0 < d.width && 0 < d.height
  }

  predicate ExceedsLimits(item: Unit) {
    || item.dimensions.length > MAX_DIMENSION || item.dimensions.width > MAX_DIMENSION
    || item.dimensions.height > MAX_DIMENSION || item.weight > MAX_WEIGHT
  }

  predicate WithinLimits(d: Dimensions) {
    d.length <= MAX_DIMENSION && d.width <= MAX_DIMENSION && d.height <= MAX_DIMENSION
  }

  // The length runs along x, the height along y and the width along z.
  predicate Overlap(p: Position, d: Dimensions, q: Position, e: Dimensions) {
    && p.x < q.x + e.length && q.x < p.x + d.length
    && p.y < q.y + e.height && q.y < p.y + d.height
    && p.z < q.z + e.width && q.z < p.z + d.width
  }

  function ExpandedBounds(current: Dimensions, p: Position, d: Dimensions): Dimensions {
    Dimensions(Max(current.length, p.x + d.length), Max(current.width, p.z + d.width),
      Max(current.height, p.y + d.height))
  }

  predicate BetterCandidate(eps: nat, l: Candidate, r: Candidate) {
    var leftSpan := l.bounds.length + l.bounds.width + l.bounds.height;
    var rightSpan := r.bounds.length + r.bounds.width + r.bounds.height;
    if Abs(l.addedVolume - r.addedVolume) > eps then l.addedVolume < r.addedVolume
    else if Abs(l.totalVolume - r.totalVolume) > eps then l.totalVolume < r.totalVolume
    else if leftSpan != rightSpan then leftSpan < rightSpan
    else if l.position.y != r.position.y then l.position.y < r.position.y
    else if l.position.x != r.position.x then l.position.x < r.position.x
    else l.position.z < r.position.z
  }

  // ---- Candidate corners ------------------------------------------------------------------

  function Include(positions: seq<Position>, p: Position): (r: seq<Position>)
    ensures forall q :: q in r <==> q in positions || q == p
  {
    if p in positions then positions else positions + [p]
  }

  function XCorner(b: Placement): Position { Position(b.position.x + b.dimensions.length, b.position.y, b.position.z) }
  function YCorner(b: Placement): Position { Position(b.position.x, b.position.y + b.dimensions.height, b.position.z) }
  function ZCorner(b: Placement): Position { Position(b.position.x, b.position.y, b.position.z + b.dimensions.width) }

  // The three corners of every placement, in placement order, each position once.
  function Corners(placements: seq<Placement>): seq<Position> {
    if placements == [] then [] else
      var last := placements[|placements| - 1];
      Include(Include(Include(Corners(placements[..|placements| - 1]), XCorner(last)), YCorner(last)), ZCorner(last))
  }

  predicate IntersectsAny(placements: seq<Placement>, p: Position, d: Dimensions) {
    exists i :: 0 <= i < |placements| && Overlap(p, d, placements[i].position, placements[i].dimensions)
  }

  function CandidateAt(pkg: Package, item: Unit, p: Position): Candidate {
    var bounds := ExpandedBounds(pkg.bounds, p, item.dimensions);
    Candidate(p, bounds, Volume(bounds) - Volume(pkg.bounds), Volume(bounds))
  }

  predicate Feasible(pkg: Package, item: Unit, p: Position) {
    && pkg.usedWeight + item.weight <= MAX_WEIGHT
    && !IntersectsAny(pkg.placements, p, item.dimensions)
    && WithinLimits(ExpandedBounds(pkg.bounds, p, item.dimensions))
  }

  function WithPlacement(pkg: Package, item: Unit, c: Candidate): Package {
    pkg.(placements := pkg.placements + [Placement(|pkg.placements| + 1, item.id, item.sku, item.productName,
                                                   c.position, item.dimensions, item.weight)],
         bounds := c.bounds,
         usedWeight := pkg.usedWeight + item.weight,
         usedVolume := pkg.usedVolume + Volume(item.dimensions))
  }
}
