// Which corner of which package receives the next unit, and when that choice is the least one.

module PackingChoice {
  import opened PackingModel
  import opened Wrappers

  // ---- The two scans ----------------------------------------------------------------------

  function BestCorner(eps: nat, pkg: Package, item: Unit, corners: seq<Position>): Option<Candidate> {
    if corners == [] then None else
      var best := BestCorner(eps, pkg, item, corners[..|corners| - 1]);
      var p := corners[|corners| - 1];
      if Feasible(pkg, item, p) && (best.None? || BetterCandidate(eps, CandidateAt(pkg, item, p), best.value))
      then Some(CandidateAt(pkg, item, p)) else best
  }

  function BestIn(eps: nat, pkg: Package, item: Unit): Option<Candidate> {
    BestCorner(eps, pkg, item, Corners(pkg.placements))
  }

  datatype Choice = Choice(index: nat, candidate: Candidate)

  function BestExisting(eps: nat, packages: seq<Package>, item: Unit): (r: Option<Choice>)
    ensures r.Some? ==> r.value.index < |packages|
  {
    if packages == [] then None else
      var n := |packages| - 1;
      var best := BestExisting(eps, packages[..n], item);
      var current := BestIn(eps, packages[n], item);
      if current.None? || (best.Some? && !BetterCandidate(eps, current.value, best.value.candidate)) then best
      else Some(Choice(n, current.value))
  }

  method AddPosition(positions: seq<Position>, seen: set<Position>, p: Position)
      returns (positions': seq<Position>, seen': set<Position>)
    requires forall q :: q in seen <==> q in positions
    ensures positions' == Include(positions, p)
    ensures forall q :: q in seen' <==> q in positions'
  {
    positions', seen' := positions, seen;
    if p !in seen {
      positions', seen' := positions + [p], seen + {p};
    }
  }

  method CornerPositions(placements: seq<Placement>) returns (positions: seq<Position>)
    ensures positions == Corners(placements)
  {
    var seen: set<Position>;
    positions, seen := [], {};
    for i := 0 to |placements|
      invariant positions == Corners(placements[..i])
      invariant forall p :: p in seen <==> p in positions
    {
      var placed := placements[i];
      assert placements[..i + 1][..i] == placements[..i];
      positions, seen := AddPosition(positions, seen, XCorner(placed));
      positions, seen := AddPosition(positions, seen, YCorner(placed));
      positions, seen := AddPosition(positions, seen, ZCorner(placed));
    }
    assert placements[..|placements|] == placements;
  }

  method BestPlacement(eps: nat, pkg: Package, item: Unit) returns (best: Candidate, found: bool)
    ensures found == BestIn(eps, pkg, item).Some?
    ensures found ==> best == BestIn(eps, pkg, item).value
  {
    hide Volume, Overlap, BetterCandidate, IntersectsAny, WithinLimits, ExpandedBounds, Corners;
    best, found := Candidate(Position(0, 0, 0), Dimensions(0, 0, 0), 0, 0), false;
    if pkg.usedWeight + item.weight > MAX_WEIGHT {
      TooHeavy(eps, pkg, item, Corners(pkg.placements));
      return;
    }
    var positions := CornerPositions(pkg.placements);
    var currentVolume := Volume(pkg.bounds);
    for i := 0 to |positions|
      invariant found == BestCorner(eps, pkg, item, positions[..i]).Some?
      invariant found ==> best == BestCorner(eps, pkg, item, positions[..i]).value
    {
      var p := positions[i];
      assert positions[..i + 1][..i] == positions[..i];
      var blocked := IntersectsAnyScan(pkg.placements, p, item.dimensions);
      var bounds := ExpandedBounds(pkg.bounds, p, item.dimensions);
      if !blocked && WithinLimits(bounds) {
        var candidate := Candidate(p, bounds, Volume(bounds) - currentVolume, Volume(bounds));
        if !found || BetterCandidate(eps, candidate, best) {
          best, found := candidate, true;
        }
      }
    }
    assert positions[..|positions|] == positions;
  }

  method BestExistingPackage(eps: nat, packages: seq<Package>, item: Unit)
      returns (bestIndex: int, best: Candidate, found: bool)
    ensures found == BestExisting(eps, packages, item).Some?
    ensures found ==> 0 <= bestIndex < |packages| && BestExisting(eps, packages, item) == Some(Choice(bestIndex, best))
  {
    hide BestIn, BetterCandidate;
    bestIndex, best, found := -1, Candidate(Position(0, 0, 0), Dimensions(0, 0, 0), 0, 0), false;
    for i := 0 to |packages|
      invariant found == BestExisting(eps, packages[..i], item).Some?
      invariant found ==> 0 <= bestIndex < i && BestExisting(eps, packages[..i], item) == Some(Choice(bestIndex, best))
    {
      assert packages[..i + 1][..i] == packages[..i];
      var candidate, fits := BestPlacement(eps, packages[i], item);
      if fits && !(found && !BetterCandidate(eps, candidate, best)) {
        bestIndex, best, found := i, candidate, true;
      }
    }
    assert packages[..|packages|] == packages;
  }

  method IntersectsAnyScan(placements: seq<Placement>, p: Position, d: Dimensions) returns (hit: bool)
    ensures hit == IntersectsAny(placements, p, d)
  {
    for i := 0 to |placements|
      invariant forall k :: 0 <= k < i ==> !Overlap(p, d, placements[k].position, placements[k].dimensions)
    {
      if Overlap(p, d, placements[i].position, placements[i].dimensions) {
        return true;
      }
    }
    return false;
  }

  lemma {:induction false} TooHeavy(eps: nat, pkg: Package, item: Unit, corners: seq<Position>)
    requires pkg.usedWeight + item.weight > MAX_WEIGHT
    ensures BestCorner(eps, pkg, item, corners).None?
  {
    if corners != [] {
      TooHeavy(eps, pkg, item, corners[..|corners| - 1]);
    }
  }

  // ---- What the scans return --------------------------------------------------------------

  predicate CornerOf(b: Placement, p: Position) {
    p == XCorner(b) || p == YCorner(b) || p == ZCorner(b)
  }

  ghost predicate IsCornerOf(placements: seq<Placement>, p: Position) {
    exists i :: 0 <= i < |placements| && CornerOf(placements[i], p)
  }

  // The corner list holds every corner of every placement, each once.
  lemma {:induction false} CornersExact(placements: seq<Placement>)
    ensures forall p :: p in Corners(placements) <==> IsCornerOf(placements, p)
    ensures DistinctPositions(Corners(placements))
  {
    hide XCorner, YCorner, ZCorner, Include, DistinctPositions, IsCornerOf;
    if placements == [] {
      NoCorners();
    } else {
      var n := |placements| - 1;
      var rest, last := placements[..n], placements[n];
      CornersExact(rest);
      var b := Include(Corners(rest), XCorner(last));
      var c := Include(b, YCorner(last));
      IncludeDistinct(Corners(rest), XCorner(last));
      IncludeDistinct(b, YCorner(last));
      IncludeDistinct(c, ZCorner(last));
      forall p ensures p in Corners(placements) <==> IsCornerOf(placements, p) {
        OneMoreBox(placements, p);
      }
    }
  }

  lemma NoCorners()
    ensures DistinctPositions(Corners([])) && forall p :: p in Corners([]) <==> IsCornerOf([], p)
  {
  }

  lemma OneMoreBox(placements: seq<Placement>, p: Position)
    requires placements != []
    ensures var n := |placements| - 1;
            IsCornerOf(placements, p) <==> IsCornerOf(placements[..n], p) || CornerOf(placements[n], p)
  {
    hide XCorner, YCorner, ZCorner;
    var n := |placements| - 1;
    if i :| 0 <= i < n && CornerOf(placements[..n][i], p) {
      assert placements[..n][i] == placements[i];
    }
    if i :| 0 <= i < |placements| && CornerOf(placements[i], p) {
      assert i < n ==> placements[..n][i] == placements[i];
    }
  }

  ghost predicate DistinctPositions(positions: seq<Position>) {
    forall i, j :: 0 <= i < j < |positions| ==> positions[i] != positions[j]
  }

  lemma IncludeDistinct(positions: seq<Position>, p: Position)
    requires DistinctPositions(positions)
    ensures DistinctPositions(Include(positions, p))
  {
  }

  // Any tolerance: a result exists exactly when a corner is feasible, and it is one of them.
  lemma {:induction false} BestCornerFeasible(eps: nat, pkg: Package, item: Unit, corners: seq<Position>)
    ensures BestCorner(eps, pkg, item, corners).Some? <==> exists p :: p in corners && Feasible(pkg, item, p)
    ensures var best := BestCorner(eps, pkg, item, corners);
            best.Some? ==> && best.value.position in corners
                           && Feasible(pkg, item, best.value.position)
                           && best.value == CandidateAt(pkg, item, best.value.position)
  {
    if corners != [] {
      var n := |corners| - 1;
      BestCornerFeasible(eps, pkg, item, corners[..n]);
      assert corners == corners[..n] + [corners[n]];
    }
  }

  ghost predicate FeasibleCorner(pkg: Package, item: Unit, p: Position) {
    p in Corners(pkg.placements) && Feasible(pkg, item, p)
  }

  ghost predicate AnyFeasible(packages: seq<Package>, item: Unit) {
    exists i, p :: 0 <= i < |packages| && FeasibleCorner(packages[i], item, p)
  }

  lemma {:induction false} BestExistingFeasible(eps: nat, packages: seq<Package>, item: Unit)
    ensures BestExisting(eps, packages, item).Some? <==> AnyFeasible(packages, item)
    ensures var best := BestExisting(eps, packages, item);
            best.Some? ==>
              && best.value.index < |packages|
              && var pkg, p := packages[best.value.index], best.value.candidate.position;
                 FeasibleCorner(pkg, item, p) && best.value.candidate == CandidateAt(pkg, item, p)
  {
    hide BetterCandidate, CandidateAt, Feasible, Corners, BestCorner;
    if packages != [] {
      var n := |packages| - 1;
      BestExistingFeasible(eps, packages[..n], item);
      BestCornerFeasible(eps, packages[n], item, Corners(packages[n].placements));
      if i, p :| 0 <= i < |packages| && FeasibleCorner(packages[i], item, p) {
        if i < n {
          assert FeasibleCorner(packages[..n][i], item, p);
        } else {
          assert BestIn(eps, packages[n], item).Some?;
        }
      }
      var best := BestExisting(eps, packages, item);
      if best.Some? {
        assert FeasibleCorner(packages[best.value.index], item, best.value.candidate.position);
      }
    }
  }

  // ---- When the choice is the least one ---------------------------------------------------

  function Span(c: Candidate): int {
    c.bounds.length + c.bounds.width + c.bounds.height
  }

  // Least added volume, then least envelope volume, then least edge sum, then lowest, leftmost, nearest.
  predicate Precedes(l: Candidate, r: Candidate) {
    || l.addedVolume < r.addedVolume
    || (l.addedVolume == r.addedVolume
        && (|| l.totalVolume < r.totalVolume
            || (l.totalVolume == r.totalVolume
                && (|| Span(l) < Span(r)
                    || (Span(l) == Span(r) && PositionPrecedes(l.position, r.position))))))
  }

  predicate PositionPrecedes(p: Position, q: Position) {
    p.y < q.y || (p.y == q.y && (p.x < q.x || (p.x == q.x && p.z < q.z)))
  }

  // n is a non-negative multiple of step.
  predicate OnGrid(step: int, n: int)
    requires 0 < step
    decreases n
  {
    n == 0 || (step <= n && OnGrid(step, n - step))
  }

  predicate DimensionsOnGrid(step: int, d: Dimensions)
    requires 0 < step
  {
    OnGrid(step, d.length) && OnGrid(step, d.width) && OnGrid(step, d.height)
  }

  predicate PositionOnGrid(step: int, p: Position)
    requires 0 < step
  {
    OnGrid(step, p.x) && OnGrid(step, p.y) && OnGrid(step, p.z)
  }

  predicate PackageOnGrid(step: int, pkg: Package)
    requires 0 < step
  {
    && DimensionsOnGrid(step, pkg.bounds)
    && forall i :: 0 <= i < |pkg.placements| ==>
         PositionOnGrid(step, pkg.placements[i].position) && DimensionsOnGrid(step, pkg.placements[i].dimensions)
  }

  lemma {:induction false} GridSum(step: int, a: int, b: int)
    requires 0 < step && OnGrid(step, a) && OnGrid(step, b)
    ensures OnGrid(step, a + b)
    decreases b
  {
    if b != 0 {
      GridSum(step, a, b - step);
      GridNonNegative(step, a);
      GridNonNegative(step, b - step);
    }
  }

  lemma {:induction false} GridNonNegative(step: int, n: int)
    requires 0 < step && OnGrid(step, n)
    ensures 0 <= n
  {
  }

  lemma {:induction false} GridQuotient(step: int, n: int) returns (k: int)
    requires 0 < step && OnGrid(step, n)
    ensures n == k * step
    decreases n
  {
    if n == 0 { return 0; }
    k := GridQuotient(step, n - step);
    k := k + 1;
  }

  lemma Distribute(a: int, b: int, c: int)
    ensures (a - b) * c == a * c - b * c
  {
  }

  lemma Monotone(a: int, b: int, c: int)
    requires a <= b && 0 <= c
    ensures a * c <= b * c
  {
    assert (b - a) * c >= 0;
  }

  ghost function Cube(step: int): int { step * step * step }

  lemma Regroup(a: int, b: int, c: int, s: int)
    ensures (a * s) * (b * s) * (c * s) == (a * b * c) * (s * s * s)
  {
    assert (a * s) * (b * s) == (a * b) * (s * s);
    assert ((a * b) * (s * s)) * (c * s) == ((a * b) * c) * ((s * s) * s);
  }

  lemma VolumeOnGrid(step: int, d: Dimensions) returns (k: int)
    requires 0 < step && DimensionsOnGrid(step, d)
    ensures Volume(d) == k * Cube(step)
  {
    var a := GridQuotient(step, d.length);
    var b := GridQuotient(step, d.width);
    var c := GridQuotient(step, d.height);
    k := a * b * c;
    Regroup(a, b, c, step);
  }

  lemma {:induction false} CornersOnGrid(step: int, placements: seq<Placement>)
    requires 0 < step
    requires forall i :: 0 <= i < |placements| ==>
      PositionOnGrid(step, placements[i].position) && DimensionsOnGrid(step, placements[i].dimensions)
    ensures forall p :: p in Corners(placements) ==> PositionOnGrid(step, p)
  {
    hide OnGrid, Include;
    if placements != [] {
      var n := |placements| - 1;
      var last := placements[n];
      CornersOnGrid(step, placements[..n]);
      assert PositionOnGrid(step, last.position) && DimensionsOnGrid(step, last.dimensions);

      GridSum(step, last.position.x, last.dimensions.length);
      GridSum(step, last.position.y, last.dimensions.height);
      GridSum(step, last.position.z, last.dimensions.width);
    }
  }

  // Placing an on-grid unit at an on-grid position keeps the package on the grid.
  lemma PlacementOnGrid(step: int, pkg: Package, item: Unit, p: Position)
    requires 0 < step && PackageOnGrid(step, pkg) && DimensionsOnGrid(step, item.dimensions) && PositionOnGrid(step, p)
    ensures DimensionsOnGrid(step, CandidateAt(pkg, item, p).bounds)
    ensures PackageOnGrid(step, WithPlacement(pkg, item, CandidateAt(pkg, item, p)))
  {
    hide OnGrid, Volume;
    GridSum(step, p.x, item.dimensions.length);
    GridSum(step, p.y, item.dimensions.height);
    GridSum(step, p.z, item.dimensions.width);
  }

  ghost predicate CandidateOnGrid(step: int, c: Candidate) {
    && (exists k: int :: c.addedVolume == k * Cube(step))
    && (exists k: int :: c.totalVolume == k * Cube(step))
  }

  lemma CandidateAtOnGrid(step: int, pkg: Package, item: Unit, p: Position)
    requires 0 < step && PackageOnGrid(step, pkg) && DimensionsOnGrid(step, item.dimensions) && PositionOnGrid(step, p)
    ensures CandidateOnGrid(step, CandidateAt(pkg, item, p))
  {
    hide OnGrid, Volume, Cube;
    PlacementOnGrid(step, pkg, item, p);
    var total := VolumeOnGrid(step, CandidateAt(pkg, item, p).bounds);
    var before := VolumeOnGrid(step, pkg.bounds);
    Distribute(total, before, Cube(step));
  }

  lemma CloseMultiplesEqual(eps: nat, g: int, a: int, b: int)
    requires eps < g && (exists k: int :: a == k * g) && (exists k: int :: b == k * g)
    requires Abs(a - b) <= eps
    ensures a == b
  {
    var i: int :| a == i * g;
    var j: int :| b == j * g;
    assert (i - j) * g == a - b;
    if i - j >= 1 { Monotone(1, i - j, g); }
    if i - j <= -1 { Monotone(i - j, -1, g); }
  }

  // With the tolerance below the cell volume of the grid, the comparison is the exact one.
  lemma BetterIsExact(eps: nat, step: int, l: Candidate, r: Candidate)
    requires 0 < step && eps < Cube(step) && CandidateOnGrid(step, l) && CandidateOnGrid(step, r)
    ensures BetterCandidate(eps, l, r) <==> Precedes(l, r)
  {
    if Abs(l.addedVolume - r.addedVolume) <= eps {
      CloseMultiplesEqual(eps, Cube(step), l.addedVolume, r.addedVolume);
    }
    if Abs(l.totalVolume - r.totalVolume) <= eps {
      CloseMultiplesEqual(eps, Cube(step), l.totalVolume, r.totalVolume);
    }
  }

  lemma PrecedesStrictOrder(a: Candidate, b: Candidate, c: Candidate)
    ensures !Precedes(a, a)
    ensures Precedes(a, b) && Precedes(b, c) ==> Precedes(a, c)
    ensures !Precedes(b, a) && !Precedes(c, b) ==> !Precedes(c, a)
    ensures !Precedes(a, b) && !Precedes(b, a) ==> a.position == b.position
  {
  }

  ghost predicate LeastCorner(pkg: Package, item: Unit, corners: seq<Position>, c: Candidate) {
    forall p :: p in corners && Feasible(pkg, item, p) ==> !Precedes(CandidateAt(pkg, item, p), c)
  }

  lemma {:induction false} BestCornerLeast(eps: nat, step: int, pkg: Package, item: Unit, corners: seq<Position>)
    requires 0 < step && eps < Cube(step) && PackageOnGrid(step, pkg) && DimensionsOnGrid(step, item.dimensions)
    requires forall p :: p in corners ==> PositionOnGrid(step, p)
    ensures var best := BestCorner(eps, pkg, item, corners);
            best.Some? ==> CandidateOnGrid(step, best.value) && LeastCorner(pkg, item, corners, best.value)
  {
    if corners != [] {
      var n := |corners| - 1;
      var prior := BestCorner(eps, pkg, item, corners[..n]);
      BestCornerLeast(eps, step, pkg, item, corners[..n]);
      BestCornerFeasible(eps, pkg, item, corners[..n]);
      BestCornerFeasible(eps, pkg, item, corners);
      assert corners == corners[..n] + [corners[n]];
      var candidate := CandidateAt(pkg, item, corners[n]);
      CandidateAtOnGrid(step, pkg, item, corners[n]);
      var best := BestCorner(eps, pkg, item, corners);
      if prior.Some? {
        BetterIsExact(eps, step, candidate, prior.value);
      }
      if best.Some? {
        forall p | p in corners && Feasible(pkg, item, p)
          ensures !Precedes(CandidateAt(pkg, item, p), best.value)
        {
          if prior.Some? {
            PrecedesStrictOrder(best.value, prior.value, CandidateAt(pkg, item, p));
            PrecedesStrictOrder(candidate, prior.value, CandidateAt(pkg, item, p));
          }
          PrecedesStrictOrder(candidate, candidate, candidate);
        }
      }
    }
  }

  // The least feasible corner over all packages, the earliest package on ties.
  ghost predicate LeastChoice(packages: seq<Package>, item: Unit, choice: Choice) {
    forall i, p :: 0 <= i < |packages| && FeasibleCorner(packages[i], item, p) ==>
      && !Precedes(CandidateAt(packages[i], item, p), choice.candidate)
      && (i < choice.index ==> Precedes(choice.candidate, CandidateAt(packages[i], item, p)))
  }

  lemma {:induction false} BestExistingLeast(eps: nat, step: int, packages: seq<Package>, item: Unit)
    requires 0 < step && eps < Cube(step) && DimensionsOnGrid(step, item.dimensions)
    requires forall i :: 0 <= i < |packages| ==> PackageOnGrid(step, packages[i])
    ensures var best := BestExisting(eps, packages, item);
            best.Some? ==> CandidateOnGrid(step, best.value.candidate) && LeastChoice(packages, item, best.value)
  {
    hide BetterCandidate, CandidateAt, Feasible, Corners, Cube, OnGrid, CandidateOnGrid, PackageOnGrid, Precedes,
         BestCorner;
    if packages != [] {
      var n := |packages| - 1;
      var rest := packages[..n];
      BestExistingLeast(eps, step, rest, item);
      BestExistingFeasible(eps, rest, item);
      CornersOfPackageOnGrid(step, packages[n]);
      BestCornerLeast(eps, step, packages[n], item, Corners(packages[n].placements));
      BestCornerFeasible(eps, packages[n], item, Corners(packages[n].placements));
      var prior, current, best := BestExisting(eps, rest, item), BestIn(eps, packages[n], item),
        BestExisting(eps, packages, item);
      if prior.Some? && current.Some? {
        BetterIsExact(eps, step, current.value, prior.value.candidate);
      }
      if best.Some? {
        forall i, p | 0 <= i < |packages| && FeasibleCorner(packages[i], item, p)
          ensures !Precedes(CandidateAt(packages[i], item, p), best.value.candidate)
          ensures i < best.value.index ==> Precedes(best.value.candidate, CandidateAt(packages[i], item, p))
        {
          var other := CandidateAt(packages[i], item, p);
          if i < n {
            assert FeasibleCorner(rest[i], item, p);
            assert !Precedes(other, prior.value.candidate);
            if current.Some? {
              CombineLeast(prior.value.candidate, current.value, other);
            }
          } else {
            assert !Precedes(other, current.value);
            if prior.Some? {
              CombineLeast(current.value, prior.value.candidate, other);
            }
          }
        }
      }
    }
  }

  lemma CornersOfPackageOnGrid(step: int, pkg: Package)
    requires 0 < step && PackageOnGrid(step, pkg)
    ensures forall p :: p in Corners(pkg.placements) ==> PositionOnGrid(step, p)
  {
    CornersOnGrid(step, pkg.placements);
  }

  lemma CombineLeast(least: Candidate, other: Candidate, c: Candidate)
    requires !Precedes(c, least)
    ensures Precedes(other, least) ==> Precedes(other, c) && !Precedes(c, other)
    ensures !Precedes(least, other) ==> !Precedes(c, other)
  {
  }

  // ---- And when it is not -----------------------------------------------------------------

  ghost predicate AlwaysLeastOnGrid(eps: nat, step: int)
    requires 0 < step
  {
    forall pkg: Package, item: Unit ::
      PackageOnGrid(step, pkg) && DimensionsOnGrid(step, item.dimensions) && BestIn(eps, pkg, item).Some? ==>
        LeastCorner(pkg, item, Corners(pkg.placements), BestIn(eps, pkg, item).value)
  }

  function TallBox(step: int): Package {
    var tall := Dimensions(step, step, 2 * step);
    Package(1, tall, [Placement(1, "A#1", "A", "", Position(0, 0, 0), tall, 1)], 1, Volume(tall))
  }

  function Cubelet(step: int): Unit {
    Unit("B#1", 1, "B", "", Dimensions(step, step, step), 1)
  }

  lemma TallBoxCorners(step: int)
    requires 0 < step
    ensures Corners(TallBox(step).placements) == [Position(step, 0, 0), Position(0, 2 * step, 0), Position(0, 0, step)]
  {
    assert TallBox(step).placements[..0] == [];
    assert Corners([]) == [];
  }

  lemma TallBoxCandidates(step: int)
    requires 0 < step
    ensures var pkg, item := TallBox(step), Cubelet(step);
            && CandidateAt(pkg, item, Position(step, 0, 0)) ==
                 Candidate(Position(step, 0, 0), Dimensions(2 * step, step, 2 * step), 2 * Cube(step), 4 * Cube(step))
            && CandidateAt(pkg, item, Position(0, 2 * step, 0)) ==
                 Candidate(Position(0, 2 * step, 0), Dimensions(step, step, 3 * step), Cube(step), 3 * Cube(step))
            && CandidateAt(pkg, item, Position(0, 0, step)) ==
                 Candidate(Position(0, 0, step), Dimensions(step, 2 * step, 2 * step), 2 * Cube(step), 4 * Cube(step))
  {
    assert step * step * (2 * step) == 2 * Cube(step);
    assert (2 * step) * step * (2 * step) == 4 * Cube(step);
    assert step * step * (3 * step) == 3 * Cube(step);
    assert step * (2 * step) * (2 * step) == 4 * Cube(step);
  }

  // One box twice as tall as a cube: stacking the cube on top adds least volume, yet when the cell
  // volume is within the tolerance the planner puts it beside the box, at a lower corner.
  lemma ToleranceHidesLeastCorner(eps: nat, step: int)
    requires 0 < step <= 100_000 && Cube(step) <= eps
    ensures var pkg, item := TallBox(step), Cubelet(step);
            && BestIn(eps, pkg, item) == Some(CandidateAt(pkg, item, Position(0, 0, step)))
            && Position(0, 2 * step, 0) in Corners(pkg.placements) && Feasible(pkg, item, Position(0, 2 * step, 0))
            && Precedes(CandidateAt(pkg, item, Position(0, 2 * step, 0)), CandidateAt(pkg, item, Position(0, 0, step)))
  {
    hide Cube, Feasible, CandidateAt, BestCorner, Corners;
    var pkg, item := TallBox(step), Cubelet(step);
    var x, y, z := Position(step, 0, 0), Position(0, 2 * step, 0), Position(0, 0, step);
    TallBoxCorners(step);
    TallBoxCandidates(step);
    TallBoxFeasible(step);
    assert Cube(step) > 0 by { CubePositive(step); }
    ScanOfThree(eps, pkg, item, x, y, z);
  }

  lemma CubePositive(step: int)
    requires 0 < step
    ensures 0 < Cube(step)
  {
    assert 0 < step * step;
  }

  lemma TallBoxFeasible(step: int)
    requires 0 < step <= 100_000
    ensures var pkg, item := TallBox(step), Cubelet(step);
            && Feasible(pkg, item, Position(step, 0, 0))
            && Feasible(pkg, item, Position(0, 2 * step, 0))
            && Feasible(pkg, item, Position(0, 0, step))
  {
    hide Volume;
  }

  lemma ScanOfThree(eps: nat, pkg: Package, item: Unit, x: Position, y: Position, z: Position)
    requires Feasible(pkg, item, x) && Feasible(pkg, item, y) && Feasible(pkg, item, z)
    requires !BetterCandidate(eps, CandidateAt(pkg, item, y), CandidateAt(pkg, item, x))
    requires BetterCandidate(eps, CandidateAt(pkg, item, z), CandidateAt(pkg, item, x))
    ensures BestCorner(eps, pkg, item, [x, y, z]) == Some(CandidateAt(pkg, item, z))
  {
    hide Feasible, CandidateAt, BetterCandidate;
    assert BestCorner(eps, pkg, item, []) == None;
    assert BestCorner(eps, pkg, item, [x]) == Some(CandidateAt(pkg, item, x)) by { assert [x][..0] == []; }
    assert BestCorner(eps, pkg, item, [x, y]) == Some(CandidateAt(pkg, item, x)) by { assert [x, y][..1] == [x]; }
    assert [x, y, z][..2] == [x, y];
  }

  // The planner's own tolerance: the choice inside a package is the exact least one for all inputs
  // on a grid precisely when the grid is coarser than ten units, that is 0.01 cm.
  lemma LeastExactlyAboveTolerance(step: int)
    requires 0 < step
    ensures AlwaysLeastOnGrid(VOLUME_EPSILON, step) <==> 10 < step
  {
    if 10 < step {
      CubeAbove(step);
      forall pkg: Package, item: Unit
        | PackageOnGrid(step, pkg) && DimensionsOnGrid(step, item.dimensions) && BestIn(VOLUME_EPSILON, pkg, item).Some?
        ensures LeastCorner(pkg, item, Corners(pkg.placements), BestIn(VOLUME_EPSILON, pkg, item).value)
      {
        CornersOnGrid(step, pkg.placements);
        BestCornerLeast(VOLUME_EPSILON, step, pkg, item, Corners(pkg.placements));
      }
    } else {
      CubeBelow(step);
      ToleranceHidesLeastCorner(VOLUME_EPSILON, step);
      var pkg, item := TallBox(step), Cubelet(step);
      assert OnGrid(step, 0) && OnGrid(step, step) && OnGrid(step, 2 * step);
      assert PackageOnGrid(step, pkg) && DimensionsOnGrid(step, item.dimensions);
    }
  }

  lemma CubeAbove(step: int)
    requires 10 < step
    ensures VOLUME_EPSILON < Cube(step)
  {
    Monotone(11, step, step);
    Monotone(121, step * step, step);
  }

  lemma CubeBelow(step: int)
    requires 0 < step <= 10
    ensures Cube(step) <= VOLUME_EPSILON
  {
    Monotone(step, 10, step);
    Monotone(step * step, 100, step);
  }
}
