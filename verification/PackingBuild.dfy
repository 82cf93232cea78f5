// The planner's main loop and what every plan it returns guarantees.

module PackingBuild {
  import opened PackingModel
  import opened Wrappers
  import opened PackingChoice
  import opened PackingUnits
  import PackingVolume
  import Sorting
  import Text

  // ---- The loop as a fold -----------------------------------------------------------------

  datatype Progress = Progress(packages: seq<Package>, unfit: seq<Unit>)

  function EmptyPackage(index: nat): Package {
    Package(index, Dimensions(0, 0, 0), [], 0, 0)
  }

  function FirstCandidate(item: Unit): Candidate {
    Candidate(Position(0, 0, 0), item.dimensions, 0, Volume(item.dimensions))
  }

  function Place(eps: nat, p: Progress, item: Unit): Progress {
    if ExceedsLimits(item) then p.(unfit := p.unfit + [item])
    else
      match BestExisting(eps, p.packages, item)
      case None =>
        p.(packages := p.packages + [WithPlacement(EmptyPackage(|p.packages| + 1), item, FirstCandidate(item))])
      case Some(c) => p.(packages := p.packages[c.index := WithPlacement(p.packages[c.index], item, c.candidate)])
  }

  function Pack(eps: nat, units: seq<Unit>): Progress {
    if units == [] then Progress([], []) else Place(eps, Pack(eps, units[..|units| - 1]), units[|units| - 1])
  }

  // ---- Geometry of a package --------------------------------------------------------------

  function TotalWeight(placements: seq<Placement>): int {
    if placements == [] then 0
    else TotalWeight(placements[..|placements| - 1]) + placements[|placements| - 1].weight
  }

  // Some placement reaches each face of the envelope.
  ghost predicate Tight(placements: seq<Placement>, bounds: Dimensions) {
    && (exists i :: 0 <= i < |placements| && XCorner(placements[i]).x == bounds.length)
    && (exists i :: 0 <= i < |placements| && YCorner(placements[i]).y == bounds.height)
    && (exists i :: 0 <= i < |placements| && ZCorner(placements[i]).z == bounds.width)
  }

  ghost predicate ValidGeometry(placements: seq<Placement>, bounds: Dimensions) {
    && Positive(bounds) && WithinLimits(bounds)
    && (forall i :: 0 <= i < |placements| ==> PackingVolume.Inside(placements[i], bounds))
    && PackingVolume.Disjoint(placements)
    && Tight(placements, bounds)
  }

  ghost predicate ValidPackage(pkg: Package) {
    && pkg.placements != []
    && ValidGeometry(pkg.placements, pkg.bounds)
    && (forall i :: 0 <= i < |pkg.placements| ==> pkg.placements[i].step == i + 1)
    && pkg.usedWeight == TotalWeight(pkg.placements) <= MAX_WEIGHT
    && pkg.usedVolume == PackingVolume.TotalVolume(pkg.placements)
  }

  ghost predicate ValidProgress(p: Progress) {
    && (forall i :: 0 <= i < |p.packages| ==> ValidPackage(p.packages[i]) && p.packages[i].index == i + 1)
    && (forall i :: 0 <= i < |p.unfit| ==> ExceedsLimits(p.unfit[i]))
  }

  predicate WellFormed(item: Unit) {
    Positive(item.dimensions) && 0 < item.weight
  }

  lemma FirstPlacementValid(index: nat, item: Unit)
    requires WellFormed(item) && !ExceedsLimits(item)
    ensures ValidPackage(WithPlacement(EmptyPackage(index), item, FirstCandidate(item)))
  {
    hide Volume, Overlap;
    var pkg := WithPlacement(EmptyPackage(index), item, FirstCandidate(item));
    var first := pkg.placements[0];
    assert pkg.placements == [first] && pkg.placements[..0] == [];
    assert PackingVolume.TotalVolume([]) == 0 && TotalWeight([]) == 0;
    assert PackingVolume.Inside(first, pkg.bounds);
    assert Tight(pkg.placements, pkg.bounds) by {
      assert pkg.placements[0].position.x + pkg.placements[0].dimensions.length == pkg.bounds.length;
      assert pkg.placements[0].position.y + pkg.placements[0].dimensions.height == pkg.bounds.height;
      assert pkg.placements[0].position.z + pkg.placements[0].dimensions.width == pkg.bounds.width;
    }
  }

  lemma CornerInOctant(placements: seq<Placement>, bounds: Dimensions, p: Position)
    requires p in Corners(placements) && forall i :: 0 <= i < |placements| ==>
      PackingVolume.Inside(placements[i], bounds)
    ensures 0 <= p.x && 0 <= p.y && 0 <= p.z
  {
    hide Include;
    if placements != [] {
      var n := |placements| - 1;
      if p in Corners(placements[..n]) {
        CornerInOctant(placements[..n], bounds, p);
      } else {
        assert PackingVolume.Inside(placements[n], bounds);
      }
    }
  }

  lemma GeometryExtended(placements: seq<Placement>, bounds: Dimensions, b: Placement)
    requires ValidGeometry(placements, bounds) && Positive(b.dimensions)
    requires 0 <= b.position.x && 0 <= b.position.y && 0 <= b.position.z
    requires !IntersectsAny(placements, b.position, b.dimensions)
    requires WithinLimits(ExpandedBounds(bounds, b.position, b.dimensions))
    ensures ValidGeometry(placements + [b], ExpandedBounds(bounds, b.position, b.dimensions))
  {
    hide Overlap;
    var all, wider := placements + [b], ExpandedBounds(bounds, b.position, b.dimensions);
    forall i | 0 <= i < |all| ensures PackingVolume.Inside(all[i], wider) {
      assert i < |placements| ==> PackingVolume.Inside(placements[i], bounds);
    }
    var n := |placements|;
    assert all[n] == b;
    var i :| 0 <= i < n && placements[i].position.x + placements[i].dimensions.length == bounds.length;
    var j :| 0 <= j < n && placements[j].position.y + placements[j].dimensions.height == bounds.height;
    var k :| 0 <= k < n && placements[k].position.z + placements[k].dimensions.width == bounds.width;
    assert all[i] == placements[i] && all[j] == placements[j] && all[k] == placements[k];
  }

  lemma PlacementKeepsValid(pkg: Package, item: Unit, p: Position)
    requires ValidPackage(pkg) && WellFormed(item) && FeasibleCorner(pkg, item, p)
    ensures ValidPackage(WithPlacement(pkg, item, CandidateAt(pkg, item, p)))
  {
    hide Volume, Overlap, Corners, ValidGeometry, IntersectsAny;
    var placed := WithPlacement(pkg, item, CandidateAt(pkg, item, p));
    var n := |pkg.placements|;
    assert placed.placements[..n] == pkg.placements;
    OctantOfValid(pkg, p);
    GeometryExtended(pkg.placements, pkg.bounds, placed.placements[n]);
    assert ValidGeometry(placed.placements, placed.bounds);
  }

  lemma OctantOfValid(pkg: Package, p: Position)
    requires ValidPackage(pkg) && p in Corners(pkg.placements)
    ensures 0 <= p.x && 0 <= p.y && 0 <= p.z
  {
    CornerInOctant(pkg.placements, pkg.bounds, p);
  }

  // Every step of the loop keeps every package disjoint, tight, within the limits and correctly totalled.
  lemma PlaceKeepsValid(eps: nat, p: Progress, item: Unit)
    requires ValidProgress(p) && WellFormed(item)
    ensures ValidProgress(Place(eps, p, item))
  {
    hide ValidPackage, BestExisting, CandidateAt, WithPlacement, Volume;
    BestExistingFeasible(eps, p.packages, item);
    if !ExceedsLimits(item) {
      var choice := BestExisting(eps, p.packages, item);
      if choice.None? {
        FirstPlacementValid(|p.packages| + 1, item);
        KeepsIndex(EmptyPackage(|p.packages| + 1), item, FirstCandidate(item));
      } else {
        var c := choice.value;
        PlacementKeepsValid(p.packages[c.index], item, c.candidate.position);
        KeepsIndex(p.packages[c.index], item, c.candidate);
      }
    }
  }

  lemma KeepsIndex(pkg: Package, item: Unit, c: Candidate)
    ensures WithPlacement(pkg, item, c).index == pkg.index
  {
  }

  lemma {:induction false} PackValid(eps: nat, units: seq<Unit>)
    requires forall i :: 0 <= i < |units| ==> WellFormed(units[i])
    ensures ValidProgress(Pack(eps, units))
  {
    hide ValidProgress, Place;
    if units != [] {
      PackValid(eps, units[..|units| - 1]);
      PlaceKeepsValid(eps, Pack(eps, units[..|units| - 1]), units[|units| - 1]);
    } else {
      EmptyValid();
    }
  }

  lemma EmptyValid()
    ensures ValidProgress(Progress([], []))
  {
  }

  // The envelope is at least as large as what it holds.
  lemma UtilizationAtMostFull(pkg: Package)
    requires ValidPackage(pkg)
    ensures 0 < pkg.usedVolume <= Volume(pkg.bounds)
  {
    PackingVolume.DisjointBoxesFit(pkg.placements, pkg.bounds);
    TotalVolumePositive(pkg.placements);
  }

  lemma {:induction false} TotalVolumePositive(placements: seq<Placement>)
    requires placements != [] && forall i :: 0 <= i < |placements| ==> Positive(placements[i].dimensions)
    ensures 0 < PackingVolume.TotalVolume(placements)
  {
    var n := |placements| - 1;
    ProductPositive(placements[n].dimensions);
    hide Volume;
    if n > 0 {
      TotalVolumePositive(placements[..n]);
    }
  }

  lemma ProductPositive(d: Dimensions)
    requires Positive(d)
    ensures 0 < Volume(d)
  {
    assert 0 < d.length * d.width;
  }

  // ---- Every unit once --------------------------------------------------------------------

  datatype Item = Item(id: string, sku: string, productName: string, dimensions: Dimensions, weight: int)

  function ItemOfUnit(u: Unit): Item {
    Item(u.id, u.sku, u.productName, u.dimensions, u.weight)
  }

  function ItemsOfUnits(units: seq<Unit>): multiset<Item> {
    if units == [] then multiset{} else ItemsOfUnits(units[..|units| - 1]) + multiset{ItemOfUnit(units[|units| - 1])}
  }

  function ItemsOfPlacements(placements: seq<Placement>): multiset<Item> {
    if placements == [] then multiset{} else
      var b := placements[|placements| - 1];
      ItemsOfPlacements(placements[..|placements| - 1])
        + multiset{Item(b.unitId, b.sku, b.productName, b.dimensions, b.weight)}
  }

  function ItemsOfPackages(packages: seq<Package>): multiset<Item> {
    if packages == [] then multiset{}
    else ItemsOfPackages(packages[..|packages| - 1]) + ItemsOfPlacements(packages[|packages| - 1].placements)
  }

  lemma PlacementAddsItem(pkg: Package, item: Unit, c: Candidate)
    ensures ItemsOfPlacements(WithPlacement(pkg, item, c).placements) == ItemsOfPlacements(pkg.placements)
      + multiset{ItemOfUnit(item)}
  {
    var placements := WithPlacement(pkg, item, c).placements;
    assert placements[..|pkg.placements|] == pkg.placements;
  }

  lemma {:induction false} ReplacedPackageItems(packages: seq<Package>, i: nat, pkg: Package, extra: Item)
    requires i < |packages|
    requires ItemsOfPlacements(pkg.placements) == ItemsOfPlacements(packages[i].placements) + multiset{extra}
    ensures ItemsOfPackages(packages[i := pkg]) == ItemsOfPackages(packages) + multiset{extra}
  {
    var n := |packages| - 1;
    if i < n {
      ReplacedPackageItems(packages[..n], i, pkg, extra);
      assert packages[i := pkg][..n] == packages[..n][i := pkg];
    } else {
      assert packages[i := pkg][..n] == packages[..n];
    }
  }

  lemma PlaceAddsItem(eps: nat, p: Progress, item: Unit)
    ensures var q := Place(eps, p, item);
            ItemsOfPackages(q.packages) + ItemsOfUnits(q.unfit)
            == ItemsOfPackages(p.packages) + ItemsOfUnits(p.unfit) + multiset{ItemOfUnit(item)}
    ensures Place(eps, p, item).unfit == if ExceedsLimits(item) then p.unfit + [item] else p.unfit
  {
    hide BestExisting, WithPlacement, ItemsOfPlacements;
    if ExceedsLimits(item) {
      assert (p.unfit + [item])[..|p.unfit|] == p.unfit;
    } else {
      match BestExisting(eps, p.packages, item)
      case None =>
        var empty := EmptyPackage(|p.packages| + 1);
        var placed := WithPlacement(empty, item, FirstCandidate(item));
        PlacementAddsItem(empty, item, FirstCandidate(item));
        NoItems();
        assert (p.packages + [placed])[..|p.packages|] == p.packages;
      case Some(c) =>
        PlacementAddsItem(p.packages[c.index], item, c.candidate);
        ReplacedPackageItems(p.packages, c.index, WithPlacement(p.packages[c.index], item, c.candidate),
          ItemOfUnit(item));
    }
  }

  lemma NoItems()
    ensures ItemsOfPlacements([]) == multiset{}
  {
  }

  function Oversized(units: seq<Unit>): seq<Unit> {
    if units == [] then [] else
      Oversized(units[..|units| - 1]) + (if ExceedsLimits(units[|units| - 1]) then [units[|units| - 1]] else [])
  }

  // Nothing is lost, invented or packed twice; exactly the oversized units are left out.
  lemma {:induction false} PackConserves(eps: nat, units: seq<Unit>)
    ensures var p := Pack(eps, units);
            && ItemsOfPackages(p.packages) + ItemsOfUnits(p.unfit) == ItemsOfUnits(units)
            && p.unfit == Oversized(units)
  {
    hide Place, ItemsOfPackages;
    if units == [] {
      NoPackageItems();
    } else {
      var n := |units| - 1;
      PackConserves(eps, units[..n]);
      PlaceAddsItem(eps, Pack(eps, units[..n]), units[n]);
    }
  }

  lemma NoPackageItems()
    ensures ItemsOfPackages([]) == multiset{}
  {
  }

  // ---- Each choice is the least -----------------------------------------------------------

  lemma {:induction false} PackOnGrid(eps: nat, step: int, units: seq<Unit>)
    requires 0 < step
    requires forall i :: 0 <= i < |units| ==> DimensionsOnGrid(step, units[i].dimensions)
    ensures forall i :: 0 <= i < |Pack(eps, units).packages| ==> PackageOnGrid(step, Pack(eps, units).packages[i])
  {
    hide PackageOnGrid, WithPlacement, BestExisting, CandidateAt, DimensionsOnGrid;
    if units != [] {
      var n := |units| - 1;
      var item := units[n];
      PackOnGrid(eps, step, units[..n]);
      var p := Pack(eps, units[..n]);
      BestExistingFeasible(eps, p.packages, item);
      match BestExisting(eps, p.packages, item)
      case None =>
        FirstOnGrid(step, |p.packages| + 1, item);
      case Some(c) =>
        CornerPlacementOnGrid(step, p.packages[c.index], item, c.candidate.position);
    }
  }

  lemma FirstOnGrid(step: int, index: nat, item: Unit)
    requires 0 < step && DimensionsOnGrid(step, item.dimensions)
    ensures PackageOnGrid(step, WithPlacement(EmptyPackage(index), item, FirstCandidate(item)))
  {
    assert OnGrid(step, 0);
  }

  lemma CornerPlacementOnGrid(step: int, pkg: Package, item: Unit, p: Position)
    requires 0 < step && PackageOnGrid(step, pkg) && DimensionsOnGrid(step, item.dimensions)
    requires p in Corners(pkg.placements)
    ensures PackageOnGrid(step, WithPlacement(pkg, item, CandidateAt(pkg, item, p)))
  {
    CornersOfPackageOnGrid(step, pkg);
    PlacementOnGrid(step, pkg, item, p);
  }

  // After these units, the next one goes to the least feasible corner of all packages (the earliest
  // package on ties), and a package is opened exactly when there is none.
  ghost predicate LeastStep(eps: nat, packed: seq<Unit>, item: Unit) {
    var before, after := Pack(eps, packed).packages, Pack(eps, packed + [item]).packages;
    && (|after| == |before| + 1 <==> !AnyFeasible(before, item))
    && (AnyFeasible(before, item) ==> exists choice: Choice :: LeastOutcome(before, after, item, choice))
  }

  ghost predicate LeastOutcome(before: seq<Package>, after: seq<Package>, item: Unit, choice: Choice) {
    && choice.index < |before| && LeastChoice(before, item, choice)
    && FeasibleCorner(before[choice.index], item, choice.candidate.position)
    && choice.candidate == CandidateAt(before[choice.index], item, choice.candidate.position)
    && after == before[choice.index := WithPlacement(before[choice.index], item, choice.candidate)]
  }

  lemma EveryChoiceLeast(eps: nat, step: int, packed: seq<Unit>, item: Unit)
    requires 0 < step && eps < Cube(step) && DimensionsOnGrid(step, item.dimensions) && !ExceedsLimits(item)
    requires forall i :: 0 <= i < |packed| ==> DimensionsOnGrid(step, packed[i].dimensions)
    ensures LeastStep(eps, packed, item)
  {
    hide Cube, DimensionsOnGrid, PackageOnGrid, LeastChoice, WithPlacement, BestExisting, AnyFeasible, CandidateAt,
         FeasibleCorner;
    assert (packed + [item])[..|packed|] == packed;
    var before, after := Pack(eps, packed).packages, Pack(eps, packed + [item]).packages;
    PackOnGrid(eps, step, packed);
    BestExistingLeast(eps, step, before, item);
    BestExistingFeasible(eps, before, item);
    if AnyFeasible(before, item) {
      assert LeastOutcome(before, after, item, BestExisting(eps, before, item).value);
    }
  }

  // Every step of every plan for specifications on this grid is the least one.
  ghost predicate EveryPlanLeast(step: int)
    requires 0 < step
  {
    forall items: seq<RequestItem>, resolved: seq<Spec> ::
      ValidRequest(items) && Resolvable(items, resolved) && SpecsOnGrid(step, resolved) ==>
        PlanStepsLeast(SortUnits(UnitsOf(items, resolved)))
  }

  ghost predicate PlanStepsLeast(units: seq<Unit>) {
    forall n :: 0 <= n < |units| && !ExceedsLimits(units[n]) ==> LeastStep(VOLUME_EPSILON, units[..n], units[n])
  }

  ghost predicate SpecsOnGrid(step: int, resolved: seq<Spec>)
    requires 0 < step
  {
    forall i :: 0 <= i < |resolved| && Usable(Some(resolved[i])) ==>
      DimensionsOnGrid(step, Dimensions(resolved[i].length.value, resolved[i].width.value, resolved[i].height.value))
  }

  lemma {:induction false} SpecOfOnGrid(step: int, resolved: seq<Spec>, sku: string)
    requires 0 < step && SpecsOnGrid(step, resolved) && Usable(SpecOf(resolved, sku))
    ensures DimensionsOnGrid(step, MakeUnit(SpecOf(resolved, sku).value, sku, 0).dimensions)
  {
    hide DimensionsOnGrid;
    var n := |resolved| - 1;
    if resolved != [] && resolved[n].sku != sku {
      SpecOfOnGrid(step, resolved[..n], sku);
    }
  }

  lemma UnitsOnGrid(step: int, items: seq<RequestItem>, resolved: seq<Spec>)
    requires 0 < step && SpecsOnGrid(step, resolved) && ValidRequest(items) && Resolvable(items, resolved)
    ensures forall u :: u in SortUnits(UnitsOf(items, resolved)) ==> DimensionsOnGrid(step, u.dimensions)
  {
    hide DimensionsOnGrid, Usable, SpecsOnGrid, SortUnits, ValidItem, QuantityOf, SpecOf, UnitsFor;
    var raw := UnitsOf(items, resolved);
    SkuOrderExact(items);
    UnitsForExact(SkuOrder(items), items, resolved);
    SortUnitsSorted(raw);
    forall u | u in SortUnits(raw) ensures DimensionsOnGrid(step, u.dimensions) {
      assert u in multiset(SortUnits(raw)) && u in multiset(raw);
      assert IsUnitOf(u, SkuOrder(items), items, resolved);
      SpecOfOnGrid(step, resolved, u.sku);
    }
  }

  // ---- And when it is not -----------------------------------------------------------------

  function BoxAndCube(): seq<RequestItem> {
    [RequestItem("A", 1), RequestItem("B", 1)]
  }

  function BoxAndCubeSpecs(step: int): seq<Spec> {
    [Spec("A", "", true, Some(step), Some(step), Some(2 * step), Some(1)),
     Spec("B", "", true, Some(step), Some(step), Some(step), Some(1))]
  }

  function BoxUnit(step: int): Unit {
    Unit("A#1", 1, "A", "", Dimensions(step, step, 2 * step), 1)
  }

  lemma SingleUnit(spec: Spec, sku: string)
    requires Usable(Some(spec))
    ensures UnitsOfSku(spec, sku, 1) == [MakeUnit(spec, sku, 1)] && UnitId(sku, 1) == sku + "#1"
  {
    assert UnitsOfSku(spec, sku, 0) == [];
    assert Text.Decimal(1) == "1";
  }

  lemma BoxAndCubeRequest()
    ensures ValidRequest(BoxAndCube()) && SkuOrder(BoxAndCube()) == ["A", "B"]
    ensures QuantityOf(BoxAndCube(), "A") == 1 && QuantityOf(BoxAndCube(), "B") == 1
  {
    var items := BoxAndCube();
    assert items[..1] == [RequestItem("A", 1)] && items[..1][..0] == [];
    assert Text.TrimSpace("A") == "A" && Text.TrimSpace("B") == "B";
    assert Text.ByteLength("A") == 1 && Text.ByteLength("B") == 1;
    assert SkuOrder(items[..1]) == ["A"];
  }

  lemma BoxAndCubeSpec(step: int)
    requires 0 < step
    ensures var resolved := BoxAndCubeSpecs(step);
            SpecOf(resolved, "A") == Some(resolved[0]) && SpecOf(resolved, "B") == Some(resolved[1])
  {
    assert BoxAndCubeSpecs(step)[..1] == [BoxAndCubeSpecs(step)[0]];
  }

  // The request for one tall box and one cube, which are expanded in this order.
  lemma BoxAndCubeUnits(step: int)
    requires 0 < step
    ensures ValidRequest(BoxAndCube()) && Resolvable(BoxAndCube(), BoxAndCubeSpecs(step))
    ensures UnitsOf(BoxAndCube(), BoxAndCubeSpecs(step)) == [BoxUnit(step), Cubelet(step)]
  {
    hide BoxAndCube, ValidRequest, SkuOrder, QuantityOf, SpecOf, UnitsOfSku, UnitId;
    var items, resolved := BoxAndCube(), BoxAndCubeSpecs(step);
    BoxAndCubeRequest();
    BoxAndCubeSpec(step);
    SingleUnit(resolved[0], "A");
    SingleUnit(resolved[1], "B");
    assert "A" + "#1" == "A#1" && "B" + "#1" == "B#1";
    assert UnitsFor([], items, resolved) == [];
    assert ["A"][..0] == [] && ["A", "B"][..1] == ["A"];
    assert UnitsFor(["A"], items, resolved) == [BoxUnit(step)];
    assert UnitsFor(["A", "B"], items, resolved) == [BoxUnit(step), Cubelet(step)];
  }

  // The box is packed first.
  lemma BoxAndCubeSorted(step: int)
    requires 0 < step
    ensures SortUnits([BoxUnit(step), Cubelet(step)]) == [BoxUnit(step), Cubelet(step)]
  {
    var box, cube := BoxUnit(step), Cubelet(step);
    assert [box, cube][..1] == [box] && [box][..0] == [];
    assert SortUnits([]) == [];
    assert SortUnits([box]) == [box];
    assert Volume(box.dimensions) == 2 * Cube(step) && Volume(cube.dimensions) == Cube(step) by {
      assert step * step * (2 * step) == 2 * Cube(step);
    }
    CubePositive(step);
    assert !Before(cube, box);
    assert Sorting.Insert([], cube, Before) == [cube];
    assert [box][1..] == [];
  }

  lemma BoxFirst(eps: nat, step: int)
    requires 0 < step <= 100_000
    ensures Pack(eps, [BoxUnit(step)]).packages == [TallBox(step)]
  {
    hide Volume;
    assert [BoxUnit(step)][..0] == [];
    assert Pack(eps, []) == Progress([], []);
    assert BestExisting(eps, [], BoxUnit(step)) == None;
    assert WithPlacement(EmptyPackage(1), BoxUnit(step), FirstCandidate(BoxUnit(step))) == TallBox(step);
  }

  lemma CubeBeside(eps: nat, step: int)
    requires 0 < step <= 100_000 && Cube(step) <= eps
    ensures var pkg, item := TallBox(step), Cubelet(step);
            Pack(eps, [BoxUnit(step), item]).packages
            == [WithPlacement(pkg, item, CandidateAt(pkg, item, Position(0, 0, step)))]
  {
    hide Cube, Feasible, CandidateAt, BestCorner, Corners, Precedes, Volume, TallBox, WithPlacement, BetterCandidate;
    var pkg, item := TallBox(step), Cubelet(step);
    BoxFirst(eps, step);
    ToleranceHidesLeastCorner(eps, step);
    assert [BoxUnit(step), item][..1] == [BoxUnit(step)];
    assert [pkg][..0] == [];
    assert BestExisting(eps, [], item) == None;
    assert BestExisting(eps, [pkg], item) == Some(Choice(0, CandidateAt(pkg, item, Position(0, 0, step))));
  }

  // With the cell volume within the tolerance, the plan puts the cube beside the box although on top
  // of it less volume is added.
  lemma CubeNotLeast(eps: nat, step: int)
    requires 0 < step <= 100_000 && Cube(step) <= eps
    ensures !LeastStep(eps, [BoxUnit(step)], Cubelet(step))
  {
    hide Cube, Feasible, CandidateAt, BestCorner, Corners, Precedes, Volume, TallBox, Cubelet, BoxUnit, WithPlacement,
         Pack, BestExisting;
    var pkg, item := TallBox(step), Cubelet(step);
    var top, beside := Position(0, 2 * step, 0), Position(0, 0, step);
    BoxFirst(eps, step);
    CubeBeside(eps, step);
    ToleranceHidesLeastCorner(eps, step);
    assert [BoxUnit(step)] + [item] == [BoxUnit(step), item];
    var before, after := [pkg], Pack(eps, [BoxUnit(step), item]).packages;
    assert FeasibleCorner(before[0], item, top);
    forall choice: Choice ensures !LeastOutcome(before, after, item, choice) {
      if LeastOutcome(before, after, item, choice) {
        assert after[0] == WithPlacement(pkg, item, choice.candidate);
        PlacedAt(pkg, item, choice.candidate, CandidateAt(pkg, item, beside));
        CandidatePosition(pkg, item, beside);
      }
    }
  }

  lemma CandidatePosition(pkg: Package, item: Unit, p: Position)
    ensures CandidateAt(pkg, item, p).position == p
  {
  }

  lemma PlacedAt(pkg: Package, item: Unit, a: Candidate, b: Candidate)
    requires WithPlacement(pkg, item, a) == WithPlacement(pkg, item, b)
    ensures a.position == b.position
  {
    var n := |pkg.placements|;
    assert WithPlacement(pkg, item, a).placements[n].position == a.position;
    assert WithPlacement(pkg, item, b).placements[n].position == b.position;
  }

  // The planner's own tolerance: every step of every plan for specifications on a grid is the exact
  // least one precisely when the grid is coarser than ten units, that is 0.01 cm.
  lemma EveryPlanLeastExactly(step: int)
    requires 0 < step
    ensures EveryPlanLeast(step) <==> 10 < step
  {
    hide ValidRequest, Resolvable, SpecsOnGrid, UnitsOf, SortUnits, LeastStep, Cube, DimensionsOnGrid;
    if 10 < step {
      CubeAbove(step);
      forall items: seq<RequestItem>, resolved: seq<Spec> |
        ValidRequest(items) && Resolvable(items, resolved) && SpecsOnGrid(step, resolved)
        ensures PlanStepsLeast(SortUnits(UnitsOf(items, resolved)))
      {
        var units := SortUnits(UnitsOf(items, resolved));
        UnitsOnGrid(step, items, resolved);
        forall n | 0 <= n < |units| && !ExceedsLimits(units[n])
          ensures LeastStep(VOLUME_EPSILON, units[..n], units[n])
        {
          EveryChoiceLeast(VOLUME_EPSILON, step, units[..n], units[n]);
        }
      }
    } else {
      CubeBelow(step);
      CubeNotLeast(VOLUME_EPSILON, step);
      BoxAndCubeUnits(step);
      BoxAndCubeSorted(step);
      BoxAndCubeOnGrid(step);
      var units := [BoxUnit(step), Cubelet(step)];
      assert units[..1] == [BoxUnit(step)] && units[1] == Cubelet(step);
      assert !PlanStepsLeast(SortUnits(UnitsOf(BoxAndCube(), BoxAndCubeSpecs(step))));
    }
  }

  lemma BoxAndCubeOnGrid(step: int)
    requires 0 < step
    ensures SpecsOnGrid(step, BoxAndCubeSpecs(step))
  {
    assert OnGrid(step, step) && OnGrid(step, 2 * step);
  }

  // ---- The planner ------------------------------------------------------------------------

  datatype PackagePlan = PackagePlan(index: nat, dimensions: Dimensions, placements: seq<Placement>, packedUnits: nat,
                                     usedWeight: int, usedVolume: int, utilization: real)
  datatype Summary = Summary(requestedUnits: nat, packedUnits: nat, unfitUnits: nat, packagesUsed: nat,
                             totalWeight: int, packedWeight: int, packedVolume: int)
  datatype Plan = Plan(packages: seq<PackagePlan>, unfit: seq<Unit>, summary: Summary)

  function Finalize(pkg: Package): PackagePlan {
    var volume := Volume(pkg.bounds);
    PackagePlan(pkg.index, pkg.bounds, pkg.placements, |pkg.placements|, pkg.usedWeight, pkg.usedVolume,
                if volume > 0 then (pkg.usedVolume * 100) as real / volume as real else 0.0)
  }

  function FinalizeAll(packages: seq<Package>): (r: seq<PackagePlan>)
    ensures |r| == |packages| && forall i :: 0 <= i < |r| ==> r[i] == Finalize(packages[i])
  {
    if packages == [] then [] else FinalizeAll(packages[..|packages| - 1]) + [Finalize(packages[|packages| - 1])]
  }

  function UnitWeight(units: seq<Unit>): int {
    if units == [] then 0 else UnitWeight(units[..|units| - 1]) + units[|units| - 1].weight
  }

  function UnitVolume(units: seq<Unit>): int {
    if units == [] then 0 else UnitVolume(units[..|units| - 1]) + Volume(units[|units| - 1].dimensions)
  }

  datatype Totals = Totals(units: nat, weight: int, volume: int)

  function PackageTotals(packages: seq<Package>): Totals {
    if packages == [] then Totals(0, 0, 0) else
      var t, pkg := PackageTotals(packages[..|packages| - 1]), packages[|packages| - 1];
      Totals(t.units + |pkg.placements|, t.weight + pkg.usedWeight, t.volume + pkg.usedVolume)
  }

  function PlanOf(eps: nat, units: seq<Unit>): Plan {
    var p := Pack(eps, units);
    var t := PackageTotals(p.packages);
    Plan(FinalizeAll(p.packages), p.unfit,
         Summary(|units|, t.units, |p.unfit|, |p.packages|, UnitWeight(units), t.weight, t.volume))
  }

  class PackageState {
    const index: nat
    var bounds: Dimensions
    var placements: seq<Placement>
    var usedWeight: int
    var usedVolume: int

    constructor (index: nat)
      ensures Value() == EmptyPackage(index)
    {
      this.index := index;
      bounds, placements, usedWeight, usedVolume := Dimensions(0, 0, 0), [], 0, 0;
    }

    function Value(): Package
      reads this
    {
      Package(index, bounds, placements, usedWeight, usedVolume)
    }

    method AddPlacement(item: Unit, c: Candidate)
      modifies this
      ensures Value() == WithPlacement(old(Value()), item, c)
    {
      placements := placements + [Placement(|placements| + 1, item.id, item.sku, item.productName,
                                            c.position, item.dimensions, item.weight)];
      bounds := c.bounds;
      usedWeight := usedWeight + item.weight;
      usedVolume := usedVolume + Volume(item.dimensions);
    }
  }

  function Values(states: seq<PackageState>): seq<Package>
    reads states
  {
    seq(|states|, i requires 0 <= i < |states| reads states => states[i].Value())
  }

  method PlaceUnit(states: seq<PackageState>, item: Unit) returns (states': seq<PackageState>)
    requires !ExceedsLimits(item)
    requires forall i, j :: 0 <= i < j < |states| ==> states[i] != states[j]
    modifies states
    ensures forall i, j :: 0 <= i < j < |states'| ==> states'[i] != states'[j]
    ensures forall i :: 0 <= i < |states'| ==> states'[i] in states || fresh(states'[i])
    ensures forall unfit ::
      Progress(Values(states'), unfit) == Place(VOLUME_EPSILON, Progress(old(Values(states)), unfit), item)
  {
    hide BestExisting, WithPlacement, Volume;
    ghost var before := Values(states);
    var packageIndex, candidate, found := BestExistingPackage(VOLUME_EPSILON, Values(states), item);
    if !found {
      var added := new PackageState(|states| + 1);
      states' := states + [added];
      added.AddPlacement(item, FirstCandidate(item));
      assert Values(states') == before + [added.Value()];
    } else {
      states' := states;
      states[packageIndex].AddPlacement(item, candidate);
      assert Values(states') == before[packageIndex := states[packageIndex].Value()];
    }
  }

  method Build(items: seq<RequestItem>, resolved: seq<Spec>) returns (plan: Option<Plan>)
    ensures plan.Some? <==> ValidRequest(items) && Resolvable(items, resolved)
    ensures plan.Some? ==> plan.value == PlanOf(VOLUME_EPSILON, SortUnits(UnitsOf(items, resolved)))
  {
    hide ValidRequest, Resolvable, Place, UnitsOf, Finalize;
    var valid := ValidateRequest(items);
    if !valid {
      return None;
    }
    var resolvedUnits := ResolveUnits(items, resolved);
    if resolvedUnits.None? {
      return None;
    }
    var units := SortUnits(resolvedUnits.value);
    var totalWeight := TotalUnitWeight(units);
    var unfit: seq<Unit>, states: seq<PackageState> := [], [];
    for i := 0 to |units|
      invariant forall j :: 0 <= j < |states| ==> fresh(states[j])
      invariant forall j, k :: 0 <= j < k < |states| ==> states[j] != states[k]
      invariant Progress(Values(states), unfit) == Pack(VOLUME_EPSILON, units[..i])
    {
      assert units[..i + 1][..i] == units[..i];
      if ExceedsLimits(units[i]) {
        OversizedLeftOut(VOLUME_EPSILON, Progress(Values(states), unfit), units[i]);
        unfit := unfit + [units[i]];
      } else {
        states := PlaceUnit(states, units[i]);
      }
    }
    assert units[..|units|] == units;
    var packages, totals := FinalizePackages(Values(states));
    var summary := Summary(|units|, totals.units, |unfit|, |packages|, totalWeight, totals.weight, totals.volume);
    plan := Some(Plan(packages, unfit, summary));
  }

  lemma OversizedLeftOut(eps: nat, p: Progress, item: Unit)
    requires ExceedsLimits(item)
    ensures Place(eps, p, item) == Progress(p.packages, p.unfit + [item])
  {
  }

  method TotalUnitWeight(units: seq<Unit>) returns (total: int)
    ensures total == UnitWeight(units)
  {
    total := 0;
    for i := 0 to |units|
      invariant total == UnitWeight(units[..i])
    {
      assert units[..i + 1][..i] == units[..i];
      total := total + units[i].weight;
    }
    assert units[..|units|] == units;
  }

  method FinalizePackages(packages: seq<Package>) returns (plans: seq<PackagePlan>, totals: Totals)
    ensures plans == FinalizeAll(packages) && totals == PackageTotals(packages)
  {
    hide Volume;
    plans, totals := [], Totals(0, 0, 0);
    for i := 0 to |packages|
      invariant plans == FinalizeAll(packages[..i]) && totals == PackageTotals(packages[..i])
    {
      assert packages[..i + 1][..i] == packages[..i];
      var packaged := Finalize(packages[i]);
      plans := plans + [packaged];
      totals := Totals(totals.units + packaged.packedUnits, totals.weight + packaged.usedWeight,
        totals.volume + packaged.usedVolume);
    }
    assert packages[..|packages|] == packages;
  }

  // ---- What a returned plan guarantees ----------------------------------------------------

  // Every package of every plan: no overlaps, tight bounds, limits kept, at most full.
  lemma PlanPackagesSound(items: seq<RequestItem>, resolved: seq<Spec>, k: nat)
    requires ValidRequest(items) && Resolvable(items, resolved)
    requires k < |PlanOf(VOLUME_EPSILON, SortUnits(UnitsOf(items, resolved))).packages|
    ensures var pkg := PlanOf(VOLUME_EPSILON, SortUnits(UnitsOf(items, resolved))).packages[k];
            && pkg.index == k + 1 && pkg.packedUnits == |pkg.placements| > 0
            && ValidGeometry(pkg.placements, pkg.dimensions)
            && pkg.usedWeight == TotalWeight(pkg.placements) <= MAX_WEIGHT
            && pkg.usedVolume == PackingVolume.TotalVolume(pkg.placements) <= Volume(pkg.dimensions)
            && 0.0 < pkg.utilization <= 100.0
  {
    hide ValidRequest, Resolvable, UnitsOf, SortUnits, ValidGeometry, Volume, Pack, TotalWeight;
    var units := SortUnits(UnitsOf(items, resolved));
    UnitsWellFormed(items, resolved);
    PackValid(VOLUME_EPSILON, units);
    var pkg := Pack(VOLUME_EPSILON, units).packages[k];
    UtilizationAtMostFull(pkg);
    RatioAtMostHundred(pkg.usedVolume, Volume(pkg.bounds));
  }

  lemma RatioAtMostHundred(used: int, whole: int)
    requires 0 < used <= whole
    ensures 0.0 < (used * 100) as real / whole as real <= 100.0
  {
    assert (used * 100) as real <= whole as real * 100.0;
  }

  // What the packages of a plan hold.
  function ItemsOfPlan(packages: seq<PackagePlan>): multiset<Item> {
    if packages == [] then multiset{}
    else ItemsOfPlan(packages[..|packages| - 1]) + ItemsOfPlacements(packages[|packages| - 1].placements)
  }

  lemma {:induction false} FinalizedItems(packages: seq<Package>)
    ensures ItemsOfPlan(FinalizeAll(packages)) == ItemsOfPackages(packages)
  {
    hide Finalize;
    if packages != [] {
      var n := |packages| - 1;
      FinalizedItems(packages[..n]);
      assert FinalizeAll(packages)[..n] == FinalizeAll(packages[..n]);
      FinalizedPlacements(packages[n]);
    }
  }

  lemma FinalizedPlacements(pkg: Package)
    ensures Finalize(pkg).placements == pkg.placements
  {
  }

  // Every requested unit exactly once, under distinct ids, and the summary counts agree.
  lemma PlanAccountsForEveryUnit(items: seq<RequestItem>, resolved: seq<Spec>)
    requires ValidRequest(items) && Resolvable(items, resolved)
    ensures var units := SortUnits(UnitsOf(items, resolved));
            var plan := PlanOf(VOLUME_EPSILON, units);
            && ItemsOfPlan(plan.packages) + ItemsOfUnits(plan.unfit) == ItemsOfUnits(units)
            && plan.unfit == Oversized(units)
            && (forall u :: u in units <==> IsUnitOf(u, SkuOrder(items), items, resolved))
            && (forall i, j :: 0 <= i < j < |units| ==> units[i].id != units[j].id)
            && plan.summary.packedUnits + plan.summary.unfitUnits == plan.summary.requestedUnits == |units|
            && plan.summary.packedWeight + UnitWeight(plan.unfit) == plan.summary.totalWeight == UnitWeight(units)
            && plan.summary.packedVolume + UnitVolume(plan.unfit) == UnitVolume(units)
  {
    hide ValidItem, Pack, UnitsFor, SortUnits, MakeUnit, IsUnitOf, ItemsOfPackages;
    var raw := UnitsOf(items, resolved);
    var units := SortUnits(raw);
    UnitsWellFormed(items, resolved);
    SkuOrderExact(items);
    UnitsForExact(SkuOrder(items), items, resolved);
    forall u ensures u in units <==> u in raw {
      assert u in units <==> u in multiset(units);
      assert u in raw <==> u in multiset(raw);
    }
    var p := Pack(VOLUME_EPSILON, units);
    PackConserves(VOLUME_EPSILON, units);
    FinalizedItems(p.packages);
    PackTotals(VOLUME_EPSILON, units);
  }

  lemma {:induction false} ReplacedPackageTotals(packages: seq<Package>, i: nat, item: Unit, c: Candidate)
    requires i < |packages|
    ensures var t, t' := PackageTotals(packages), PackageTotals(packages[i := WithPlacement(packages[i], item, c)]);
            t' == Totals(t.units + 1, t.weight + item.weight, t.volume + Volume(item.dimensions))
  {
    hide Volume;
    var n, pkg := |packages| - 1, WithPlacement(packages[i], item, c);
    if i < n {
      ReplacedPackageTotals(packages[..n], i, item, c);
      assert packages[i := pkg][..n] == packages[..n][i := pkg];
    } else {
      assert packages[i := pkg][..n] == packages[..n];
    }
  }

  lemma PlaceAddsTotals(eps: nat, p: Progress, item: Unit)
    requires !ExceedsLimits(item)
    ensures var t, t' := PackageTotals(p.packages), PackageTotals(Place(eps, p, item).packages);
            t' == Totals(t.units + 1, t.weight + item.weight, t.volume + Volume(item.dimensions))
  {
    hide BestExisting, Volume;
    match BestExisting(eps, p.packages, item)
    case None =>
      var placed := WithPlacement(EmptyPackage(|p.packages| + 1), item, FirstCandidate(item));
      assert (p.packages + [placed])[..|p.packages|] == p.packages;
    case Some(c) =>
      ReplacedPackageTotals(p.packages, c.index, item, c.candidate);
  }

  // Units, weight and volume: what is requested is what is packed plus what is left out.
  lemma {:induction false} PackTotals(eps: nat, units: seq<Unit>)
    ensures var p := Pack(eps, units);
            && PackageTotals(p.packages).units + |p.unfit| == |units|
            && PackageTotals(p.packages).weight + UnitWeight(p.unfit) == UnitWeight(units)
            && PackageTotals(p.packages).volume + UnitVolume(p.unfit) == UnitVolume(units)
  {
    hide Volume, BestExisting;
    if units != [] {
      var n := |units| - 1;
      var p := Pack(eps, units[..n]);
      PackTotals(eps, units[..n]);
      if ExceedsLimits(units[n]) {
        assert (p.unfit + [units[n]])[..|p.unfit|] == p.unfit;
      } else {
        PlaceAddsTotals(eps, p, units[n]);
        PlaceAddsItem(eps, p, units[n]);
      }
    }
  }

  // Permuting, splitting or merging request lines never changes a successful plan.
  lemma PlanDependsOnQuantitiesOnly(a: seq<RequestItem>, b: seq<RequestItem>, resolved: seq<Spec>)
    requires ValidRequest(a) && ValidRequest(b) && SameQuantities(a, b)
    ensures Resolvable(a, resolved) <==> Resolvable(b, resolved)
    ensures Resolvable(a, resolved) ==>
      PlanOf(VOLUME_EPSILON, SortUnits(UnitsOf(a, resolved))) == PlanOf(VOLUME_EPSILON, SortUnits(UnitsOf(b, resolved)))
  {
    hide PlanOf, ValidRequest, UnitsOf, SortUnits;
    PackingOrderIndependent(a, b, resolved);
  }
}
