// The volume a package uses never exceeds the volume of its envelope: count unit cells.

module PackingVolume {
  import opened PackingModel

  ghost function Range(from: int, n: int): (r: set<int>)
    ensures forall x :: x in r <==> from <= x < from + n
    decreases n
  {
    if n <= 0 then {} else Range(from, n - 1) + {from + n - 1}
  }

  ghost function Product<A(!new), B(!new)>(s: set<A>, t: set<B>): (r: set<(A, B)>)
    ensures forall p :: p in r <==> p.0 in s && p.1 in t
  {
    set a, b | a in s && b in t :: (a, b)
  }

  lemma {:induction false} RangeSize(from: int, n: int)
    requires 0 <= n
    ensures |Range(from, n)| == n
  {
    if n != 0 {
      RangeSize(from, n - 1);
    }
  }

  lemma {:induction false} PairingSize<A(!new), B(!new)>(a: A, t: set<B>)
    ensures |Product({a}, t)| == |t|
  {
    if t == {} {
      assert Product({a}, t) == {};
    } else {
      var b :| b in t;
      PairingSize(a, t - {b});
      assert Product({a}, t) == Product({a}, t - {b}) + {(a, b)};
    }
  }

  lemma OneMore(m: nat, k: nat)
    ensures (m + 1) * k == m * k + k
  {
  }

  lemma {:induction false} ProductSize<A(!new), B(!new)>(s: set<A>, t: set<B>)
    ensures |Product(s, t)| == |s| * |t|
  {
    if s == {} {
      assert Product(s, t) == {};
    } else {
      var a :| a in s;
      ProductSize(s - {a}, t);
      PairingSize(a, t);
      assert Product(s, t) == Product(s - {a}, t) + Product({a}, t);
      assert Product(s - {a}, t) !! Product({a}, t);
      OneMore(|s - {a}|, |t|);
      assert |s| == |s - {a}| + 1;
    }
  }

  lemma {:induction false} SubsetSize<T>(s: set<T>, t: set<T>)
    requires s <= t
    ensures |s| <= |t|
  {
    assert t == s + (t - s);
  }

  // The unit cells a box covers.
  ghost function Cells(p: Position, d: Dimensions): set<(int, (int, int))> {
    Product(Range(p.x, d.length), Product(Range(p.y, d.height), Range(p.z, d.width)))
  }

  lemma Reorder(l: int, h: int, w: int)
    ensures l * (h * w) == l * w * h
  {
  }

  lemma CellCount(p: Position, d: Dimensions)
    requires Positive(d)
    ensures |Cells(p, d)| == Volume(d)
  {
    hide Range, Product;
    RangeSize(p.x, d.length);
    RangeSize(p.y, d.height);
    RangeSize(p.z, d.width);
    ProductSize(Range(p.y, d.height), Range(p.z, d.width));
    ProductSize(Range(p.x, d.length), Product(Range(p.y, d.height), Range(p.z, d.width)));
    Reorder(d.length, d.height, d.width);
  }

  function TotalVolume(placements: seq<Placement>): int {
    if placements == [] then 0
    else TotalVolume(placements[..|placements| - 1]) + Volume(placements[|placements| - 1].dimensions)
  }

  ghost predicate Disjoint(placements: seq<Placement>) {
    forall i, j :: 0 <= i < j < |placements| ==>
      !Overlap(placements[j].position, placements[j].dimensions, placements[i].position, placements[i].dimensions)
  }

  ghost predicate Inside(b: Placement, bounds: Dimensions) {
    && Positive(b.dimensions)
    && 0 <= b.position.x && b.position.x + b.dimensions.length <= bounds.length
    && 0 <= b.position.y && b.position.y + b.dimensions.height <= bounds.height
    && 0 <= b.position.z && b.position.z + b.dimensions.width <= bounds.width
  }

  ghost function AllCells(placements: seq<Placement>): set<(int, (int, int))> {
    if placements == [] then {} else
      var last := placements[|placements| - 1];
      AllCells(placements[..|placements| - 1]) + Cells(last.position, last.dimensions)
  }

  lemma {:induction false} AllCellsMember(placements: seq<Placement>, c: (int, (int, int)))
    ensures c in AllCells(placements) <==>
      exists i :: 0 <= i < |placements| && c in Cells(placements[i].position, placements[i].dimensions)
  {
    hide Cells;
    if placements != [] {
      AllCellsMember(placements[..|placements| - 1], c);
    }
  }

  lemma {:induction false} AllCellsCount(placements: seq<Placement>)
    requires Disjoint(placements) && forall i :: 0 <= i < |placements| ==> Positive(placements[i].dimensions)
    ensures |AllCells(placements)| == TotalVolume(placements)
  {
    hide Volume;
    if placements != [] {
      var n := |placements| - 1;
      var rest, last := placements[..n], placements[n];
      AllCellsCount(rest);
      CellCount(last.position, last.dimensions);
      forall c | c in AllCells(rest) ensures c !in Cells(last.position, last.dimensions) {
        AllCellsMember(rest, c);
        var i :| 0 <= i < n && c in Cells(rest[i].position, rest[i].dimensions);
        assert !Overlap(last.position, last.dimensions, placements[i].position, placements[i].dimensions);
      }
    }
  }

  lemma InsideCells(b: Placement, bounds: Dimensions, c: (int, (int, int)))
    requires Inside(b, bounds) && c in Cells(b.position, b.dimensions)
    ensures c in Cells(Position(0, 0, 0), bounds)
  {
  }

  // Disjoint boxes inside an envelope have at most its volume.
  lemma DisjointBoxesFit(placements: seq<Placement>, bounds: Dimensions)
    requires Positive(bounds) && Disjoint(placements)
    requires forall i :: 0 <= i < |placements| ==> Inside(placements[i], bounds)
    ensures TotalVolume(placements) <= Volume(bounds)
  {
    hide Volume, Cells, AllCells;
    AllCellsCount(placements);
    var envelope := Cells(Position(0, 0, 0), bounds);
    CellCount(Position(0, 0, 0), bounds);
    forall c | c in AllCells(placements) ensures c in envelope {
      AllCellsMember(placements, c);
      var i :| 0 <= i < |placements| && c in Cells(placements[i].position, placements[i].dimensions);
      InsideCells(placements[i], bounds, c);
    }
    SubsetSize(AllCells(placements), envelope);
  }
}
