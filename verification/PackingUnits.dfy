// Validation of a packing request, its expansion into single units, and the order they are packed in.

module PackingUnits {
  import opened PackingModel
  import opened Wrappers
  import Sorting
  import Text

  datatype RequestItem = RequestItem(sku: string, quantity: int)
  datatype Spec = Spec(sku: string, productName: string, complete: bool, length: Option<int>, width: Option<int>,
                       height: Option<int>, weight: Option<int>)

  const MAX_ENTRIES := 40
  const MAX_UNITS := 300
  const MAX_SKU_LENGTH := 255

  // ---- Validation -------------------------------------------------------------------------

  function TotalQuantity(items: seq<RequestItem>): int {
    if items == [] then 0 else TotalQuantity(items[..|items| - 1]) + items[|items| - 1].quantity
  }

  predicate ValidItem(item: RequestItem) {
    Text.TrimSpace(item.sku) != "" && Text.ByteLength(Text.TrimSpace(item.sku)) <= MAX_SKU_LENGTH && 0 < item.quantity
  }

  predicate ValidRequest(items: seq<RequestItem>) {
    && 0 < |items| <= MAX_ENTRIES
    && (forall i :: 0 <= i < |items| ==> ValidItem(items[i]))
    && TotalQuantity(items) <= MAX_UNITS
  }

  lemma ItemRules(item: RequestItem)
    ensures var sku := Text.TrimSpace(item.sku);
            ValidItem(item) <==> !(sku == "" || item.quantity <= 0 || Text.ByteLength(sku) > MAX_SKU_LENGTH)
  {
  }

  lemma {:induction false} PartialTotal(items: seq<RequestItem>, i: nat)
    requires i <= |items| && forall k :: 0 <= k < |items| ==> ValidItem(items[k])
    ensures 0 <= TotalQuantity(items[..i]) <= TotalQuantity(items)
    decreases |items| - i, i
  {
    if i < |items| {
      PartialTotal(items, i + 1);
      assert items[..i + 1][..i] == items[..i];
      TotalNonNegative(items[..i]);
    } else {
      assert items[..i] == items;
      TotalNonNegative(items);
    }
  }

  lemma {:induction false} TotalNonNegative(items: seq<RequestItem>)
    requires forall k :: 0 <= k < |items| ==> ValidItem(items[k])
    ensures 0 <= TotalQuantity(items)
  {
    if items != [] {
      TotalNonNegative(items[..|items| - 1]);
    }
  }

  method ValidateRequest(items: seq<RequestItem>) returns (ok: bool)
    ensures ok <==> ValidRequest(items)
  {
    hide ValidItem;
    if |items| == 0 || |items| > MAX_ENTRIES {
      return false;
    }
    var totalUnits := 0;
    var seen: set<string> := {};
    for i := 0 to |items|
      invariant forall k :: 0 <= k < i ==> ValidItem(items[k])
      invariant totalUnits == TotalQuantity(items[..i]) <= MAX_UNITS
      invariant |seen| <= i
    {
      var sku := Text.TrimSpace(items[i].sku);
      if sku == "" || items[i].quantity <= 0 || Text.ByteLength(sku) > MAX_SKU_LENGTH {
        ItemRules(items[i]);
        return false;
      }
      ItemRules(items[i]);
      assert items[..i + 1][..i] == items[..i];
      if items[i].quantity > MAX_UNITS || totalUnits > MAX_UNITS - items[i].quantity {
        if forall k :: 0 <= k < |items| ==> ValidItem(items[k]) {
          PartialTotal(items, i + 1);
          PartialTotal(items, i);
        }
        return false;
      }
      seen := seen + {sku};
      totalUnits := totalUnits + items[i].quantity;
    }
    assert items[..|items|] == items;
    return |seen| <= MAX_ENTRIES;
  }

  // ---- Expansion into units ---------------------------------------------------------------

  // The whole quantity requested of a SKU, over all lines that name it.
  function QuantityOf(items: seq<RequestItem>, sku: string): int {
    if items == [] then 0 else
      var last := items[|items| - 1];
      QuantityOf(items[..|items| - 1], sku) + (if Text.TrimSpace(last.sku) == sku then last.quantity else 0)
  }

  // The requested SKUs, each once, in order of first mention.
  function SkuOrder(items: seq<RequestItem>): seq<string> {
    if items == [] then [] else
      var rest := SkuOrder(items[..|items| - 1]);
      var sku := Text.TrimSpace(items[|items| - 1].sku);
      if sku in rest then rest else rest + [sku]
  }

  // A later specification of the same SKU replaces an earlier one.
  function SpecOf(resolved: seq<Spec>, sku: string): Option<Spec> {
    if resolved == [] then None
    else if resolved[|resolved| - 1].sku == sku then Some(resolved[|resolved| - 1])
    else SpecOf(resolved[..|resolved| - 1], sku)
  }

  predicate Usable(spec: Option<Spec>) {
    && spec.Some? && spec.value.complete
    && spec.value.length.Some? && spec.value.width.Some? && spec.value.height.Some? && spec.value.weight.Some?
    && 0 < spec.value.length.value && 0 < spec.value.width.value
    && 0 < spec.value.height.value && 0 < spec.value.weight.value
  }

  function UnitId(sku: string, ordinal: nat): string {
    sku + "#" + Text.Decimal(ordinal)
  }

  function MakeUnit(spec: Spec, sku: string, ordinal: nat): Unit
    requires Usable(Some(spec))
  {
    Unit(UnitId(sku, ordinal), ordinal, sku, spec.productName,
         Dimensions(spec.length.value, spec.width.value, spec.height.value), spec.weight.value)
  }

  function UnitsOfSku(spec: Spec, sku: string, quantity: int): seq<Unit>
    requires Usable(Some(spec))
  {
    if quantity <= 0 then [] else UnitsOfSku(spec, sku, quantity - 1) + [MakeUnit(spec, sku, quantity)]
  }

  predicate AllUsable(order: seq<string>, resolved: seq<Spec>) {
    forall i :: 0 <= i < |order| ==> Usable(SpecOf(resolved, order[i]))
  }

  function UnitsFor(order: seq<string>, items: seq<RequestItem>, resolved: seq<Spec>): seq<Unit>
    requires AllUsable(order, resolved)
  {
    if order == [] then [] else
      var sku := order[|order| - 1];
      UnitsFor(order[..|order| - 1], items, resolved)
        + UnitsOfSku(SpecOf(resolved, sku).value, sku, QuantityOf(items, sku))
  }

  predicate Resolvable(items: seq<RequestItem>, resolved: seq<Spec>) {
    AllUsable(SkuOrder(items), resolved)
  }

  function UnitsOf(items: seq<RequestItem>, resolved: seq<Spec>): seq<Unit>
    requires Resolvable(items, resolved)
  {
    UnitsFor(SkuOrder(items), items, resolved)
  }

  method Quantities(items: seq<RequestItem>) returns (requestOrder: seq<string>, quantities: map<string, int>)
    ensures requestOrder == SkuOrder(items)
    ensures forall sku :: sku in requestOrder ==> sku in quantities && quantities[sku] == QuantityOf(items, sku)
  {
    hide Text.TrimSpace;
    requestOrder, quantities := [], map[];
    for i := 0 to |items|
      invariant requestOrder == SkuOrder(items[..i])
      invariant forall sku :: sku in quantities <==> sku in requestOrder
      invariant forall sku :: QuantityOf(items[..i], sku) == if sku in quantities then quantities[sku] else 0
    {
      assert items[..i + 1][..i] == items[..i];
      var sku := Text.TrimSpace(items[i].sku);
      if sku !in quantities {
        requestOrder := requestOrder + [sku];
        quantities := quantities[sku := 0];
      }
      quantities := quantities[sku := quantities[sku] + items[i].quantity];
    }
    assert items[..|items|] == items;
  }

  method SpecsBySku(resolved: seq<Spec>) returns (bySku: map<string, Spec>)
    ensures forall sku :: SpecOf(resolved, sku) == if sku in bySku then Some(bySku[sku]) else None
  {
    bySku := map[];
    for i := 0 to |resolved|
      invariant forall sku :: SpecOf(resolved[..i], sku) == if sku in bySku then Some(bySku[sku]) else None
    {
      assert resolved[..i + 1][..i] == resolved[..i];
      bySku := bySku[resolved[i].sku := resolved[i]];
    }
    assert resolved[..|resolved|] == resolved;
  }

  method AppendUnits(units: seq<Unit>, spec: Spec, sku: string, quantity: int) returns (r: seq<Unit>)
    requires Usable(Some(spec))
    ensures r == units + UnitsOfSku(spec, sku, quantity)
  {
    r := units;
    var ordinal := 1;
    while ordinal <= quantity
      invariant 1 <= ordinal && (ordinal <= quantity + 1 || ordinal == 1)
      invariant r == units + UnitsOfSku(spec, sku, ordinal - 1)
    {
      r := r + [MakeUnit(spec, sku, ordinal)];
      ordinal := ordinal + 1;
    }
  }

  method ResolveUnits(items: seq<RequestItem>, resolved: seq<Spec>) returns (r: Option<seq<Unit>>)
    ensures r.Some? <==> Resolvable(items, resolved)
    ensures r.Some? ==> r.value == UnitsOf(items, resolved)
  {
    hide Usable, SkuOrder, QuantityOf, SpecOf, UnitsOfSku;
    var requestOrder, quantities := Quantities(items);
    var bySku := SpecsBySku(resolved);
    var units: seq<Unit> := [];
    for i := 0 to |requestOrder|
      invariant AllUsable(requestOrder[..i], resolved)
      invariant units == UnitsFor(requestOrder[..i], items, resolved)
    {
      var sku := requestOrder[i];
      var spec := if sku in bySku then Some(bySku[sku]) else None;
      assert spec == SpecOf(resolved, sku);
      if spec.None? || !Usable(spec) {
        assert !Usable(SpecOf(resolved, requestOrder[i])) by { UsableIsSome(spec); }
        return None;
      }
      assert requestOrder[..i + 1][..i] == requestOrder[..i];
      units := AppendUnits(units, spec.value, sku, quantities[sku]);
    }
    assert requestOrder[..|requestOrder|] == requestOrder;
    return Some(units);
  }

  lemma UsableIsSome(spec: Option<Spec>)
    ensures Usable(spec) ==> spec.Some?
  {
  }

  // ---- The units of a request -------------------------------------------------------------

  ghost predicate Distinct<T>(s: seq<T>) {
    forall i, j :: 0 <= i < j < |s| ==> s[i] != s[j]
  }

  ghost predicate IsUnitOf(u: Unit, order: seq<string>, items: seq<RequestItem>, resolved: seq<Spec>)
    requires AllUsable(order, resolved)
  {
    && u.sku in order && 1 <= u.ordinal <= QuantityOf(items, u.sku)
    && u == MakeUnit(SpecOf(resolved, u.sku).value, u.sku, u.ordinal)
  }

  lemma {:induction false} UnitsOfSkuAt(spec: Spec, sku: string, quantity: int)
    requires Usable(Some(spec))
    ensures |UnitsOfSku(spec, sku, quantity)| == Max(quantity, 0)
    ensures forall i :: 0 <= i < quantity ==> UnitsOfSku(spec, sku, quantity)[i] == MakeUnit(spec, sku, i + 1)
  {
    hide MakeUnit, Usable;
    if 0 < quantity {
      UnitsOfSkuAt(spec, sku, quantity - 1);
    }
  }

  // Exactly ordinals 1..quantity of every requested SKU, each once.
  lemma {:induction false} UnitsForExact(order: seq<string>, items: seq<RequestItem>, resolved: seq<Spec>)
    requires AllUsable(order, resolved) && Distinct(order)
    ensures forall u :: u in UnitsFor(order, items, resolved) <==> IsUnitOf(u, order, items, resolved)
    ensures forall i, j {:trigger UnitsFor(order, items, resolved)[i], UnitsFor(order, items, resolved)[j]} ::
      0 <= i < j < |UnitsFor(order, items, resolved)| ==>
        var u, v := UnitsFor(order, items, resolved)[i], UnitsFor(order, items, resolved)[j];
        u.sku != v.sku || u.ordinal != v.ordinal
  {
    hide QuantityOf, SpecOf;
    if order != [] {
      var n := |order| - 1;
      var rest, sku := order[..n], order[n];
      var spec, quantity := SpecOf(resolved, sku).value, QuantityOf(items, sku);
      UnitsForExact(rest, items, resolved);
      UnitsOfSkuAt(spec, sku, quantity);
      var first, last := UnitsFor(rest, items, resolved), UnitsOfSku(spec, sku, quantity);
      assert UnitsFor(order, items, resolved) == first + last;
      assert order == rest + [sku];
      forall u ensures u in last <==> u.sku == sku && IsUnitOf(u, order, items, resolved) {
        if u.sku == sku && IsUnitOf(u, order, items, resolved) {
          assert last[u.ordinal - 1] == u;
        }
      }
      forall i | 0 <= i < |first| ensures first[i].sku != sku {
        assert first[i] in first;
      }
    }
  }

  lemma {:induction false} SkuOrderExact(items: seq<RequestItem>)
    requires forall k :: 0 <= k < |items| ==> ValidItem(items[k])
    ensures Distinct(SkuOrder(items))
    ensures forall sku :: 0 <= QuantityOf(items, sku) && (sku in SkuOrder(items) <==> 0 < QuantityOf(items, sku))
  {
    if items != [] {
      SkuOrderExact(items[..|items| - 1]);
    }
  }

  lemma UnitIdInjective(s: string, m: nat, t: string, n: nat)
    requires UnitId(s, m) == UnitId(t, n)
    ensures s == t && m == n
  {
    hide Text.Decimal;
    var d, e := Text.Decimal(m), Text.Decimal(n);
    var u := UnitId(s, m);
    assert u[|s|] == '#' && forall i :: |s| < i < |u| ==> Text.IsDigit(u[i]) by {
      assert forall i :: |s| < i < |u| ==> u[i] == d[i - |s| - 1];
    }
    assert u[|t|] == '#' && forall i :: |t| < i < |u| ==> Text.IsDigit(u[i]) by {
      assert forall i :: |t| < i < |u| ==> u[i] == e[i - |t| - 1];
    }
    assert |s| == |t|;
    assert s == u[..|s|] && t == u[..|t|];
    assert d == u[|s| + 1..] && e == u[|t| + 1..];
    Text.DecimalInjective(m, n);
  }

  // ---- The packing order ------------------------------------------------------------------

  predicate Before(u: Unit, v: Unit) {
    if Volume(u.dimensions) != Volume(v.dimensions) then Volume(u.dimensions) > Volume(v.dimensions)
    else if u.weight != v.weight then u.weight > v.weight
    else if u.sku != v.sku then Text.Less(u.sku, v.sku)
    else u.ordinal < v.ordinal
  }

  lemma BeforeStrictOrder(u: Unit, v: Unit, w: Unit)
    ensures !Before(u, u)
    ensures Before(u, v) && Before(v, w) ==> Before(u, w)
    ensures u.sku != v.sku || u.ordinal != v.ordinal ==> Before(u, v) || Before(v, u)
    ensures Before(u, v) ==> !Before(v, u)
  {
    hide Volume, Text.Less;
    Text.LessIrreflexive(u.sku);
    Text.LessTotal(u.sku, v.sku);
    if Text.Less(u.sku, v.sku) && Text.Less(v.sku, w.sku) {
      Text.LessTransitive(u.sku, v.sku, w.sku);
    }
    if Text.Less(u.sku, v.sku) && Text.Less(v.sku, u.sku) {
      Text.LessTransitive(u.sku, v.sku, u.sku);
    }
  }

  // What the library's stable sort returns for this order.
  function SortUnits(units: seq<Unit>): seq<Unit> {
    if units == [] then [] else Sorting.Insert(SortUnits(units[..|units| - 1]), units[|units| - 1], Before)
  }

  ghost predicate StrictlySorted(s: seq<Unit>) {
    Sorting.Ordered(s, Before)
  }

  ghost predicate DistinctUnits(s: seq<Unit>) {
    forall i, j :: 0 <= i < j < |s| ==> s[i].sku != s[j].sku || s[i].ordinal != s[j].ordinal
  }

  lemma BeforeIsStrict()
    ensures Sorting.StrictOrder(Before)
  {
    hide Before;
    forall u, v, w ensures !Before(u, u) && (Before(u, v) && Before(v, w) ==> Before(u, w)) {
      BeforeStrictOrder(u, v, w);
    }
  }

  lemma {:induction false} SortUnitsSorted(units: seq<Unit>)
    requires DistinctUnits(units)
    ensures StrictlySorted(SortUnits(units))
    ensures multiset(SortUnits(units)) == multiset(units)
  {
    hide Before;
    if units != [] {
      var n := |units| - 1;
      SortUnitsSorted(units[..n]);
      assert units == units[..n] + [units[n]];
      var sorted := SortUnits(units[..n]);
      forall i | 0 <= i < |sorted| ensures Before(units[n], sorted[i]) || Before(sorted[i], units[n]) {
        assert sorted[i] in multiset(units[..n]);
        BeforeStrictOrder(units[n], sorted[i], sorted[i]);
      }
      BeforeIsStrict();
      Sorting.InsertOrdered(sorted, units[n], Before);
    }
  }

  // Bulkiest units first, the heavier of two equally bulky ones first.
  lemma BulkiestFirst(units: seq<Unit>, i: nat, j: nat)
    requires DistinctUnits(units) && i < j < |SortUnits(units)|
    ensures var u, v := SortUnits(units)[i], SortUnits(units)[j];
            Volume(u.dimensions) > Volume(v.dimensions)
              || (Volume(u.dimensions) == Volume(v.dimensions) && u.weight >= v.weight)
  {
    hide Volume, SortUnits;
    SortUnitsSorted(units);
    assert Before(SortUnits(units)[i], SortUnits(units)[j]);
  }

  lemma SortedUnique(s: seq<Unit>, t: seq<Unit>)
    requires StrictlySorted(s) && StrictlySorted(t)
    requires forall u :: u in s <==> u in t
    ensures s == t
  {
    BeforeIsStrict();
    Sorting.OrderedUnique(s, t, Before);
  }

  ghost predicate SameQuantities(a: seq<RequestItem>, b: seq<RequestItem>) {
    forall sku :: QuantityOf(a, sku) == QuantityOf(b, sku)
  }

  // Two valid requests for the same quantities resolve alike and are packed in the same order.
  lemma PackingOrderIndependent(a: seq<RequestItem>, b: seq<RequestItem>, resolved: seq<Spec>)
    requires ValidRequest(a) && ValidRequest(b) && SameQuantities(a, b)
    ensures Resolvable(a, resolved) <==> Resolvable(b, resolved)
    ensures Resolvable(a, resolved) ==> SortUnits(UnitsOf(a, resolved)) == SortUnits(UnitsOf(b, resolved))
  {
    hide ValidItem, QuantityOf, SkuOrder, AllUsable, UnitsFor, SortUnits, MakeUnit, StrictlySorted;
    SkuOrderExact(a);
    SkuOrderExact(b);
    assert forall sku :: sku in SkuOrder(a) <==> sku in SkuOrder(b);
    UsableInAnyOrder(SkuOrder(a), SkuOrder(b), resolved);
    if Resolvable(a, resolved) {
      UnitsForExact(SkuOrder(a), a, resolved);
      UnitsForExact(SkuOrder(b), b, resolved);
      var s, t := UnitsOf(a, resolved), UnitsOf(b, resolved);
      forall u ensures u in s <==> u in t {
        assert IsUnitOf(u, SkuOrder(a), a, resolved) <==> IsUnitOf(u, SkuOrder(b), b, resolved);
      }
      SameElementsSortAlike(s, t);
    }
  }

  lemma SameElementsSortAlike(s: seq<Unit>, t: seq<Unit>)
    requires DistinctUnits(s) && DistinctUnits(t) && forall u :: u in s <==> u in t
    ensures SortUnits(s) == SortUnits(t)
  {
    hide SortUnits, StrictlySorted;
    SortUnitsSorted(s);
    SortUnitsSorted(t);
    forall u ensures u in SortUnits(s) <==> u in SortUnits(t) {
      assert u in SortUnits(s) <==> u in multiset(SortUnits(s));
      assert u in SortUnits(t) <==> u in multiset(SortUnits(t));
      assert u in s <==> u in multiset(s);
      assert u in t <==> u in multiset(t);
    }
    SortedUnique(SortUnits(s), SortUnits(t));
  }

  lemma UsableInAnyOrder(s: seq<string>, t: seq<string>, resolved: seq<Spec>)
    requires forall sku :: sku in s <==> sku in t
    ensures AllUsable(s, resolved) <==> AllUsable(t, resolved)
  {
    if AllUsable(s, resolved) {
      forall i | 0 <= i < |t| ensures Usable(SpecOf(resolved, t[i])) {
        assert t[i] in s;
      }
    }
    if AllUsable(t, resolved) {
      forall i | 0 <= i < |s| ensures Usable(SpecOf(resolved, s[i])) {
        assert s[i] in t;
      }
    }
  }

  // The units handed to the planner: positive sizes, distinct ids.
  lemma UnitsWellFormed(items: seq<RequestItem>, resolved: seq<Spec>)
    requires ValidRequest(items) && Resolvable(items, resolved)
    ensures var units := SortUnits(UnitsOf(items, resolved));
            && multiset(units) == multiset(UnitsOf(items, resolved))
            && forall i :: 0 <= i < |units| ==> Positive(units[i].dimensions) && 0 < units[i].weight
    ensures var units := SortUnits(UnitsOf(items, resolved));
            forall i, j :: 0 <= i < j < |units| ==> units[i].id != units[j].id
  {
    SkuOrderExact(items);
    UnitsForExact(SkuOrder(items), items, resolved);
    var raw := UnitsOf(items, resolved);
    SortUnitsSorted(raw);
    var units := SortUnits(raw);
    forall i | 0 <= i < |units|
      ensures IsUnitOf(units[i], SkuOrder(items), items, resolved)
    {
      assert units[i] in multiset(raw);
    }
    forall i, j | 0 <= i < j < |units| ensures units[i].id != units[j].id {
      assert Before(units[i], units[j]);
      BeforeStrictOrder(units[i], units[j], units[i]);
      if units[i].id == units[j].id {
        UnitIdInjective(units[i].sku, units[i].ordinal, units[j].sku, units[j].ordinal);
      }
    }
  }
}
