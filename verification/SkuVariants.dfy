// SKUs that differ by one letter m, and the compatible specification lookup built on them.

module SkuVariants {
  import opened Wrappers

  datatype Spec = Spec(sku: string, complete: bool)

  function Inserted(sku: string, i: nat): string
    requires i <= |sku|
  {
    sku[..i] + "m" + sku[i..]
  }

  function Deleted(sku: string, i: nat): string
    requires i < |sku|
  {
    sku[..i] + sku[i + 1..]
  }

  // One of the two strings is the other with one letter m added somewhere.
  ghost predicate OneM(a: string, b: string) {
    (exists p: string, q: string :: AddsM(a, b, p, q)) || (exists p: string, q: string :: AddsM(b, a, p, q))
  }

  predicate AddsM(a: string, b: string, p: string, q: string) {
    a == p + q && b == p + "m" + q
  }

  ghost predicate Distinct(s: seq<string>) {
    forall i, j :: 0 <= i < j < |s| ==> s[i] != s[j]
  }

  method Add(sku: string, variants: seq<string>, seen: set<string>, value: string)
      returns (variants': seq<string>, seen': set<string>)
    requires Distinct(variants) && forall v :: v in seen <==> v in variants
    ensures Distinct(variants') && forall v :: v in seen' <==> v in variants'
    ensures forall v :: v in variants' <==> v in variants || (v == value && value != sku && value != "")
  {
    variants', seen' := variants, seen;
    if value == sku || value == "" || value in seen {
      return;
    }
    variants', seen' := variants + [value], seen + {value};
  }

  method OneMVariants(sku: string) returns (variants: seq<string>)
    ensures Distinct(variants)
    ensures forall v :: v in variants <==> v != "" && OneM(sku, v)
  {
    hide Distinct;
    var seen: set<string>;
    variants, seen := [], {};
    EmptyDistinct();
    for index := 0 to |sku| + 1
      invariant Distinct(variants) && forall v :: v in seen <==> v in variants
      invariant forall v :: v in variants <==> exists i :: 0 <= i < index && v == Inserted(sku, i)
    {
      variants, seen := Add(sku, variants, seen, Inserted(sku, index));
    }
    for index := 0 to |sku|
      invariant Distinct(variants) && forall v :: v in seen <==> v in variants
      invariant forall v :: v in variants <==>
        || (exists i :: 0 <= i <= |sku| && v == Inserted(sku, i))
        || (v != "" && exists i :: 0 <= i < index && sku[i] == 'm' && v == Deleted(sku, i))
    {
      if sku[index] == 'm' {
        variants, seen := Add(sku, variants, seen, Deleted(sku, index));
      }
    }
    forall v ensures v in variants <==> v != "" && OneM(sku, v) {
      OneMByIndex(sku, v);
    }
  }

  lemma EmptyDistinct()
    ensures Distinct([])
  {
  }

  lemma OneMByIndex(sku: string, v: string)
    ensures OneM(sku, v) <==>
      || (exists i :: 0 <= i <= |sku| && v == Inserted(sku, i))
      || (exists i :: 0 <= i < |sku| && sku[i] == 'm' && v == Deleted(sku, i))
  {
    if i :| 0 <= i <= |sku| && v == Inserted(sku, i) {
      assert sku == sku[..i] + sku[i..];
      assert AddsM(sku, v, sku[..i], sku[i..]);
    }
    if i :| 0 <= i < |sku| && sku[i] == 'm' && v == Deleted(sku, i) {
      assert sku == sku[..i] + "m" + sku[i + 1..];
      assert AddsM(v, sku, sku[..i], sku[i + 1..]);
    }
    if p: string, q: string :| AddsM(sku, v, p, q) {
      assert sku[..|p|] == p && sku[|p|..] == q;
      assert v == Inserted(sku, |p|);
    }
    if p: string, q: string :| AddsM(v, sku, p, q) {
      assert sku[..|p|] == p && sku[|p| + 1..] == q && sku[|p|] == 'm';
      assert v == Deleted(sku, |p|);
    }
  }

  // ---- The compatible specification -------------------------------------------------------

  // A neighbouring SKU with a complete specification on record.
  ghost predicate Compatible(sku: string, found: map<string, Spec>, v: string) {
    v != "" && OneM(sku, v) && v in found && found[v].complete
  }

  ghost predicate UniqueCompatible(sku: string, found: map<string, Spec>, v: string) {
    Compatible(sku, found, v) && forall w :: Compatible(sku, found, w) ==> w == v
  }

  method CompatibleOneMSpec(sku: string, found: map<string, Spec>) returns (spec: Option<Spec>, names: seq<string>)
    ensures Distinct(names) && forall v :: v in names <==> Compatible(sku, found, v)
    ensures spec.Some? <==> exists v :: UniqueCompatible(sku, found, v)
    ensures forall v :: UniqueCompatible(sku, found, v) ==> spec == Some(found[v])
  {
    hide OneM;
    var variants := OneMVariants(sku);
    var candidates: seq<Spec>;
    candidates, names := [], [];
    for i := 0 to |variants|
      invariant Distinct(names)
      invariant forall v :: v in names <==> v in variants[..i] && v in found && found[v].complete
      invariant |candidates| == |names| && forall k :: 0 <= k < |names| ==> candidates[k] == found[names[k]]
    {
      var candidate := variants[i];
      assert variants[..i + 1] == variants[..i] + [candidate];
      if candidate in found && found[candidate].complete {
        assert candidate !in variants[..i];
        candidates, names := candidates + [found[candidate]], names + [candidate];
      }
    }
    assert variants[..|variants|] == variants;
    if |candidates| == 1 {
      spec := Some(candidates[0]);
      assert UniqueCompatible(sku, found, names[0]);
    } else {
      spec := None;
      if v :| UniqueCompatible(sku, found, v) {
        assert v in names;
        assert names[0] in names && names[1] in names;
      }
    }
  }
}
