// Sorting by a strict order: an insertion sort, and why every sort gives the same sequence.

module Sorting {
  ghost predicate Ordered<T>(s: seq<T>, less: (T, T) -> bool) {
    forall i, j :: 0 <= i < j < |s| ==> less(s[i], s[j])
  }

  ghost predicate StrictOrder<T(!new)>(less: (T, T) -> bool) {
    && (forall x :: !less(x, x))
    && (forall x, y, z :: less(x, y) && less(y, z) ==> less(x, z))
  }

  function Insert<T>(s: seq<T>, x: T, less: (T, T) -> bool): seq<T> {
    if s == [] || less(x, s[0]) then [x] + s else [s[0]] + Insert(s[1..], x, less)
  }

  lemma {:induction false} InsertOrdered<T(!new)>(s: seq<T>, x: T, less: (T, T) -> bool)
    requires StrictOrder(less) && Ordered(s, less)
    requires forall i :: 0 <= i < |s| ==> less(x, s[i]) || less(s[i], x)
    ensures Ordered(Insert(s, x, less), less)
    ensures multiset(Insert(s, x, less)) == multiset(s) + multiset{x}
    ensures forall y :: y in Insert(s, x, less) <==> y == x || y in s
  {
    if s != [] {
      var head, tail := s[0], s[1..];
      assert s == [head] + tail;
      if !less(x, head) {
        InsertOrdered(tail, x, less);
        var rest := Insert(tail, x, less);
        forall i | 0 <= i < |rest| ensures less(head, rest[i]) {
          assert rest[i] in rest;
        }
      }
    }
  }

  lemma {:induction false} OrderedUnique<T(!new)>(s: seq<T>, t: seq<T>, less: (T, T) -> bool)
    requires StrictOrder(less) && Ordered(s, less) && Ordered(t, less)
    requires forall x :: x in s <==> x in t
    ensures s == t
  {
    assert t != [] ==> t[0] in s;
    if s != [] {
      assert s[0] in t;
      assert less(s[0], t[0]) ==> !less(t[0], s[0]) by { assert !less(s[0], s[0]); }
      forall x ensures x in s[1..] <==> x in t[1..] {
        assert x in s <==> x == s[0] || x in s[1..];
        assert x in t <==> x == t[0] || x in t[1..];
      }
      OrderedUnique(s[1..], t[1..], less);
    }
  }
}
