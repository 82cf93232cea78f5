// Replacing a warehouse's funds-flow snapshot: occurrence numbers let keyed rows stand for a multiset.

module FundsFlow {
  import Text
  import opened Wrappers

  // A fetched record: the warehouse code it names and its canonical encoding.
  datatype Record = Record(code: string, payload: string)
  datatype Detail = Detail(status: string, attempts: int, error: string)
  // The hashed key stands for what it is computed from; hashes are taken as injective.
  datatype SourceKey = SourceKey(warehouse: string, payload: string, occurrence: nat)
  datatype Row = Row(warehouse: string, payload: string, token: int, detail: Detail)
  type Table = map<SourceKey, Row>

  const PENDING := Detail("pending", 0, "")

  predicate Belongs(r: Record, warehouse: string) {
    var code := Text.Normalize(r.code);
    code == "" || code == warehouse
  }

  function Count(records: seq<Record>, payload: string): nat {
    if records == [] then 0
    else Count(records[..|records| - 1], payload) + (if records[|records| - 1].payload == payload then 1 else 0)
  }

  function Upsert(rows: Table, key: SourceKey, token: int): Table {
    rows[key := if key in rows then rows[key].(payload := key.payload, token := token)
                else Row(key.warehouse, key.payload, token, PENDING)]
  }

  function UpsertAll(rows: Table, warehouse: string, records: seq<Record>, token: int): Table {
    if records == [] then rows else
      var n := |records| - 1;
      Upsert(UpsertAll(rows, warehouse, records[..n], token),
             SourceKey(warehouse, records[n].payload, Count(records, records[n].payload)), token)
  }

  function DeleteStale(rows: Table, warehouse: string, token: int): Table {
    map k | k in rows && !(rows[k].warehouse == warehouse && rows[k].token != token) :: rows[k]
  }

  function Replaced(rows: Table, warehouse: string, records: seq<Record>, token: int): Table {
    DeleteStale(UpsertAll(rows, warehouse, records, token), warehouse, token)
  }

  class FlowStore {
    var rows: Table

    constructor ()
      ensures rows == map[]
    {
      rows := map[];
    }

    // `locked` is the outcome of the try-lock; a foreign record rolls everything back.
    method ReplaceSnapshot(warehouseCode: string, records: seq<Record>, locked: bool, token: int)
        returns (count: Option<nat>)
      modifies this
      ensures var warehouse := Text.Normalize(warehouseCode);
              count.Some? <==> locked && forall i :: 0 <= i < |records| ==> Belongs(records[i], warehouse)
      ensures count.None? ==> rows == old(rows)
      ensures count.Some? ==>
        count.value == |records| && rows == Replaced(old(rows), Text.Normalize(warehouseCode), records, token)
    {
      hide Belongs, Upsert, Text.Normalize;
      var warehouse := Text.Normalize(warehouseCode);
      if !locked {
        return None;
      }
      var table := rows;
      var occurrences: map<string, nat> := map[];
      for i := 0 to |records|
        invariant forall k :: 0 <= k < i ==> Belongs(records[k], warehouse)
        invariant forall p :: Count(records[..i], p) == if p in occurrences then occurrences[p] else 0
        invariant table == UpsertAll(rows, warehouse, records[..i], token)
        invariant rows == old(rows)
      {
        assert records[..i + 1][..i] == records[..i];
        if !Belongs(records[i], warehouse) {
          return None;
        }
        var payload := records[i].payload;
        var occurrence := (if payload in occurrences then occurrences[payload] else 0) + 1;
        occurrences := occurrences[payload := occurrence];
        table := Upsert(table, SourceKey(warehouse, payload, occurrence), token);
      }
      assert records[..|records|] == records;
      rows := DeleteStale(table, warehouse, token);
      count := Some(|records|);
    }
  }

  // ---- What a replaced table holds --------------------------------------------------------

  predicate WellKeyed(rows: Table) {
    forall k :: k in rows ==> rows[k].warehouse == k.warehouse && rows[k].payload == k.payload
  }

  predicate FreshToken(rows: Table, token: int) {
    forall k :: k in rows ==> rows[k].token != token
  }

  predicate Demanded(records: seq<Record>, warehouse: string, k: SourceKey) {
    k.warehouse == warehouse && 1 <= k.occurrence <= Count(records, k.payload)
  }

  lemma {:induction false} UpsertAllAt(rows: Table, warehouse: string, records: seq<Record>, token: int, k: SourceKey)
    requires WellKeyed(rows)
    ensures WellKeyed(UpsertAll(rows, warehouse, records, token))
    ensures var after := UpsertAll(rows, warehouse, records, token);
            if Demanded(records, warehouse, k) then
              && k in after
              && after[k] == Row(warehouse, k.payload, token, if k in rows then rows[k].detail else PENDING)
            else (k in after <==> k in rows) && (k in rows ==> after[k] == rows[k])
  {
    if records != [] {
      UpsertAllAt(rows, warehouse, records[..|records| - 1], token, k);
    }
  }

  // After a resync: one row per payload and occurrence 1..count with its old detail progress if it had
  // a row, nothing else of this warehouse, and every other warehouse untouched.
  lemma ReplacedAt(rows: Table, warehouse: string, records: seq<Record>, token: int, k: SourceKey)
    requires WellKeyed(rows) && FreshToken(rows, token)
    ensures var after := Replaced(rows, warehouse, records, token);
            if k.warehouse == warehouse then
              && (k in after <==> 1 <= k.occurrence <= Count(records, k.payload))
              && (k in after ==>
                    after[k] == Row(warehouse, k.payload, token, if k in rows then rows[k].detail else PENDING))
            else (k in after <==> k in rows) && (k in rows ==> after[k] == rows[k])
  {
    UpsertAllAt(rows, warehouse, records, token, k);
  }

  lemma ReplacedWellKeyed(rows: Table, warehouse: string, records: seq<Record>, token: int)
    requires WellKeyed(rows) && FreshToken(rows, token)
    ensures WellKeyed(Replaced(rows, warehouse, records, token))
  {
    forall k | k in Replaced(rows, warehouse, records, token)
      ensures Replaced(rows, warehouse, records, token)[k].warehouse == k.warehouse
      ensures Replaced(rows, warehouse, records, token)[k].payload == k.payload
    {
      ReplacedAt(rows, warehouse, records, token, k);
    }
  }

  function KeysWith(rows: Table, warehouse: string, payload: string): set<SourceKey> {
    set k | k in rows && rows[k].warehouse == warehouse && rows[k].payload == payload
  }

  function FirstKeys(warehouse: string, payload: string, n: nat): set<SourceKey> {
    if n == 0 then {} else FirstKeys(warehouse, payload, n - 1) + {SourceKey(warehouse, payload, n)}
  }

  lemma {:induction false} FirstKeysSize(warehouse: string, payload: string, n: nat)
    ensures |FirstKeys(warehouse, payload, n)| == n
    ensures forall k :: k in FirstKeys(warehouse, payload, n) <==>
      k.warehouse == warehouse && k.payload == payload && 1 <= k.occurrence <= n
  {
    if n > 0 {
      FirstKeysSize(warehouse, payload, n - 1);
    }
  }

  // The warehouse's rows, counted by payload, are exactly the fetched records.
  lemma RowsAreTheRecords(rows: Table, warehouse: string, records: seq<Record>, token: int, payload: string)
    requires WellKeyed(rows) && FreshToken(rows, token)
    ensures |KeysWith(Replaced(rows, warehouse, records, token), warehouse, payload)| == Count(records, payload)
  {
    hide Replaced, Count;
    var after := Replaced(rows, warehouse, records, token);
    FirstKeysSize(warehouse, payload, Count(records, payload));
    ReplacedWellKeyed(rows, warehouse, records, token);
    forall k ensures k in KeysWith(after, warehouse, payload) <==>
      k in FirstKeys(warehouse, payload, Count(records, payload)) {
      ReplacedAt(rows, warehouse, records, token, k);
    }
    assert KeysWith(after, warehouse, payload) == FirstKeys(warehouse, payload, Count(records, payload));
  }

  // The order of the fetched records does not matter, and a repeated resync only renews the token.
  lemma ReplacedIgnoresOrder(rows: Table, warehouse: string, a: seq<Record>, b: seq<Record>, token: int)
    requires WellKeyed(rows) && FreshToken(rows, token) && forall p :: Count(a, p) == Count(b, p)
    ensures Replaced(rows, warehouse, a, token) == Replaced(rows, warehouse, b, token)
  {
    hide Replaced, Count;
    var first, second := Replaced(rows, warehouse, a, token), Replaced(rows, warehouse, b, token);
    forall k ensures (k in first <==> k in second) && (k in first ==> first[k] == second[k]) {
      ReplacedAt(rows, warehouse, a, token, k);
      ReplacedAt(rows, warehouse, b, token, k);
    }
    assert first == second;
  }

  lemma ResyncKeepsProgress(rows: Table, warehouse: string, records: seq<Record>, t1: int, t2: int, k: SourceKey)
    requires WellKeyed(rows) && FreshToken(rows, t1) && FreshToken(Replaced(rows, warehouse, records, t1), t2)
    ensures var once := Replaced(rows, warehouse, records, t1);
            var twice := Replaced(once, warehouse, records, t2);
            (k in twice <==> k in once)
            && (k in once ==> twice[k] == if k.warehouse == warehouse then once[k].(token := t2) else once[k])
  {
    hide Replaced, Count;
    ReplacedWellKeyed(rows, warehouse, records, t1);
    ReplacedAt(rows, warehouse, records, t1, k);
    ReplacedAt(Replaced(rows, warehouse, records, t1), warehouse, records, t2, k);
  }
}
