// Warehouse bindings per shop: saved, checked, activated and paused under two revisions.

module WarehouseBinding {
  import opened Wrappers

  datatype Shop = Shop(platform: string, code: string)
  datatype BindingKey = BindingKey(warehouse: string, shop: Shop)
  datatype Warehouse = Warehouse(enabled: bool, revision: int)
  datatype Binding = Binding(id: string, name: string, enabled: bool, revision: int, verifiedAt: Option<int>)
  // What a readiness check reports: the revisions it read, the id it checked, and the verdict.
  datatype Readiness = Readiness(key: BindingKey, revision: int, warehouseRevision: int, checkedId: string, ready: bool)

  datatype State = State(warehouses: map<string, Warehouse>, shops: map<Shop, bool>, bindings: map<BindingKey, Binding>)

  // A missing binding row reads as an empty one at revision 0.
  function Current(s: State, key: BindingKey): Binding {
    if key in s.bindings then s.bindings[key] else Binding("", "", false, 0, None)
  }

  function WarehouseRevision(s: State, warehouse: string): Option<int> {
    if warehouse in s.warehouses then Some(s.warehouses[warehouse].revision) else None
  }

  // The unique index on (shop, platform warehouse id).
  predicate IdTaken(s: State, key: BindingKey, id: string) {
    && id != ""
    && exists other :: other in s.bindings && other != key && other.shop == key.shop && s.bindings[other].id == id
  }

  // ---- The four operations; None stands for an error and a rollback -----------------------

  function Save(s: State, key: BindingKey, id: string, name: string, revision: int,
      warehouseRevision: int): Option<State> {
    var b := Current(s, key);
    if WarehouseRevision(s, key.warehouse) != Some(warehouseRevision) || key.shop !in s.shops
      || b.revision != revision then None
    else if id == b.id && name == b.name then
      Some(if key in s.bindings then
        s.(bindings := s.bindings[key := b.(enabled := false, revision := b.revision + 1)]) else s)
    else if IdTaken(s, key, id) then None
    else if key in s.bindings then
      Some(s.(bindings := s.bindings[key := Binding(id, name, false, b.revision + 1, None)]))
    else Some(s.(bindings := s.bindings[key := Binding(id, name, false, 1, None)]))
  }

  function Verify(s: State, c: Readiness, now: int): Option<State> {
    if WarehouseRevision(s, c.key.warehouse) != Some(c.warehouseRevision) then None
    else if c.key in s.bindings && s.bindings[c.key].revision == c.revision then
      var b := s.bindings[c.key];
      Some(s.(bindings := s.bindings[c.key :=
        b.(verifiedAt := if c.ready then Some(now) else if b.enabled then b.verifiedAt else None)]))
    else if c.revision != 0 then None else Some(s)
  }

  function Activate(s: State, c: Readiness, now: int): Option<State> {
    if !c.ready || WarehouseRevision(s, c.key.warehouse) != Some(c.warehouseRevision) then None
    else if c.key.shop !in s.shops || !s.shops[c.key.shop] then None
    else if c.key !in s.bindings || s.bindings[c.key].revision != c.revision || s.bindings[c.key].id == "" then None
    else
      var b, w := s.bindings[c.key], s.warehouses[c.key.warehouse];
      Some(s.(bindings := s.bindings[c.key := b.(enabled := true, revision := b.revision + 1, verifiedAt := Some(now))],
              warehouses := s.warehouses[c.key.warehouse := Warehouse(true, w.revision + 1)]))
  }

  function Pause(s: State, warehouse: string, revision: int): Option<State> {
    if WarehouseRevision(s, warehouse) != Some(revision) then None
    else Some(s.(warehouses := s.warehouses[warehouse := Warehouse(false, revision + 1)]))
  }

  // The readiness check reads the revisions and the platform id together.
  function Check(s: State, key: BindingKey, ready: bool): Option<Readiness> {
    if key.warehouse in s.warehouses && key.shop in s.shops then
      Some(Readiness(key, Current(s, key).revision, s.warehouses[key.warehouse].revision, Current(s, key).id,
                     ready && s.shops[key.shop] && Current(s, key).id != ""))
    else None
  }

  class Store {
    var warehouses: map<string, Warehouse>
    var shops: map<Shop, bool>
    var bindings: map<BindingKey, Binding>

    constructor (warehouses: map<string, Warehouse>, shops: map<Shop, bool>, bindings: map<BindingKey, Binding>)
      ensures Value() == State(warehouses, shops, bindings)
    {
      this.warehouses, this.shops, this.bindings := warehouses, shops, bindings;
    }

    function Value(): State
      reads this
    {
      State(warehouses, shops, bindings)
    }

    method SaveWarehouseBinding(key: BindingKey, id: string, name: string, revision: int, warehouseRevision: int)
        returns (ok: bool)
      modifies this
      ensures var after := Save(old(Value()), key, id, name, revision, warehouseRevision);
              ok == after.Some? && Value() == (if ok then after.value else old(Value()))
    {
      if key.warehouse !in warehouses || warehouses[key.warehouse].revision != warehouseRevision {
        return false;
      }
      if key.shop !in shops {
        return false;
      }
      var b := Current(Value(), key);
      if b.revision != revision {
        return false;
      }
      if id == b.id && name == b.name {
        if key in bindings {
          bindings := bindings[key := b.(enabled := false, revision := b.revision + 1)];
        }
      } else {
        var taken := IdTaken(Value(), key, id);
        if taken {
          return false;
        }
        bindings := bindings[key := Binding(id, name, false, if key in bindings then b.revision + 1 else 1, None)];
      }
      return true;
    }

    method SaveWarehouseVerification(c: Readiness, now: int) returns (ok: bool)
      modifies this
      ensures var after := Verify(old(Value()), c, now);
              ok == after.Some? && Value() == (if ok then after.value else old(Value()))
    {
      if c.key.warehouse !in warehouses || warehouses[c.key.warehouse].revision != c.warehouseRevision {
        return false;
      }
      var affected := c.key in bindings && bindings[c.key].revision == c.revision;
      if affected {
        var b := bindings[c.key];
        bindings := bindings[c.key :=
          b.(verifiedAt := if c.ready then Some(now) else if b.enabled then b.verifiedAt else None)];
      }
      return affected || c.revision == 0;
    }

    method PauseFulfillmentWarehouse(warehouse: string, revision: int) returns (ok: bool)
      modifies this
      ensures var after := Pause(old(Value()), warehouse, revision);
              ok == after.Some? && Value() == (if ok then after.value else old(Value()))
    {
      if warehouse !in warehouses || warehouses[warehouse].revision != revision {
        return false;
      }
      warehouses := warehouses[warehouse := Warehouse(false, revision + 1)];
      return true;
    }

    method ActivateWarehouseBinding(c: Readiness, now: int) returns (ok: bool)
      modifies this
      ensures var after := Activate(old(Value()), c, now);
              ok == after.Some? && Value() == (if ok then after.value else old(Value()))
    {
      if !c.ready || c.key.warehouse !in warehouses || warehouses[c.key.warehouse].revision != c.warehouseRevision {
        return false;
      }
      if c.key.shop !in shops || !shops[c.key.shop] {
        return false;
      }
      if c.key !in bindings || bindings[c.key].revision != c.revision || bindings[c.key].id == "" {
        return false;
      }
      bindings := bindings[c.key :=
        bindings[c.key].(enabled := true, revision := c.revision + 1, verifiedAt := Some(now))];
      warehouses := warehouses[c.key.warehouse := Warehouse(true, c.warehouseRevision + 1)];
      return true;
    }
  }

  // ---- Runs -------------------------------------------------------------------------------

  datatype Op =
    | SaveOp(key: BindingKey, id: string, name: string, revision: int, warehouseRevision: int)
    | VerifyOp(c: Readiness, now: int)
    | ActivateOp(c: Readiness, now: int)
    | PauseOp(warehouse: string, revision: int)
    | ShopOp(shop: Shop, shopEnabled: bool)

  function Step(s: State, op: Op): Option<State> {
    match op
    case SaveOp(key, id, name, revision, warehouseRevision) => Save(s, key, id, name, revision, warehouseRevision)
    case VerifyOp(c, now) => Verify(s, c, now)
    case ActivateOp(c, now) => Activate(s, c, now)
    case PauseOp(warehouse, revision) => Pause(s, warehouse, revision)
    case ShopOp(shop, enabled) => Some(s.(shops := s.shops[shop := enabled]))
  }

  function Run(s: State, ops: seq<Op>): State {
    if ops == [] then s else
      var before := Run(s, ops[..|ops| - 1]);
      var after := Step(before, ops[|ops| - 1]);
      if after.Some? then after.value else before
  }

  ghost predicate Sound(s: State) {
    && (forall k :: k in s.bindings ==>
          && 1 <= s.bindings[k].revision
          && (s.bindings[k].enabled ==> s.bindings[k].verifiedAt.Some? && s.bindings[k].id != ""))
    && (forall k, l :: k in s.bindings && l in s.bindings && k != l && k.shop == l.shop && s.bindings[k].id != "" ==>
          s.bindings[k].id != s.bindings[l].id)
  }

  lemma SaveKeepsSound(s: State, key: BindingKey, id: string, name: string, revision: int, warehouseRevision: int)
    requires Sound(s) && Save(s, key, id, name, revision, warehouseRevision).Some?
    ensures Sound(Save(s, key, id, name, revision, warehouseRevision).value)
  {
  }

  lemma StepKeepsSound(s: State, op: Op)
    requires Sound(s) && Step(s, op).Some?
    ensures Sound(Step(s, op).value)
  {
    hide Save;
    if op.SaveOp? {
      SaveKeepsSound(s, op.key, op.id, op.name, op.revision, op.warehouseRevision);
    }
  }

  lemma {:induction false} RunKeepsSound(s: State, ops: seq<Op>)
    requires Sound(s)
    ensures Sound(Run(s, ops))
  {
    hide Sound, Step;
    if ops != [] {
      var n := |ops| - 1;
      RunKeepsSound(s, ops[..n]);
      if Step(Run(s, ops[..n]), ops[n]).Some? {
        StepKeepsSound(Run(s, ops[..n]), ops[n]);
      }
    }
  }

  // In every reachable state an enabled binding is verified and names a platform warehouse of its own.
  lemma EnabledIsVerified(s: State, ops: seq<Op>, k: BindingKey)
    requires Sound(s) && k in Run(s, ops).bindings && Run(s, ops).bindings[k].enabled
    ensures Run(s, ops).bindings[k].verifiedAt.Some? && Run(s, ops).bindings[k].id != ""
    ensures !IdTaken(Run(s, ops), k, Run(s, ops).bindings[k].id)
  {
    RunKeepsSound(s, ops);
  }

  // From one state to a later one: revisions do not fall, and an unchanged revision means an
  // unchanged platform warehouse.
  ghost predicate Later(s: State, t: State) {
    && (forall w :: w in s.warehouses ==> w in t.warehouses && s.warehouses[w].revision <= t.warehouses[w].revision)
    && (forall k :: Current(s, k).revision <= Current(t, k).revision)
    && (forall k :: Current(s, k).revision == Current(t, k).revision ==>
          Current(s, k).id == Current(t, k).id && Current(s, k).name == Current(t, k).name)
  }

  lemma SaveLater(s: State, key: BindingKey, id: string, name: string, revision: int, warehouseRevision: int)
    requires Sound(s) && Save(s, key, id, name, revision, warehouseRevision).Some?
    ensures Later(s, Save(s, key, id, name, revision, warehouseRevision).value)
  {
    hide IdTaken;
  }

  lemma StepLater(s: State, op: Op)
    requires Sound(s) && Step(s, op).Some?
    ensures Later(s, Step(s, op).value)
  {
    hide Save;
    if op.SaveOp? {
      SaveLater(s, op.key, op.id, op.name, op.revision, op.warehouseRevision);
    }
  }

  lemma {:induction false} RunLater(s: State, ops: seq<Op>)
    requires Sound(s)
    ensures Later(s, Run(s, ops))
  {
    hide Sound, Step, Current;
    if ops != [] {
      var n := |ops| - 1;
      RunLater(s, ops[..n]);
      RunKeepsSound(s, ops[..n]);
      if Step(Run(s, ops[..n]), ops[n]).Some? {
        StepLater(Run(s, ops[..n]), ops[n]);
      }
    }
  }

  // Whatever happens between check and activation, the id that goes live is the id that was checked.
  lemma ActivatedIdWasChecked(s: State, key: BindingKey, verdict: bool, ops: seq<Op>, now: int)
    requires Sound(s) && Check(s, key, verdict).Some?
    requires Activate(Run(s, ops), Check(s, key, verdict).value, now).Some?
    ensures var c, after := Check(s, key, verdict).value,
      Activate(Run(s, ops), Check(s, key, verdict).value, now).value;
            && after.bindings[key].enabled && after.bindings[key].id == c.checkedId != ""
            && after.bindings[key].revision > c.revision
              && after.warehouses[key.warehouse].revision > c.warehouseRevision
  {
    hide Sound, Run;
    RunLater(s, ops);
  }

  // The save has an effect: it finds a row, or names something.
  predicate Effective(s: State, key: BindingKey, id: string, name: string) {
    key in s.bindings || id != "" || name != ""
  }

  ghost predicate OnlyOneCommits(s: State, key: BindingKey, id: string, name: string, revision: int,
      warehouseRevision: int)
    requires Save(s, key, id, name, revision, warehouseRevision).Some?
  {
    forall ops: seq<Op>, id2: string, name2: string ::
      Save(Run(Save(s, key, id, name, revision, warehouseRevision).value, ops), key, id2, name2, revision,
        warehouseRevision).None?
  }

  // Of two saves quoting the same revisions at most one commits, exactly unless the first one saves an
  // empty id and name where no binding exists: that commits without writing a row, any number of times.
  lemma SecondSaveConflicts(s: State, key: BindingKey, id: string, name: string, revision: int, warehouseRevision: int)
    requires Sound(s) && Save(s, key, id, name, revision, warehouseRevision).Some?
    ensures OnlyOneCommits(s, key, id, name, revision, warehouseRevision) <==> Effective(s, key, id, name)
  {
    hide Sound, Run;
    var after := Save(s, key, id, name, revision, warehouseRevision).value;
    if Effective(s, key, id, name) {
      assert Sound(after) by { StepKeepsSound(s, SaveOp(key, id, name, revision, warehouseRevision)); }
      assert Current(after, key).revision > revision by { MissingIsZero(s, key); }
      forall ops: seq<Op>, id2: string, name2: string
        ensures Save(Run(after, ops), key, id2, name2, revision, warehouseRevision).None?
      {
        RunLater(after, ops);
      }
    } else {
      assert after == s;
      NothingRun(s);
      assert Save(Run(after, []), key, id, name, revision, warehouseRevision).Some?;
    }
  }

  lemma MissingIsZero(s: State, key: BindingKey)
    ensures key !in s.bindings ==> Current(s, key).revision == 0
  {
  }

  lemma NothingRun(s: State)
    ensures Run(s, []) == s
  {
  }
}
