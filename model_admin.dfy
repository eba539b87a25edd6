/**
  The engine-configuration table and its admin operations: add, update, delete,
  and the transactional activation that makes the target the only active
  configuration. The activation's transaction is one atomic step: the new table
  is computed from a private copy and committed by a single assignment.
*/
module ModelAdmin {
  import opened Common
  import opened Store

  datatype AdminResult =
    | Created(config: ModelConfig)   // 201 with the stored document
    | Ok(config: ModelConfig)        // 200 with the updated document
    | DeletedOk                      // 200 "Model deleted successfully"
    | NotFound                       // 404 "Model not found"
    | ServerError                    // 500: a failed validation or a duplicate name or key

  /** Position of the configuration with the given id, if any. */
  function IndexOf(configs: seq<ModelConfig>, id: ConfigId): (r: Option<nat>)
    ensures r.Some? ==> r.value < |configs| && configs[r.value].id == id
    ensures r.None? ==> forall i :: 0 <= i < |configs| ==> configs[i].id != id
  {
    if |configs| == 0 then None
    else if configs[|configs| - 1].id == id then Some(|configs| - 1)
    else IndexOf(configs[..|configs| - 1], id)
  }

  /** Positions of the active configurations. */
  function ActiveIndices(configs: seq<ModelConfig>): set<nat> {
    set i | 0 <= i < |configs| && configs[i].active
  }

  predicate AtMostOneActive(configs: seq<ModelConfig>) {
    forall i, j :: 0 <= i < |configs| && 0 <= j < |configs| && configs[i].active && configs[j].active ==> i == j
  }

  predicate UniqueIds(configs: seq<ModelConfig>) {
    forall i, j :: 0 <= i < j < |configs| ==> configs[i].id != configs[j].id
  }

  /** Same documents in the same order: only `active` and `updatedAt` may differ. */
  predicate SameDocuments(a: seq<ModelConfig>, b: seq<ModelConfig>) {
    && |a| == |b|
    && forall i :: 0 <= i < |a| ==>
         a[i].id == b[i].id && a[i].name == b[i].name && a[i].key == b[i].key && a[i].description == b[i].description
  }

  // ----- activation -----

  /**
    The table after activating `id` at time `now`: every other active
    configuration is switched off, then the target is switched on; each
    document written gets `updatedAt := now`.
  */
  function Activate(configs: seq<ModelConfig>, id: ConfigId, now: int): seq<ModelConfig> {
    seq(|configs|, i requires 0 <= i < |configs| =>
      if configs[i].id == id then configs[i].(active := true, updatedAt := now)
      else if configs[i].active then configs[i].(active := false, updatedAt := now)
      else configs[i])
  }

  /**
    `activateModel`: inside one transaction, checks that the target exists
    (aborting with 404 otherwise), deactivates every other active configuration
    and activates the target, then commits.
  */
  method ActivateModel(db: Database, id: ConfigId, now: int) returns (r: AdminResult)
    requires db.Valid()
    modifies db`configs
    ensures db.Valid()
    ensures IndexOf(old(db.configs), id).None? ==> r == NotFound && db.configs == old(db.configs)
    ensures IndexOf(old(db.configs), id).Some? ==>
      && db.configs == Activate(old(db.configs), id, now)
      && r == Ok(db.configs[IndexOf(old(db.configs), id).value])
  {
    var target := IndexOf(db.configs, id);
    if target.None? {
      return NotFound;
    }
    var cs := db.configs;
    var i := 0;
    while i < |cs|
      invariant 0 <= i <= |cs| && |cs| == |db.configs|
      invariant forall k :: 0 <= k < i ==>
        (cs[k] == if db.configs[k].id != id && db.configs[k].active
                  then db.configs[k].(active := false, updatedAt := now) else db.configs[k])
      invariant forall k :: i <= k < |cs| ==> cs[k] == db.configs[k]
    {
      if cs[i].id != id && cs[i].active {
        cs := cs[i := cs[i].(active := false, updatedAt := now)];
      }
      i := i + 1;
    }
    var t := target.value;
    cs := cs[t := cs[t].(active := true, updatedAt := now)];
    assert db.Valid() && UniqueIds(db.configs);
    assert cs == Activate(db.configs, id, now) by {
      forall k | 0 <= k < |cs| ensures cs[k] == Activate(db.configs, id, now)[k] {
        if k != t {
          assert db.configs[k].id != id;
        }
      }
    }
    ActivateKeepsDocuments(db.configs, id, now);
    WellFormedKept(db.configs, cs, db.nextConfigId);
    db.configs := cs;
    r := Ok(cs[t]);
  }

  /** Activation touches only the `active` flags (and timestamps): ids, names, keys and descriptions stay. */
  lemma ActivateKeepsDocuments(configs: seq<ModelConfig>, id: ConfigId, now: int)
    ensures SameDocuments(configs, Activate(configs, id, now))
  {
  }

  lemma WellFormedKept(a: seq<ModelConfig>, b: seq<ModelConfig>, nextId: ConfigId)
    requires ConfigsWellFormed(a, nextId) && SameDocuments(a, b)
    ensures ConfigsWellFormed(b, nextId)
  {
  }

  /**
    After activating an existing id, the target and nothing else is active,
    whatever was active before: exactly one configuration is active.
  */
  lemma ActivateLeavesExactlyOne(configs: seq<ModelConfig>, id: ConfigId, now: int)
    requires UniqueIds(configs) && IndexOf(configs, id).Some?
    ensures var r := Activate(configs, id, now);
      && (forall i :: 0 <= i < |r| ==> (r[i].active <==> r[i].id == id))
      && ActiveIndices(r) == {IndexOf(configs, id).value}
      && |ActiveIndices(r)| == 1
      && AtMostOneActive(r)
  {
    var r := Activate(configs, id, now);
    var t := IndexOf(configs, id).value;
    forall i | i in ActiveIndices(r) ensures i == t {
      assert configs[i].id == id;
    }
    assert t in ActiveIndices(r);
  }

  /** Activating the same id twice leaves the table the second call started from, apart from timestamps. */
  lemma ActivateIdempotent(configs: seq<ModelConfig>, id: ConfigId, now1: int, now2: int)
    ensures var once := Activate(configs, id, now1);
      var twice := Activate(once, id, now2);
      && SameDocuments(once, twice)
      && (forall i :: 0 <= i < |once| ==> twice[i].active == once[i].active)
      && (now1 == now2 ==> twice == once)
  {
  }

  // ----- add -----

  /** `name` and `key` are required strings (the empty string fails `required`). */
  predicate Present(s: Option<string>) {
    s.Some? && s.value != ""
  }

  /** Some stored configuration already uses the name or the key (a unique index would reject the write). */
  predicate Clashes(configs: seq<ModelConfig>, name: string, key: string, except: Option<ConfigId>) {
    exists i :: 0 <= i < |configs| && Some(configs[i].id) != except &&
      (configs[i].name == name || configs[i].key == key)
  }

  /**
    `addModel`: stores a new configuration with `active` as supplied (default
    false) and `description` default null, without touching the others. A
    missing name or key, or a name or key already in use, fails with 500.
  */
  method AddModel(db: Database, name: Option<string>, key: Option<string>, description: Option<string>,
                  active: Option<bool>, now: int) returns (r: AdminResult)
    requires db.Valid()
    modifies db`configs, db`nextConfigId
    ensures db.Valid()
    ensures !Present(name) || !Present(key) || Clashes(old(db.configs), name.value, key.value, None) ==>
      r == ServerError && db.configs == old(db.configs) && db.nextConfigId == old(db.nextConfigId)
    ensures Present(name) && Present(key) && !Clashes(old(db.configs), name.value, key.value, None) ==>
      var cfg := ModelConfig(old(db.nextConfigId), name.value, key.value, description,
                             active == Some(true), now);
      && db.configs == old(db.configs) + [cfg]
      && db.nextConfigId == old(db.nextConfigId) + 1
      && r == Created(cfg)
  {
    if !Present(name) || !Present(key) {
      return ServerError;
    }
    var i := 0;
    while i < |db.configs|
      invariant 0 <= i <= |db.configs|
      invariant forall k :: 0 <= k < i ==> db.configs[k].name != name.value && db.configs[k].key != key.value
    {
      if db.configs[i].name == name.value || db.configs[i].key == key.value {
        return ServerError;
      }
      i := i + 1;
    }
    var cfg := ModelConfig(db.nextConfigId, name.value, key.value, description,
                           if active.Some? then active.value else false, now);
    db.configs := db.configs + [cfg];
    db.nextConfigId := db.nextConfigId + 1;
    r := Created(cfg);
  }

  /** `addModel` can break the single-active invariant: adding an active configuration beside an active one. */
  lemma AddCanBreakSingleActive()
    ensures var before := [ModelConfig(0, "a", "ka", None, true, 0)];
      var after := before + [ModelConfig(1, "b", "kb", None, true, 1)];
      AtMostOneActive(before) && !AtMostOneActive(after)
  {
    var before := [ModelConfig(0, "a", "ka", None, true, 0)];
    var after := before + [ModelConfig(1, "b", "kb", None, true, 1)];
    assert after[0].active && after[1].active;
  }

  // ----- update -----

  /**
    Fields present in the request replace the stored ones (absent ones are
    stripped from the update). For `description`, `Some(None)` is an explicit
    JSON `null`, which is stored and so clears the description.
  */
  function Rewrite(c: ModelConfig, name: Option<string>, key: Option<string>, description: Option<Option<string>>,
                   now: int): ModelConfig
  {
    c.(name := if name.Some? then name.value else c.name,
       key := if key.Some? then key.value else c.key,
       description := if description.Some? then description.value else c.description,
       updatedAt := now)
  }

  /**
    `updateModel`: rewrites `name`, `key` and `description` of an existing
    configuration and never its `active` flag; a missing id gives 404, a name or
    key already used by another configuration gives 500 and changes nothing.
  */
  method UpdateModel(db: Database, id: ConfigId, name: Option<string>, key: Option<string>,
                     description: Option<Option<string>>, now: int) returns (r: AdminResult)
    requires db.Valid()
    modifies db`configs
    ensures db.Valid()
    ensures IndexOf(old(db.configs), id).None? ==> r == NotFound && db.configs == old(db.configs)
    ensures IndexOf(old(db.configs), id).Some? ==>
      var t := IndexOf(old(db.configs), id).value;
      var c := Rewrite(old(db.configs)[t], name, key, description, now);
      if Clashes(old(db.configs), c.name, c.key, Some(id)) then
        r == ServerError && db.configs == old(db.configs)
      else
        db.configs == old(db.configs)[t := c] && r == Ok(c)
  {
    var target := IndexOf(db.configs, id);
    if target.None? {
      return NotFound;
    }
    var t := target.value;
    var c := Rewrite(db.configs[t], name, key, description, now);
    var i := 0;
    while i < |db.configs|
      invariant 0 <= i <= |db.configs|
      invariant forall k :: 0 <= k < i && db.configs[k].id != id ==>
        db.configs[k].name != c.name && db.configs[k].key != c.key
    {
      if db.configs[i].id != id && (db.configs[i].name == c.name || db.configs[i].key == c.key) {
        return ServerError;
      }
      i := i + 1;
    }
    ghost var cs := db.configs[t := c];
    assert ConfigsWellFormed(cs, db.nextConfigId) by {
      forall a, b | 0 <= a < b < |cs| ensures cs[a].id != cs[b].id {
        assert db.configs[a].id != db.configs[b].id;
      }
    }
    db.configs := db.configs[t := c];
    r := Ok(c);
  }

  /** An update never changes which configurations are active. */
  lemma UpdateKeepsActive(configs: seq<ModelConfig>, t: nat, name: Option<string>, key: Option<string>,
                          description: Option<Option<string>>, now: int)
    requires t < |configs|
    ensures var r := configs[t := Rewrite(configs[t], name, key, description, now)];
      ActiveIndices(r) == ActiveIndices(configs) && (AtMostOneActive(configs) ==> AtMostOneActive(r))
  {
  }

  // ----- delete -----

  function RemoveAt(configs: seq<ModelConfig>, t: nat): seq<ModelConfig>
    requires t < |configs|
  {
    configs[..t] + configs[t + 1..]
  }

  /** `deleteModel`: removes the configuration with the id; a missing id gives 404 and no change. */
  method DeleteModel(db: Database, id: ConfigId) returns (r: AdminResult)
    requires db.Valid()
    modifies db`configs
    ensures db.Valid()
    ensures IndexOf(old(db.configs), id).None? ==> r == NotFound && db.configs == old(db.configs)
    ensures IndexOf(old(db.configs), id).Some? ==>
      r == DeletedOk && db.configs == RemoveAt(old(db.configs), IndexOf(old(db.configs), id).value)
  {
    var target := IndexOf(db.configs, id);
    if target.None? {
      return NotFound;
    }
    var t := target.value;
    ghost var cs := db.configs;
    assert forall a :: 0 <= a < |RemoveAt(cs, t)| ==> RemoveAt(cs, t)[a] == cs[if a < t then a else a + 1];
    db.configs := RemoveAt(db.configs, t);
    r := DeletedOk;
  }

  /** Deleting keeps "at most one active"; deleting the only active configuration leaves none active. */
  lemma DeleteActive(configs: seq<ModelConfig>, t: nat)
    requires t < |configs|
    ensures AtMostOneActive(configs) ==> AtMostOneActive(RemoveAt(configs, t))
    ensures ActiveIndices(configs) == {t} ==> ActiveIndices(RemoveAt(configs, t)) == {}
  {
    var r := RemoveAt(configs, t);
    assert forall a :: 0 <= a < |r| ==> r[a] == configs[if a < t then a else a + 1];
    if ActiveIndices(configs) == {t} {
      forall a | 0 <= a < |r| ensures !r[a].active {
        var b := if a < t then a else a + 1;
        assert b !in ActiveIndices(configs);
      }
    }
  }
}
