/** `BattleSimulation::spawn_pending` and its effect on the tile-occupancy invariant. */
module Spawning {
  import opened Wrappers
  import opened Stores
  import opened BattleWorld
  import opened CallbackQueue
  import opened BattleSimulation

  // ---------------------------------------------------------------- spawning

  /** Lookups `spawn_pending` unwraps: each pending entity's tile and animator exist. */
  ghost predicate SpawnReady(w: World) {
    forall id :: id in w.entities.items && w.entities.items[id].pendingSpawn ==>
      w.entities.items[id].Position() in w.tiles && w.entities.items[id].animatorIndex in w.animators
  }

  /** An entity waiting to spawn is not on the field yet. */
  ghost predicate PendingNotSpawned(w: World) {
    forall id :: id in w.entities.items && w.entities.items[id].pendingSpawn ==> !w.entities.items[id].spawned
  }

  /** The entity once placed on `tile`: it adopts the tile's team and direction
      only where its own are unset. */
  function SpawnedEntity(e: Entity, tile: Tile): (r: Entity)
    ensures !r.pendingSpawn && r.spawned && r.onField
    ensures r.team == (if e.team == Unset then tile.team else e.team)
    ensures r.facing == (if e.facing == NoDirection then tile.direction else e.facing)
    ensures r == e.(pendingSpawn := false, spawned := true, onField := true, team := r.team, facing := r.facing)
  {
    e.(pendingSpawn := false, spawned := true, onField := true,
       team := if e.team == Unset then tile.team else e.team,
       facing := if e.facing == NoDirection then tile.direction else e.facing)
  }

  /** The callbacks spawning `e` queues. */
  function SpawnCallbacks(e: Entity, battleStarted: bool): seq<Callback> {
    [e.spawnCallback] + (if battleStarted then [e.battleStartCallback] else [])
  }

  /** One iteration of `spawn_pending`; a missing tile or animator is the panic of
      `unwrap` or of arena indexing. */
  function SpawnOne(w: World, id: EntityId): (r: Result<World>)
    ensures r.Ok? ==> r.value.entities.order == w.entities.order && r.value.entities.items.Keys == w.entities.items.Keys
    ensures r.Ok? ==> r.value.tiles.Keys == w.tiles.Keys && r.value.animators.Keys == w.animators.Keys
    ensures r.Ok? ==> r.value.battleStarted == w.battleStarted && r.value.fired == w.fired
  {
    if id !in w.entities.items || !w.entities.items[id].pendingSpawn then Ok(w)
    else
      var e := w.entities.items[id];
      if e.Position() !in w.tiles || e.animatorIndex !in w.animators then Err(Panic)
      else
        var tile := w.tiles[e.Position()];
        var animator := w.animators[e.animatorIndex];
        Ok(w.(entities := w.entities.(items := w.entities.items[id := SpawnedEntity(e, tile)]),
              tiles := w.tiles[e.Position() := tile.(entityCount := tile.entityCount + 1)],
              animators := w.animators[e.animatorIndex := animator.(enabled := true)],
              pending := w.pending + SpawnCallbacks(e, w.battleStarted)))
  }

  function SpawnFrom(w: World, ids: seq<EntityId>): (r: Result<World>)
    ensures r.Ok? ==> r.value.entities.order == w.entities.order && r.value.entities.items.Keys == w.entities.items.Keys
    ensures r.Ok? ==> r.value.tiles.Keys == w.tiles.Keys
    decreases |ids|
  {
    if ids == [] then Ok(w)
    else
      var w1 :- SpawnOne(w, ids[0]);
      SpawnFrom(w1, ids[1..])
  }

  /** `spawn_pending`: every pending entity, in iteration order, goes onto its tile. */
  function SpawnPending(w: World): (r: Result<World>)
    ensures r.Ok? ==> r.value.entities.order == w.entities.order && r.value.entities.items.Keys == w.entities.items.Keys
  {
    SpawnFrom(w, w.entities.order)
  }

  /** The position of `id` when it is pending, as a multiset of at most one element. */
  function PendingHere(id: nat, items: map<nat, Entity>): multiset<Pos> {
    if id in items && items[id].pendingSpawn then multiset{items[id].Position()} else multiset{}
  }

  /** The callbacks spawning `id` queues when it is pending. */
  function CallbacksHere(id: nat, items: map<nat, Entity>, battleStarted: bool): seq<Callback> {
    if id in items && items[id].pendingSpawn then SpawnCallbacks(items[id], battleStarted) else []
  }

  /** Positions of the pending entities listed in `ids`. */
  function PendingAt(ids: seq<nat>, items: map<nat, Entity>): multiset<Pos> {
    if ids == [] then multiset{}
    else PendingHere(ids[0], items) + PendingAt(ids[1..], items)
  }

  /** The callbacks spawning the pending entities of `ids` queues, in order. */
  function PendingCallbacks(ids: seq<nat>, items: map<nat, Entity>, battleStarted: bool): seq<Callback> {
    if ids == [] then []
    else CallbacksHere(ids[0], items, battleStarted) + PendingCallbacks(ids[1..], items, battleStarted)
  }

  lemma {:induction false} PendingFrame(ids: seq<nat>, a: map<nat, Entity>, b: map<nat, Entity>, started: bool)
    requires forall k :: k in ids ==> (k in a <==> k in b) && (k in a ==> a[k] == b[k])
    ensures PendingAt(ids, a) == PendingAt(ids, b)
    ensures PendingCallbacks(ids, a, started) == PendingCallbacks(ids, b, started)
  {
    if ids != [] {
      assert ids[0] in ids;
      PendingFrame(ids[1..], a, b, started);
    }
  }

  /** Spawning cannot fail when every pending entity's tile and animator exist. */
  lemma {:induction false} SpawnFromSucceeds(w: World, ids: seq<EntityId>)
    requires SpawnReady(w)
    ensures SpawnFrom(w, ids).Ok?
    decreases |ids|
  {
    if ids != [] {
      var w1 := SpawnOne(w, ids[0]).value;
      assert SpawnReady(w1);
      SpawnFromSucceeds(w1, ids[1..]);
    }
  }

  /** A successful `SpawnFrom` is its first `SpawnOne` followed by the rest. */
  lemma {:induction false} SpawnFirst(w: World, ids: seq<EntityId>) returns (w1: World)
    requires ids != [] && SpawnFrom(w, ids).Ok?
    ensures SpawnOne(w, ids[0]) == Ok(w1) && SpawnFrom(w, ids) == SpawnFrom(w1, ids[1..])
  {
    w1 := SpawnOne(w, ids[0]).value;
  }

  /** One spawn queues the entity's callbacks when it was pending. */
  lemma {:induction false} SpawnOneQueue(w: World, id: EntityId, w1: World)
    requires SpawnOne(w, id) == Ok(w1)
    ensures w1.pending == w.pending + CallbacksHere(id, w.entities.items, w.battleStarted)
  {
  }

  /** One spawn adds the pending entity to its tile's count and changes nothing else of a tile. */
  lemma {:induction false} SpawnOneTiles(w: World, id: EntityId, w1: World)
    requires SpawnOne(w, id) == Ok(w1)
    ensures forall p :: p in w.tiles ==>
      w1.tiles[p] == w.tiles[p].(entityCount := w.tiles[p].entityCount + PendingHere(id, w.entities.items)[p])
  {
  }

  /** One spawn places the pending entity with `SpawnedEntity` and leaves every other entity alone. */
  lemma {:induction false} SpawnOneEntities(w: World, id: EntityId, w1: World)
    requires SpawnOne(w, id) == Ok(w1)
    ensures id in w.entities.items && w.entities.items[id].pendingSpawn ==>
      w.entities.items[id].Position() in w.tiles
      && w1.entities.items == w.entities.items[id := SpawnedEntity(w.entities.items[id], w.tiles[w.entities.items[id].Position()])]
    ensures !(id in w.entities.items && w.entities.items[id].pendingSpawn) ==> w1.entities.items == w.entities.items
    ensures forall p :: p in w.tiles ==> w1.tiles[p].team == w.tiles[p].team && w1.tiles[p].direction == w.tiles[p].direction
  {
  }

  /** Spawned entities are placed with `SpawnedEntity`; every other entity is untouched. */
  lemma {:induction false} SpawnFromEntities(w: World, ids: seq<EntityId>)
    requires NoDup(ids) && SpawnFrom(w, ids).Ok?
    ensures var r := SpawnFrom(w, ids).value;
      && (forall p :: p in w.tiles ==> r.tiles[p].team == w.tiles[p].team && r.tiles[p].direction == w.tiles[p].direction)
      && (forall id :: id in w.entities.items && id in ids && w.entities.items[id].pendingSpawn ==>
            w.entities.items[id].Position() in w.tiles
            && r.entities.items[id] == SpawnedEntity(w.entities.items[id], w.tiles[w.entities.items[id].Position()]))
      && (forall id :: id in w.entities.items && !(id in ids && w.entities.items[id].pendingSpawn) ==>
            r.entities.items[id] == w.entities.items[id])
    decreases |ids|
  {
    if ids != [] {
      var w1 := SpawnFirst(w, ids);
      SpawnOneEntities(w, ids[0], w1);
      NoDupTail(ids);
      SpawnFromEntities(w1, ids[1..]);
    }
  }

  /** Each tile's count grows by the number of pending entities on it; nothing else of it changes. */
  lemma {:induction false} SpawnFromTiles(w: World, ids: seq<EntityId>)
    requires NoDup(ids) && SpawnFrom(w, ids).Ok?
    ensures var r := SpawnFrom(w, ids).value;
      forall p :: p in w.tiles ==>
        r.tiles[p] == w.tiles[p].(entityCount := w.tiles[p].entityCount + PendingAt(ids, w.entities.items)[p])
    decreases |ids|
  {
    if ids != [] {
      var w1 := SpawnFirst(w, ids);
      SpawnOneTiles(w, ids[0], w1);
      SpawnOneEntities(w, ids[0], w1);
      NoDupTail(ids);
      SpawnFromTiles(w1, ids[1..]);
      PendingFrame(ids[1..], w1.entities.items, w.entities.items, w.battleStarted);
    }
  }

  /** The spawn callbacks are queued in iteration order. */
  lemma {:induction false} SpawnFromQueue(w: World, ids: seq<EntityId>)
    requires NoDup(ids) && SpawnFrom(w, ids).Ok?
    ensures SpawnFrom(w, ids).value.pending == w.pending + PendingCallbacks(ids, w.entities.items, w.battleStarted)
    decreases |ids|
  {
    if ids != [] {
      var w1 := SpawnFirst(w, ids);
      SpawnOneQueue(w, ids[0], w1);
      SpawnOneEntities(w, ids[0], w1);
      NoDupTail(ids);
      SpawnFromQueue(w1, ids[1..]);
      PendingFrame(ids[1..], w1.entities.items, w.entities.items, w.battleStarted);
      AppendTrans(w.pending, CallbacksHere(ids[0], w.entities.items, w.battleStarted), w1.pending,
        PendingCallbacks(ids[1..], w.entities.items, w.battleStarted), SpawnFrom(w, ids).value.pending,
        PendingCallbacks(ids, w.entities.items, w.battleStarted));
    }
  }

  /**
   * `spawn_pending` in full: it succeeds when every pending entity's tile and
   * animator exist; each pending entity is placed with `SpawnedEntity` and every
   * other one is untouched; each tile's count grows by the number of pending
   * entities on it; the spawn (and, once the battle started, battle-start)
   * callbacks are queued in iteration order.
   */
  lemma {:induction false} SpawnPendingEffect(w: World)
    requires w.entities.Valid() && SpawnReady(w)
    ensures SpawnPending(w).Ok?
    ensures var r := SpawnPending(w).value;
      && (forall id :: id in w.entities.items ==>
            r.entities.items[id] ==
              (if w.entities.items[id].pendingSpawn
               then SpawnedEntity(w.entities.items[id], w.tiles[w.entities.items[id].Position()])
               else w.entities.items[id]))
      && (forall p :: p in w.tiles ==>
            r.tiles[p].entityCount == w.tiles[p].entityCount + PendingAt(w.entities.order, w.entities.items)[p])
      && r.pending == w.pending + PendingCallbacks(w.entities.order, w.entities.items, w.battleStarted)
  {
    SpawnFromSucceeds(w, w.entities.order);
    SpawnFromEntities(w, w.entities.order);
    SpawnFromTiles(w, w.entities.order);
    SpawnFromQueue(w, w.entities.order);
  }

  lemma {:induction false} SpawnOneKeepsOccupancy(w: World, id: EntityId)
    requires Occupancy(w) && PendingNotSpawned(w) && SpawnOne(w, id).Ok?
    ensures Occupancy(SpawnOne(w, id).value) && PendingNotSpawned(SpawnOne(w, id).value)
  {
    var w1 := SpawnOne(w, id).value;
    SpawnOneEntities(w, id, w1);
    SpawnOneTiles(w, id, w1);
    var order, items := w.entities.order, w.entities.items;
    if id in items && items[id].pendingSpawn {
      var e' := SpawnedEntity(items[id], w.tiles[items[id].Position()]);
      OccupantsSpawnOne(order, items, id, e');
    }
    assert Occupants(order, w1.entities.items) == Occupants(order, items) + PendingHere(id, items);
    CountsGrow(w.tiles, w1.tiles, Occupants(order, items), PendingHere(id, items));
  }

  lemma {:induction false} SpawnFromKeepsOccupancy(w: World, ids: seq<EntityId>)
    requires Occupancy(w) && PendingNotSpawned(w) && SpawnFrom(w, ids).Ok?
    ensures Occupancy(SpawnFrom(w, ids).value) && PendingNotSpawned(SpawnFrom(w, ids).value)
    decreases |ids|
  {
    if ids != [] {
      SpawnOneKeepsOccupancy(w, ids[0]);
      SpawnFromKeepsOccupancy(SpawnOne(w, ids[0]).value, ids[1..]);
    }
  }

  /** `spawn_pending` preserves the occupancy invariant. */
  lemma {:induction false} SpawnPendingKeepsOccupancy(w: World)
    requires Occupancy(w) && PendingNotSpawned(w) && SpawnPending(w).Ok?
    ensures Occupancy(SpawnPending(w).value)
  {
    SpawnFromKeepsOccupancy(w, w.entities.order);
  }
}
