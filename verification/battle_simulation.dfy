/**
 * Bookkeeping of `BattleSimulation`: the pending-callback queue, player spawn
 * layouts, the tile-occupancy invariant, animator state changes and the
 * character movement rule. Spawning, cleanup and deletion live in their own
 * modules.
 *
 * Running a callback is modelled by what can be observed of it: it is logged in
 * `fired` and the callbacks it queues (`Host.enqueues`) are appended to `pending`.
 */
module BattleSimulation {
  import opened Wrappers
  import opened Stores
  import opened BattleWorld
  import opened CallbackQueue

  // ---------------------------------------------------------------- callbacks

  /** `BattleCallback::call`. */
  function Call(w: World, host: Host, cb: Callback): (r: World)
    ensures r.fired == w.fired + [cb]
    ensures r.pending == w.pending + host.enqueues(cb)
    ensures r == w.(fired := r.fired, pending := r.pending)
  {
    w.(fired := w.fired + [cb], pending := w.pending + host.enqueues(cb))
  }

  /** Runs the callbacks one after another. */
  function CallAll(w: World, host: Host, cbs: seq<Callback>): (r: World)
    ensures r.fired == w.fired + cbs
    ensures r.pending == w.pending + Enqueued(host, cbs)
    ensures r == w.(fired := r.fired, pending := r.pending)
    decreases |cbs|
  {
    if cbs == [] then w
    else
      var r := CallAll(Call(w, host, cbs[0]), host, cbs[1..]);
      assert cbs == [cbs[0]] + cbs[1..];
      r
  }

  /** `call_pending_callbacks`: the queue is taken once; whatever the callbacks
      queue while running stays queued. */
  function CallPendingCallbacks(w: World, host: Host): (r: World)
    ensures r.fired == w.fired + w.pending
    ensures r.pending == Enqueued(host, w.pending)
    ensures r == w.(fired := r.fired, pending := r.pending)
  {
    CallAll(w.(pending := []), host, w.pending)
  }

  /** The queue is not drained to a fixpoint: a callback that queues itself runs
      once per flush and is still queued afterwards. */
  lemma {:induction false} FlushIsNotAFixpoint(w: World, host: Host, cb: Callback)
    requires host.enqueues(cb) == [cb]
    requires w.pending == [cb]
    ensures CallPendingCallbacks(w, host).pending == [cb]
    ensures CallPendingCallbacks(CallPendingCallbacks(w, host), host).fired == w.fired + [cb, cb]
  {
  }

  // ---------------------------------------------------------------- layouts

  const DEFAULT_PLAYER_LAYOUTS: seq<seq<Pos>> := [
    [(2, 2), (0, 0), (0, 0), (0, 0)],
    [(2, 2), (5, 2), (0, 0), (0, 0)],
    [(2, 2), (4, 3), (6, 1), (0, 0)],
    [(1, 3), (3, 1), (4, 3), (6, 1)]
  ]

  /** The spawn positions `BattleSimulation::new` chooses; with no player the
      `spawn_count - 1` index underflows, hence the precondition. */
  function SpawnPositions(playerCount: nat): (r: seq<Pos>)
    requires playerCount >= 1
    ensures |r| == Min(playerCount, 4)
    ensures forall i :: 0 <= i < |r| ==> r[i] == DEFAULT_PLAYER_LAYOUTS[|r| - 1][i]
  {
    var n := Min(playerCount, 4);
    DEFAULT_PLAYER_LAYOUTS[n - 1][..n]
  }

  /** Every layout row starts at a distinct non-zero tile for each player it places. */
  lemma {:induction false} SpawnPositionsDistinct(playerCount: nat)
    requires playerCount >= 1
    ensures NoDup(SpawnPositions(playerCount))
    ensures SpawnPositions(1) == [(2, 2)]
    ensures SpawnPositions(playerCount + 4) == SpawnPositions(4)
  {
  }

  // ---------------------------------------------------------------- occupancy

  /** Positions of the spawned entities listed in `order`, counted with multiplicity. */
  function Occupants(order: seq<nat>, items: map<nat, Entity>): multiset<Pos> {
    if order == [] then multiset{}
    else
      var here := if order[0] in items && items[order[0]].spawned
        then multiset{items[order[0]].Position()} else multiset{};
      here + Occupants(order[1..], items)
  }

  /**
   * The occupancy invariant the simulation asserts after every update: each
   * spawned entity stands on a tile of the field and each tile's entity count
   * is the number of spawned entities at its position.
   */
  ghost predicate Occupancy(w: World) {
    w.entities.Valid()
    && SpawnedOnTiles(w.entities.items, w.tiles)
    && CountsMatch(w.tiles, Occupants(w.entities.order, w.entities.items))
  }

  /** Each spawned entity stands on a tile of the field. */
  ghost predicate SpawnedOnTiles(items: map<nat, Entity>, tiles: map<Pos, Tile>) {
    forall id :: id in items && items[id].spawned ==> items[id].Position() in tiles
  }

  /** Each tile's entity count is the multiplicity of its position in `occupants`. */
  ghost predicate CountsMatch(tiles: map<Pos, Tile>, occupants: multiset<Pos>) {
    forall p :: p in tiles ==> tiles[p].entityCount == occupants[p]
  }

  /** Counts that match grow together with the occupants. */
  lemma {:induction false} CountsGrow(tiles: map<Pos, Tile>, tiles1: map<Pos, Tile>, occupants: multiset<Pos>, added: multiset<Pos>)
    requires CountsMatch(tiles, occupants) && tiles1.Keys == tiles.Keys
    requires forall p :: p in tiles ==> tiles1[p].entityCount == tiles[p].entityCount + added[p]
    ensures CountsMatch(tiles1, occupants + added)
  {
  }

  /** Entities that agree on presence, `spawned` and position on `order`. */
  ghost predicate SameOccupancyOn(order: seq<nat>, a: map<nat, Entity>, b: map<nat, Entity>) {
    forall k :: k in order ==>
      (k in a && a[k].spawned) == (k in b && b[k].spawned)
      && (k in a && a[k].spawned ==> a[k].Position() == b[k].Position())
  }

  lemma {:induction false} OccupantsFrame(order: seq<nat>, a: map<nat, Entity>, b: map<nat, Entity>)
    requires SameOccupancyOn(order, a, b)
    ensures Occupants(order, a) == Occupants(order, b)
  {
    if order != [] {
      assert order[0] in order;
      OccupantsFrame(order[1..], a, b);
    }
  }

  /** Marking one listed, unspawned entity as spawned adds exactly its position. */
  lemma {:induction false} OccupantsSpawnOne(order: seq<nat>, items: map<nat, Entity>, id: nat, e: Entity)
    requires NoDup(order) && id in order && id in items
    requires !items[id].spawned && e.spawned && e.Position() == items[id].Position()
    ensures Occupants(order, items[id := e]) == Occupants(order, items) + multiset{e.Position()}
  {
    if order[0] == id {
      assert id !in order[1..] by {
        forall j | 1 <= j < |order| ensures order[j] != id { assert order[0] != order[j]; }
      }
      OccupantsFrame(order[1..], items[id := e], items);
    } else {
      assert id in order[1..] by { assert forall k :: k in order ==> k == order[0] || k in order[1..]; }
      assert NoDup(order[1..]) by {
        forall i, j | 0 <= i < j < |order[1..]| ensures order[1..][i] != order[1..][j] {
          assert order[i + 1] != order[j + 1];
        }
      }
      OccupantsSpawnOne(order[1..], items, id, e);
    }
  }

  // ---------------------------------------------------------------- animators

  /** `BattleAnimator::set_state`: the state changes and the returned callbacks are queued. */
  function SetAnimatorState(w: World, host: Host, index: nat, state: string): (r: Result<World>)
    ensures r.Ok? <==> index in w.animators
    ensures r.Ok? ==> r.value.animators == w.animators[index := w.animators[index].(state := state)]
    ensures r.Ok? ==> r.value.pending == w.pending + host.stateCallbacks(index, state)
    ensures r.Ok? ==> r.value == w.(animators := r.value.animators, pending := r.value.pending)
  {
    if index !in w.animators then Err(Panic)
    else
      Ok(w.(animators := w.animators[index := w.animators[index].(state := state)],
            pending := w.pending + host.stateCallbacks(index, state)))
  }

  // ---------------------------------------------------------------- movement

  /**
   * The movement rule a character gets in `create_character`: the destination must
   * be an in-field non-edge tile, not a hole unless holes are ignored, not reserved
   * by another entity unless tiles are shared, and on the entity's team or `Other`.
   */
  function CanMoveTo(w: World, id: EntityId, dest: Pos): (r: bool)
    requires id in w.entities.items
    ensures r <==>
      dest in w.tiles && !w.tiles[dest].edge
      && (w.entities.items[id].ignoreHoleTiles || !w.tiles[dest].hole)
      && (w.entities.items[id].shareTile || !w.tiles[dest].HasOtherReservations(w.entities.items[id].id))
      && (w.tiles[dest].team == w.entities.items[id].team || w.tiles[dest].team == Other)
  {
    if dest in w.tiles && w.tiles[dest].edge then false
    else if dest !in w.tiles then false
    else
      var tile := w.tiles[dest];
      var entity := w.entities.items[id];
      if !entity.ignoreHoleTiles && tile.hole then false
      else if !entity.shareTile && tile.HasOtherReservations(entity.id) then false
      else tile.team == entity.team || tile.team == Other
  }

  /** Ignoring holes and sharing tiles only widen where an entity may move. */
  lemma {:induction false} CanMoveToMonotone(w: World, id: EntityId, dest: Pos, ignoreHoleTiles: bool, shareTile: bool)
    requires id in w.entities.items
    requires w.entities.items[id].ignoreHoleTiles ==> ignoreHoleTiles
    requires w.entities.items[id].shareTile ==> shareTile
    ensures var e := w.entities.items[id];
      var w' := w.(entities := w.entities.(items := w.entities.items[id := e.(ignoreHoleTiles := ignoreHoleTiles, shareTile := shareTile)]));
      CanMoveTo(w, id, dest) ==> CanMoveTo(w', id, dest)
  {
  }

  /** An entity's own reservation of the destination never blocks it. */
  lemma {:induction false} OwnReservationNeverBlocks(w: World, id: EntityId, dest: Pos)
    requires id in w.entities.items && dest in w.tiles
    ensures var t := w.tiles[dest];
      var w' := w.(tiles := w.tiles[dest := t.(reservations := t.reservations + {w.entities.items[id].id})]);
      CanMoveTo(w', id, dest) == CanMoveTo(w, id, dest)
  {
    var t := w.tiles[dest];
    var own := w.entities.items[id].id;
    assert (t.reservations + {own}) - {own} == t.reservations - {own};
  }
}
