/** `BattleSimulation::cleanup_erased_entities` and its effect on the tile-occupancy invariant. */
module ErasedCleanup {
  import opened Wrappers
  import opened Stores
  import opened BattleWorld
  import opened CallbackQueue
  import opened BattleSimulation

  // ---------------------------------------------------------------- cleanup

  function ErasedIds(w: World): set<EntityId> {
    set id | id in w.entities.items && w.entities.items[id].erased
  }

  /** Positions of the spawned erased entities of `order`. */
  function ErasedOccupants(order: seq<nat>, items: map<nat, Entity>): multiset<Pos> {
    if order == [] then multiset{}
    else
      var here := if order[0] in items && items[order[0]].spawned && items[order[0]].erased
        then multiset{items[order[0]].Position()} else multiset{};
      here + ErasedOccupants(order[1..], items)
  }

  /** Ids of the spawned erased entities standing at `p`. */
  function ErasedAt(w: World, p: Pos): set<EntityId> {
    set id | id in w.entities.items && w.entities.items[id].erased
      && w.entities.items[id].spawned && w.entities.items[id].Position() == p
  }

  /**
   * `cleanup_erased_entities`: every erased entity leaves the world together with
   * its `Living` part, its animator and every component and card action it owns
   * (`despawn` drops every component of the entity); a spawned one also
   * leaves its tile's count and ignored-attacker set. A spawned erased entity off
   * the field is the `unwrap` panic.
   */
  function CleanupErasedEntities(w: World): (r: Result<World>)
    ensures r.Ok? <==> forall id :: (id in w.entities.items && w.entities.items[id].erased
      && w.entities.items[id].spawned) ==> w.entities.items[id].Position() in w.tiles
    ensures r.Ok? && w.StoresValid() ==> r.value.StoresValid()
    ensures r.Ok? ==> forall id :: id in r.value.living <==>
      id in w.living && !(id in w.entities.items && w.entities.items[id].erased)
  {
    if exists id :: (id in w.entities.items && w.entities.items[id].erased
      && w.entities.items[id].spawned && w.entities.items[id].Position() !in w.tiles)
    then Err(Panic)
    else
      var gone := ErasedIds(w);
      var occupants := ErasedOccupants(w.entities.order, w.entities.items);
      var ownedComponents := set i | i in w.components.items && w.components.items[i].entity in gone;
      var ownedActions := set i | i in w.cardActions.items && w.cardActions.items[i].entity in gone;
      var animators := set id | id in gone :: w.entities.items[id].animatorIndex;
      Ok(w.(entities := RemoveAll(w.entities, gone),
            living := map id | id in w.living && id !in gone :: w.living[id],
            tiles := map p | p in w.tiles ::
              w.tiles[p].(entityCount := w.tiles[p].entityCount - occupants[p],
                          ignoredAttackers := w.tiles[p].ignoredAttackers - ErasedAt(w, p)),
            components := RemoveAll(w.components, ownedComponents),
            cardActions := RemoveAll(w.cardActions, ownedActions),
            animators := w.animators - animators))
  }

  /** Cleanup removes exactly the erased entities and what they own. */
  lemma {:induction false} CleanupEffect(w: World)
    requires CleanupErasedEntities(w).Ok?
    ensures var r := CleanupErasedEntities(w).value;
      && (forall id :: id in r.entities.items <==> id in w.entities.items && !w.entities.items[id].erased)
      && (forall id :: id in r.entities.items ==> r.entities.items[id] == w.entities.items[id])
      && (forall i :: i in r.components.items <==>
            i in w.components.items && w.components.items[i].entity !in ErasedIds(w))
      && (forall i :: i in r.cardActions.items <==>
            i in w.cardActions.items && w.cardActions.items[i].entity !in ErasedIds(w))
      && (forall id :: id in w.entities.items && w.entities.items[id].erased ==>
            w.entities.items[id].animatorIndex !in r.animators)
      && (forall p :: p in r.tiles ==> (forall id :: id in ErasedAt(w, p) ==> id !in r.tiles[p].ignoredAttackers))
      && (forall id :: id in r.living <==> id in w.living && id !in ErasedIds(w))
      && (forall id :: id in r.living ==> r.living[id] == w.living[id])
      && r.animators == w.animators - (set id | id in ErasedIds(w) :: w.entities.items[id].animatorIndex)
  {
  }

  lemma {:induction false} OccupantsSplit(order: seq<nat>, items: map<nat, Entity>, gone: set<nat>)
    requires forall k :: k in items ==> (k in gone <==> items[k].erased)
    ensures Occupants(order, items) ==
      Occupants(Without(order, gone), items - gone) + ErasedOccupants(order, items)
  {
    if order != [] {
      var k := order[0];
      var rest := order[1..];
      var kept := items - gone;
      OccupantsSplit(rest, items, gone);
      var hereO := if k in items && items[k].spawned then multiset{items[k].Position()} else multiset{};
      var hereE := if k in items && items[k].spawned && items[k].erased
        then multiset{items[k].Position()} else multiset{};
      assert Occupants(order, items) == hereO + Occupants(rest, items);
      assert ErasedOccupants(order, items) == hereE + ErasedOccupants(rest, items);
      if k in gone {
        assert hereO == hereE;
        assert Without(order, gone) == Without(rest, gone);
      } else {
        var w := Without(rest, gone);
        assert Without(order, gone) == [k] + w;
        assert ([k] + w)[0] == k && ([k] + w)[1..] == w;
        assert hereE == multiset{};
        assert (k in kept && kept[k].spawned) == (k in items && items[k].spawned);
        assert Occupants([k] + w, kept) == hereO + Occupants(w, kept);
      }
    }
  }

  /** Cleanup preserves the occupancy invariant and, under it, cannot fail. */
  lemma {:induction false} CleanupKeepsOccupancy(w: World)
    requires Occupancy(w)
    ensures CleanupErasedEntities(w).Ok?
    ensures Occupancy(CleanupErasedEntities(w).value)
  {
    var gone := ErasedIds(w);
    OccupantsSplit(w.entities.order, w.entities.items, gone);
  }
}
