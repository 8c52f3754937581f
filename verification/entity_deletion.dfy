/** `BattleSimulation::delete_entity`: ending the card actions a deleted entity used and running its delete callbacks. */
module EntityDeletion {
  import opened Wrappers
  import opened Stores
  import opened BattleWorld
  import opened CallbackQueue
  import opened BattleSimulation
  import CardActions

  // ---------------------------------------------------------------- deletion

  /**
   * Clears the owner's held action and reverts its animator to the state saved
   * before the action, when the owner is live and holds this very action. A
   * missing animator is the arena-index panic.
   */
  function ReleaseHeldAction(w: World, host: Host, e: Entity, index: nat, action: CardAction): (r: Result<World>)
    requires action.entity in w.entities.items && e == w.entities.items[action.entity]
    ensures r.Ok? ==> r.value.entities.order == w.entities.order
    ensures r.Ok? ==> r.value.entities.items.Keys == w.entities.items.Keys
    ensures r.Ok? ==> r.value.cardActions == w.cardActions && r.value.fired == w.fired
    ensures r.Ok? ==> r.value.animators.Keys == w.animators.Keys
    ensures (e.deleted || e.cardActionIndex != Some(index)) ==> r == Ok(w)
    ensures !e.deleted && e.cardActionIndex == Some(index) ==>
      && (r.Ok? <==> action.prevState.None? || e.animatorIndex in w.animators)
      && (r.Ok? ==> r.value.entities.items == w.entities.items[action.entity := e.(cardActionIndex := None)])
      && (r.Ok? && action.prevState.None? ==> r.value.animators == w.animators && r.value.pending == w.pending)
      && (r.Ok? && action.prevState.Some? ==>
            r.value.animators == w.animators[e.animatorIndex := w.animators[e.animatorIndex].(state := action.prevState.value)]
            && r.value.pending == w.pending + host.stateCallbacks(e.animatorIndex, action.prevState.value))
  {
    if !e.deleted && e.cardActionIndex == Some(index) then
      var w1 := w.(entities := w.entities.(items := w.entities.items[action.entity := e.(cardActionIndex := None)]));
      match action.prevState
      case Some(state) => SetAnimatorState(w1, host, e.animatorIndex, state)
      case None => Ok(w1)
    else Ok(w)
  }

  /** One iteration of `delete_card_actions`; a missing action or owner is the `unwrap` panic. */
  function EndCardAction(w: World, host: Host, index: nat): (r: Result<World>)
    ensures r.Ok? ==> r.value.entities.order == w.entities.order
    ensures r.Ok? ==> r.value.entities.items.Keys == w.entities.items.Keys
    ensures r.Ok? ==> r.value.cardActions.items == w.cardActions.items - {index}
    ensures r.Ok? ==> r.value.animators.Keys <= w.animators.Keys
  {
    if index !in w.cardActions.items then Err(Panic)
    else
      var action := w.cardActions.items[index];
      if action.entity !in w.entities.items then Err(Panic)
      else
        var e := w.entities.items[action.entity];
        var w1 :- ReleaseHeldAction(w, host, e, index, action);
        var w2 := match action.endCallback
          case Some(cb) => Call(w1, host, cb)
          case None => w1;
        var owner := w2.entities.items[action.entity];
        var attachmentAnimators := set a | a in action.attachments :: a.animatorIndex;
        Ok(w2.(entities := w2.entities.(items := w2.entities.items[action.entity := owner.(sprites := owner.sprites - {action.spriteIndex})]),
               animators := w2.animators - attachmentAnimators,
               cardActions := Remove(w2.cardActions, index)))
  }

  /**
   * Ending an action its live owner still holds releases it exactly as
   * completing it synchronously would, for an owner that does not reserve
   * tiles automatically (the only part `complete_sync` adds).
   */
  lemma {:induction false} ReleaseMatchesCompleteSync(w: World, host: Host, index: nat, action: CardAction)
    requires action.entity in w.entities.items
    requires !w.entities.items[action.entity].deleted && w.entities.items[action.entity].cardActionIndex == Some(index)
    requires !w.entities.items[action.entity].autoReservesTiles
    ensures ReleaseHeldAction(w, host, w.entities.items[action.entity], index, action) == CardActions.CompleteSync(w, host, action)
  {
    var e := w.entities.items[action.entity];
    var r := ReleaseHeldAction(w, host, e, index, action);
    var c := CardActions.CompleteSync(w, host, action);
    assert r.Ok? <==> c.Ok?;
    if r.Ok? {
      assert r.value == w.(entities := r.value.entities, animators := r.value.animators, pending := r.value.pending);
      assert c.value.entities.items == r.value.entities.items;
    }
  }

  /**
   * Ending an action held by a live owner: the action leaves the arena, the owner
   * no longer holds an action, and its animator is back in the saved state unless
   * the action's own attachments took that animator with them.
   */
  lemma {:induction false} EndHeldAction(w: World, host: Host, i: nat)
    requires i in w.cardActions.items && w.cardActions.items[i].entity in w.entities.items
    requires var e := w.entities.items[w.cardActions.items[i].entity];
      !e.deleted && e.cardActionIndex == Some(i)
      && (w.cardActions.items[i].prevState.Some? ==> e.animatorIndex in w.animators)
    ensures EndCardAction(w, host, i).Ok?
    ensures var action := w.cardActions.items[i];
      var e := w.entities.items[action.entity];
      var r := EndCardAction(w, host, i).value;
      && i !in r.cardActions.items
      && action.entity in r.entities.items && r.entities.items[action.entity].cardActionIndex.None?
      && (action.prevState.Some? && (forall a :: a in action.attachments ==> a.animatorIndex != e.animatorIndex) ==>
            e.animatorIndex in r.animators && r.animators[e.animatorIndex].state == action.prevState.value)
  {
    var action := w.cardActions.items[i];
    var e := w.entities.items[action.entity];
    var w1 := ReleaseHeldAction(w, host, e, i, action).value;
    assert w1.entities.items[action.entity].cardActionIndex.None?;
  }

  function EndCardActions(w: World, host: Host, indices: seq<nat>): (r: Result<World>)
    ensures r.Ok? ==> r.value.entities.order == w.entities.order
    ensures r.Ok? ==> r.value.entities.items.Keys == w.entities.items.Keys
    decreases |indices|
  {
    if indices == [] then Ok(w)
    else
      var w1 :- EndCardAction(w, host, indices[0]);
      EndCardActions(w1, host, indices[1..])
  }

  /** `delete_card_actions`: ends each action, then flushes the queue once. */
  function DeleteCardActions(w: World, host: Host, indices: seq<nat>): (r: Result<World>)
    ensures r.Ok? ==> r.value.entities.items.Keys == w.entities.items.Keys
  {
    var w1 :- EndCardActions(w, host, indices);
    Ok(CallPendingCallbacks(w1, host))
  }

  /** The end callbacks of the listed actions, in order. */
  function EndCallbacks(indices: seq<nat>, actions: map<nat, CardAction>): seq<Callback> {
    if indices == [] then []
    else
      (if indices[0] in actions && actions[indices[0]].endCallback.Some?
       then [actions[indices[0]].endCallback.value] else [])
      + EndCallbacks(indices[1..], actions)
  }

  lemma {:induction false} EndCallbacksFrame(indices: seq<nat>, a: map<nat, CardAction>, b: map<nat, CardAction>)
    requires forall k :: k in indices ==> (k in a <==> k in b) && (k in a ==> a[k] == b[k])
    ensures EndCallbacks(indices, a) == EndCallbacks(indices, b)
  {
    if indices != [] {
      assert indices[0] in indices;
      EndCallbacksFrame(indices[1..], a, b);
    }
  }

  lemma {:induction false} EndCallbacksOne(i: nat, actions: map<nat, CardAction>)
    ensures EndCallbacks([i], actions) ==
      if i in actions && actions[i].endCallback.Some? then [actions[i].endCallback.value] else []
  {
    assert [i][0] == i && [i][1..] == [];
  }

  /** Splitting the end callbacks of a list at its head, reading the tail from a
      map that agrees with the original on the tail. */
  lemma {:induction false} EndCallbacksSplit(indices: seq<nat>, a: map<nat, CardAction>, b: map<nat, CardAction>)
    requires indices != []
    requires forall k :: k in indices[1..] ==> k in a && k in b && b[k] == a[k]
    ensures EndCallbacks(indices, a) == EndCallbacks([indices[0]], a) + EndCallbacks(indices[1..], b)
  {
    EndCallbacksFrame(indices[1..], b, a);
    EndCallbacksOne(indices[0], a);
  }

  /** `indices` are distinct card actions, all held by `id`, which is already deleted. */
  ghost predicate OwnedByDeleted(w: World, id: EntityId, indices: seq<nat>) {
    && NoDup(indices)
    && id in w.entities.items && w.entities.items[id].deleted
    && forall i :: i in indices ==> i in w.cardActions.items && w.cardActions.items[i].entity == id
  }

  /**
   * What ending `indices` for the deleted entity `id` leaves in `r`: the entity
   * keeps everything but its sprites, no animator is changed or added, exactly
   * the listed actions leave the arena, and their end callbacks have run in order.
   */
  ghost predicate EndedForDeleted(w: World, host: Host, id: EntityId, indices: seq<nat>, r: World)
    requires id in w.entities.items
  {
    && EntityKept(w, id, r)
    && AnimatorsKept(w, r)
    && ActionsGone(w, indices, r)
    && EndsRun(w, host, indices, r)
  }

  ghost predicate EntityKept(w: World, id: EntityId, r: World)
    requires id in w.entities.items
  {
    id in r.entities.items && r.entities.items[id] == w.entities.items[id].(sprites := r.entities.items[id].sprites)
  }

  ghost predicate AnimatorsKept(w: World, r: World) {
    forall a :: a in r.animators ==> a in w.animators && r.animators[a] == w.animators[a]
  }

  ghost predicate ActionsGone(w: World, indices: seq<nat>, r: World) {
    forall i :: i in r.cardActions.items <==> i in w.cardActions.items && i !in indices
  }

  ghost predicate EndsRun(w: World, host: Host, indices: seq<nat>, r: World) {
    && r.fired == w.fired + EndCallbacks(indices, w.cardActions.items)
    && r.pending == w.pending + Enqueued(host, EndCallbacks(indices, w.cardActions.items))
  }

  lemma {:induction false} EndsRunTrans(w: World, w1: World, r: World, host: Host, indices: seq<nat>)
    requires indices != []
    requires EndsRun(w, host, [indices[0]], w1) && EndsRun(w1, host, indices[1..], r)
    requires forall k :: k in indices[1..] ==>
      k in w.cardActions.items && k in w1.cardActions.items && w1.cardActions.items[k] == w.cardActions.items[k]
    ensures EndsRun(w, host, indices, r)
  {
    var ends := EndCallbacks([indices[0]], w.cardActions.items);
    var later := EndCallbacks(indices[1..], w1.cardActions.items);
    EndCallbacksSplit(indices, w.cardActions.items, w1.cardActions.items);
    QueueTrans(host, w.fired, w1.fired, r.fired, w.pending, w1.pending, r.pending, ends, later);
  }

  lemma {:induction false} ActionsGoneTrans(w: World, w1: World, r: World, indices: seq<nat>)
    requires indices != []
    requires ActionsGone(w, [indices[0]], w1) && ActionsGone(w1, indices[1..], r)
    ensures ActionsGone(w, indices, r)
  {
    forall i ensures i in r.cardActions.items <==> i in w.cardActions.items && i !in indices {
      assert i in indices <==> i == indices[0] || i in indices[1..];
    }
  }

  /** Ending one action held by an already deleted entity. */
  lemma {:induction false} EndOneOfDeleted(w: World, host: Host, id: EntityId, i: nat) returns (w1: World)
    requires id in w.entities.items && w.entities.items[id].deleted
    requires i in w.cardActions.items && w.cardActions.items[i].entity == id
    ensures EndCardAction(w, host, i) == Ok(w1)
    ensures EndedForDeleted(w, host, id, [i], w1)
    ensures w1.cardActions.items == w.cardActions.items - {i}
  {
    var action := w.cardActions.items[i];
    var ends := EndCallbacks([i], w.cardActions.items);
    EndCallbacksOne(i, w.cardActions.items);
    assert ReleaseHeldAction(w, host, w.entities.items[id], i, action) == Ok(w);
    if action.endCallback.Some? {
      assert Enqueued(host, ends) == host.enqueues(action.endCallback.value) + Enqueued(host, []);
    }
    w1 := EndCardAction(w, host, i).value;
  }

  /** Ending the first listed action of a deleted entity. */
  lemma {:induction false} EndFirstActionOfDeleted(w: World, host: Host, id: EntityId, indices: seq<nat>) returns (w1: World)
    requires OwnedByDeleted(w, id, indices) && indices != []
    ensures EndCardActions(w, host, indices) == EndCardActions(w1, host, indices[1..])
    ensures OwnedByDeleted(w1, id, indices[1..])
    ensures EndedForDeleted(w, host, id, [indices[0]], w1)
    ensures forall k :: k in indices[1..] ==>
      k in w.cardActions.items && k in w1.cardActions.items && w1.cardActions.items[k] == w.cardActions.items[k]
  {
    var i := indices[0];
    var rest := indices[1..];
    w1 := EndOneOfDeleted(w, host, id, i);
    forall k | k in rest ensures k != i {
      var j :| 0 <= j < |rest| && rest[j] == k;
      assert indices[j + 1] == k;
    }
    NoDupTail(indices);
  }

  /** Ending one action and then the rest is ending them all. */
  lemma {:induction false} EndedForDeletedTrans(w: World, w1: World, r: World, host: Host, id: EntityId, indices: seq<nat>)
    requires indices != [] && id in w.entities.items && id in w1.entities.items
    requires EndedForDeleted(w, host, id, [indices[0]], w1)
    requires EndedForDeleted(w1, host, id, indices[1..], r)
    requires forall k :: k in indices[1..] ==>
      k in w.cardActions.items && k in w1.cardActions.items && w1.cardActions.items[k] == w.cardActions.items[k]
    ensures EndedForDeleted(w, host, id, indices, r)
  {
    EndsRunTrans(w, w1, r, host, indices);
    ActionsGoneTrans(w, w1, r, indices);
  }

  /**
   * Ending actions that all belong to an already deleted entity always
   * succeeds; the entity's held action and the animators it keeps are untouched,
   * exactly the listed actions leave the arena, and their end callbacks run in list order.
   */
  lemma {:induction false} EndActionsOfDeleted(w: World, host: Host, id: EntityId, indices: seq<nat>)
    requires OwnedByDeleted(w, id, indices)
    ensures EndCardActions(w, host, indices).Ok?
    ensures EndedForDeleted(w, host, id, indices, EndCardActions(w, host, indices).value)
    decreases |indices|
  {
    if indices == [] {
      assert EndCallbacks(indices, w.cardActions.items) == [];
    } else {
      var w1 := EndFirstActionOfDeleted(w, host, id, indices);
      EndActionsOfDeleted(w1, host, id, indices[1..]);
      EndedForDeletedTrans(w, w1, EndCardActions(w1, host, indices[1..]).value, host, id, indices);
    }
  }

  /** The card actions of `id` that have been used, in arena order. */
  function UsedActionsOf(w: World, id: EntityId): (r: seq<nat>)
    ensures w.cardActions.Valid() ==> NoDup(r)
    ensures forall i :: i in r <==>
      (i in w.cardActions.order && i in w.cardActions.items
       && w.cardActions.items[i].entity == id && w.cardActions.items[i].used)
  {
    Select(w.cardActions.order, w.cardActions.items, (a: CardAction) => a.entity == id && a.used)
  }

  /** The first step of `delete_entity`: the entity is marked deleted and its queued
      delete callbacks are taken. */
  function MarkDeleted(w: World, id: EntityId): (r: World)
    requires id in w.entities.items
    ensures id in r.entities.items && r.entities.items[id].deleted && r.entities.items[id].deleteCallbacks == []
    ensures r.cardActions == w.cardActions && r.animators == w.animators && r.fired == w.fired && r.pending == w.pending
  {
    w.(entities := w.entities.(items := w.entities.items[id := w.entities.items[id].(deleted := true, deleteCallbacks := [])]))
  }

  /**
   * `delete_entity`: a missing or already deleted entity is left alone; otherwise
   * the entity is marked deleted first, its used card actions are ended, then its
   * queued delete callbacks run, followed by its delete callback.
   */
  function DeleteEntity(w: World, host: Host, id: EntityId): (r: Result<World>)
    ensures (id !in w.entities.items || w.entities.items[id].deleted) ==> r == Ok(w)
  {
    if id !in w.entities.items || w.entities.items[id].deleted then Ok(w)
    else
      var e := w.entities.items[id];
      var w2 :- DeleteCardActions(MarkDeleted(w, id), host, UsedActionsOf(w, id));
      Ok(CallPendingCallbacks(w2.(pending := w2.pending + (e.deleteCallbacks + [e.deleteCallback])), host))
  }

  /** The stages of deleting a live entity: ending its used actions succeeds, and
      the result flushes twice around the delete callbacks. */
  lemma {:induction false} DeleteEntitySteps(w: World, host: Host, id: EntityId) returns (w2: World, r: World)
    requires w.cardActions.Valid() && id in w.entities.items && !w.entities.items[id].deleted
    ensures EndedForDeleted(MarkDeleted(w, id), host, id, UsedActionsOf(w, id), w2)
    ensures w2.fired == w.fired + EndCallbacks(UsedActionsOf(w, id), w.cardActions.items)
    ensures var e := w.entities.items[id];
      var w3 := CallPendingCallbacks(w2, host);
      r == CallPendingCallbacks(w3.(pending := w3.pending + (e.deleteCallbacks + [e.deleteCallback])), host)
    ensures DeleteEntity(w, host, id) == Ok(r)
  {
    var e := w.entities.items[id];
    var w1 := MarkDeleted(w, id);
    EndActionsOfDeleted(w1, host, id, UsedActionsOf(w, id));
    w2 := EndCardActions(w1, host, UsedActionsOf(w, id)).value;
    var w3 := CallPendingCallbacks(w2, host);
    r := CallPendingCallbacks(w3.(pending := w3.pending + (e.deleteCallbacks + [e.deleteCallback])), host);
  }

  /**
   * Deleting a live entity never fails. It ends up deleted with an empty list of
   * delete callbacks and an unchanged held action and animator (the revert is
   * skipped because `deleted` is already set), and its used actions leave the arena.
   */
  lemma {:induction false} DeleteEntityEffect(w: World, host: Host, id: EntityId)
    requires w.cardActions.Valid() && id in w.entities.items && !w.entities.items[id].deleted
    ensures var r := DeleteEntity(w, host, id);
      var e := w.entities.items[id];
      && r.Ok?
      && id in r.value.entities.items
      && r.value.entities.items[id].deleted
      && r.value.entities.items[id].deleteCallbacks == []
      && r.value.entities.items[id].cardActionIndex == e.cardActionIndex
      && (forall a :: a in r.value.animators ==> a in w.animators && r.value.animators[a] == w.animators[a])
      && (forall i :: i in r.value.cardActions.items <==>
            i in w.cardActions.items && !(w.cardActions.items[i].entity == id && w.cardActions.items[i].used))
  {
    var w2, _ := DeleteEntitySteps(w, host, id);
    var indices := UsedActionsOf(w, id);
    forall i ensures i in indices <==> i in w.cardActions.items && w.cardActions.items[i].entity == id && w.cardActions.items[i].used {
      assert i in w.cardActions.items ==> i in w.cardActions.order;
    }
  }

  /** The callback logs of the stages of deleting a live entity, as plain sequences. */
  lemma {:induction false} DeleteEntityLog(w: World, host: Host, id: EntityId)
    returns (r: World, f2: seq<Callback>, p2: seq<Callback>, f3: seq<Callback>, p3: seq<Callback>)
    requires w.cardActions.Valid() && id in w.entities.items && !w.entities.items[id].deleted
    ensures DeleteEntity(w, host, id) == Ok(r)
    ensures f2 == w.fired + EndCallbacks(UsedActionsOf(w, id), w.cardActions.items)
    ensures f3 == f2 + p2
    ensures r.fired == f3 + (p3 + (w.entities.items[id].deleteCallbacks + [w.entities.items[id].deleteCallback]))
  {
    var w2;
    w2, r := DeleteEntitySteps(w, host, id);
    var w3 := CallPendingCallbacks(w2, host);
    f2, p2, f3, p3 := w2.fired, w2.pending, w3.fired, w3.pending;
  }

  /**
   * The callbacks of deleting a live entity, in order: the end callbacks of its
   * used actions come first (after what was already queued), and its queued
   * delete callbacks followed by its delete callback come last.
   */
  lemma {:induction false} DeleteEntityOrder(w: World, host: Host, id: EntityId)
    returns (r: World, ends: seq<Callback>, tail: seq<Callback>)
    requires w.cardActions.Valid() && id in w.entities.items && !w.entities.items[id].deleted
    ensures DeleteEntity(w, host, id) == Ok(r)
    ensures ends == EndCallbacks(UsedActionsOf(w, id), w.cardActions.items)
    ensures tail == w.entities.items[id].deleteCallbacks + [w.entities.items[id].deleteCallback]
    ensures |r.fired| >= |w.fired| + |ends| + |tail|
    ensures r.fired[..|w.fired| + |ends|] == w.fired + ends
    ensures r.fired[|r.fired| - |tail|..] == tail
  {
    var f2, p2, f3, p3;
    r, f2, p2, f3, p3 := DeleteEntityLog(w, host, id);
    ends := EndCallbacks(UsedActionsOf(w, id), w.cardActions.items);
    tail := w.entities.items[id].deleteCallbacks + [w.entities.items[id].deleteCallback];
    TwoFlushes(w.fired, ends, f2, p2, f3, p3, tail, r.fired);
  }
}
