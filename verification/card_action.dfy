/** Card actions: construction, the async test, synchronous completion and
    the attachment of action sprites to animation points. */
module CardActions {
  import opened Wrappers
  import opened BattleWorld
  import opened BattleSimulation

  /** `CardAction::new`: nothing has happened yet. */
  function NewCardAction(entity: EntityId, state: string, spriteIndex: nat): (r: CardAction)
    ensures !r.executed && !r.used && !r.deleted && !r.interrupted
    ensures r.lockout == Animation && r.stepIndex == 0 && r.prevState == None
    ensures r.steps == [] && r.attachments == [] && r.activeFrames == 0
    ensures r.entity == entity && r.state == state && r.spriteIndex == spriteIndex
    ensures r.oldPosition == (0, 0) && r.endCallback == None
    ensures !IsAsync(r)
  {
    CardAction(
      activeFrames := 0, deleted := false, executed := false, used := false, interrupted := false,
      entity := entity, state := state, prevState := None, spriteIndex := spriteIndex,
      steps := [], stepIndex := 0, attachments := [], lockout := Animation,
      oldPosition := (0, 0), endCallback := None)
  }

  predicate IsAsync(a: CardAction) {
    a.lockout.Async?
  }

  /** Whether `complete_sync` reaches its end without an `unwrap` or index panic. */
  predicate CanCompleteSync(w: World, a: CardAction) {
    a.entity in w.entities.items
    && (a.prevState.Some? ==> w.entities.items[a.entity].animatorIndex in w.animators)
    && (w.entities.items[a.entity].autoReservesTiles ==>
          a.oldPosition in w.tiles && w.entities.items[a.entity].Position() in w.tiles)
  }

  /** Moves the entity's reservation from the action's starting tile to its current tile. */
  function MoveReservation(tiles: map<Pos, Tile>, id: EntityId, from: Pos, to: Pos): (r: map<Pos, Tile>)
    requires from in tiles && to in tiles
    ensures r.Keys == tiles.Keys
    ensures id in r[to].reservations
    ensures from != to ==> r[from].reservations == tiles[from].reservations - {id}
    ensures r[to].reservations == tiles[to].reservations + {id}
      || (from == to && r[to].reservations == tiles[to].reservations - {id} + {id})
    ensures forall p :: p in tiles && p != from && p != to ==> r[p] == tiles[p]
    ensures forall p :: p in tiles ==> r[p] == tiles[p].(reservations := r[p].reservations)
  {
    var released := tiles[from := tiles[from].(reservations := tiles[from].reservations - {id})];
    released[to := released[to].(reservations := released[to].reservations + {id})]
  }

  /**
   * `CardAction::complete_sync`: the owner no longer holds an action, its
   * animator returns to the state saved before the action (when one was saved),
   * and an entity that reserves tiles automatically moves its reservation from
   * where the action started to where it stands now.
   */
  function CompleteSync(w: World, host: Host, a: CardAction): (r: Result<World>)
    ensures r.Ok? <==> CanCompleteSync(w, a)
    ensures r.Ok? ==> var e := w.entities.items[a.entity];
      && r.value.entities.items == w.entities.items[a.entity := e.(cardActionIndex := None)]
      && (a.prevState.Some? ==>
            r.value.animators == w.animators[e.animatorIndex := w.animators[e.animatorIndex].(state := a.prevState.value)])
      && (a.prevState.None? ==> r.value.animators == w.animators && r.value.pending == w.pending)
      && (!e.autoReservesTiles ==> r.value.tiles == w.tiles)
      && (e.autoReservesTiles ==> r.value.tiles == MoveReservation(w.tiles, e.id, a.oldPosition, e.Position()))
      && r.value.entities.order == w.entities.order && r.value.fired == w.fired
  {
    if a.entity !in w.entities.items then Err(Panic)
    else
      var e := w.entities.items[a.entity];
      var w1 := w.(entities := w.entities.(items := w.entities.items[a.entity := e.(cardActionIndex := None)]));
      var w2 :- match a.prevState
        case Some(state) => SetAnimatorState(w1, host, e.animatorIndex, state)
        case None => Ok(w1);
      if !e.autoReservesTiles then Ok(w2)
      else if a.oldPosition !in w2.tiles || e.Position() !in w2.tiles then Err(Panic)
      else Ok(w2.(tiles := MoveReservation(w2.tiles, e.id, a.oldPosition, e.Position())))
  }

  /** Completing a synchronous action keeps the occupancy invariant: it moves
      reservations, never entities or tile counts. */
  lemma {:induction false} CompleteSyncKeepsOccupancy(w: World, host: Host, a: CardAction)
    requires Occupancy(w) && CompleteSync(w, host, a).Ok?
    ensures Occupancy(CompleteSync(w, host, a).value)
  {
    var r := CompleteSync(w, host, a).value;
    var e := w.entities.items[a.entity];
    OccupantsFrame(w.entities.order, r.entities.items, w.entities.items);
  }

  /**
   * `CardActionAttachment::apply_animation`: nothing happens when the
   * attachment's sprite is gone; otherwise its animator is enabled and the
   * sprite is shown at the parent's named point, relative to the parent's
   * origin, or hidden when the parent has no such point. A missing animator is
   * the arena-index panic.
   */
  function ApplyAnimation(att: Attachment, sprites: map<nat, SpriteNode>, animators: map<nat, Animator>)
    : (r: Result<(map<nat, SpriteNode>, map<nat, Animator>)>)
    ensures att.spriteIndex !in sprites ==> r == Ok((sprites, animators))
    ensures att.spriteIndex in sprites ==>
      (r.Ok? <==> att.animatorIndex in animators && att.parentAnimatorIndex in animators)
    ensures r.Ok? && att.spriteIndex in sprites ==>
      var (sprites', animators') := r.value;
      var parent := animators[att.parentAnimatorIndex];
      && sprites'.Keys == sprites.Keys
      && (sprites'[att.spriteIndex].visible <==> att.pointName in parent.points)
      && (att.pointName in parent.points ==>
            sprites'[att.spriteIndex].offset ==
              (parent.points[att.pointName].0 - parent.origin.0, parent.points[att.pointName].1 - parent.origin.1))
      && (forall k :: k in sprites && k != att.spriteIndex ==> sprites'[k] == sprites[k])
      && animators' == animators[att.animatorIndex := animators[att.animatorIndex].(enabled := true)]
  {
    if att.spriteIndex !in sprites then Ok((sprites, animators))
    else if att.animatorIndex !in animators || att.parentAnimatorIndex !in animators then Err(Panic)
    else
      var animators': map<nat, Animator> := animators[att.animatorIndex := animators[att.animatorIndex].(enabled := true)];
      var parent := animators'[att.parentAnimatorIndex];
      var node := sprites[att.spriteIndex];
      var node' := if att.pointName in parent.points then
          var point := parent.points[att.pointName];
          node.(offset := (point.0 - parent.origin.0, point.1 - parent.origin.1), visible := true)
        else node.(visible := false);
      Ok((sprites[att.spriteIndex := node'], animators'))
  }

  /** Applying an attachment's animation twice is the same as applying it once. */
  lemma {:induction false} ApplyAnimationIdempotent(att: Attachment, sprites: map<nat, SpriteNode>, animators: map<nat, Animator>)
    requires ApplyAnimation(att, sprites, animators).Ok?
    ensures var (s1, a1) := ApplyAnimation(att, sprites, animators).value;
      ApplyAnimation(att, s1, a1) == Ok((s1, a1))
  {
    var (s1, a1) := ApplyAnimation(att, sprites, animators).value;
    if att.spriteIndex in sprites {
      assert a1[att.animatorIndex].enabled;
      assert a1[att.animatorIndex := a1[att.animatorIndex].(enabled := true)] == a1;
      var parent := a1[att.parentAnimatorIndex];
      assert parent.points == animators[att.parentAnimatorIndex].points;
      assert parent.origin == animators[att.parentAnimatorIndex].origin;
      var node := s1[att.spriteIndex];
      var node' := if att.pointName in parent.points then
          var point := parent.points[att.pointName];
          node.(offset := (point.0 - parent.origin.0, point.1 - parent.origin.1), visible := true)
        else node.(visible := false);
      assert node' == node;
      assert s1[att.spriteIndex := node'] == s1;
    }
  }
}
