/**
 * The battle state that plays form changes: a frame counter, an optional
 * completion frame, the shine artifacts it waits for, and the activated /
 * deactivated flags of the players' forms.
 */
module FormActivation {
  import opened Wrappers
  import opened BattleWorld
  import opened BattleSimulation

  const FADE_TIME: nat := 15

  /** `Player::IDLE_STATE`, the state a player's animator is reset to when its form changes. */
  const IDLE_STATE: string := "PLAYER_IDLE"

  datatype Form = Form(
    activated: bool,
    deactivated: bool,
    activateCallback: Option<Callback>,
    deactivateCallback: Option<Callback>)

  /** A player entity's form data, with the index of the entity's animator. */
  datatype Player = Player(entity: EntityId, animatorIndex: nat, activeForm: Option<nat>, forms: seq<Form>)

  /** The players of the battle, in query order, next to the rest of the world. */
  datatype FormBattle = FormBattle(world: World, players: seq<Player>)

  datatype FormActivateState = FormActivateState(
    time: nat,
    targetCompleteTime: Option<nat>,
    artifactEntities: seq<EntityId>,
    completed: bool)

  /** The state the battle moves on to. */
  datatype NextState = BattleStateNext

  /** The player's selected form exists, so `player.forms[index]` does not panic. */
  predicate Indexed(p: Player) {
    p.activeForm.Some? ==> p.activeForm.value < |p.forms|
  }

  /** Every player's selected form exists. */
  predicate FormsIndexed(players: seq<Player>) {
    forall j :: 0 <= j < |players| ==> Indexed(players[j])
  }

  /** A player whose selected form is not active yet. */
  predicate Pending(p: Player)
    requires Indexed(p)
  {
    p.activeForm.Some? && !p.forms[p.activeForm.value].activated
  }

  function NewFormActivateState(): (r: FormActivateState)
    ensures r.time == 0 && r.targetCompleteTime == None && r.artifactEntities == [] && !r.completed
  {
    FormActivateState(0, None, [], false)
  }

  function Next(st: FormActivateState): (r: Option<NextState>)
    ensures r.Some? <==> st.completed
  {
    if st.completed then Some(BattleStateNext) else None
  }

  /** `has_pending_activations`: the loop returns at the first pending player. */
  function HasPendingActivations(players: seq<Player>): (r: bool)
    requires FormsIndexed(players)
    ensures r <==> exists j :: 0 <= j < |players| && Pending(players[j])
  {
    if players == [] then false
    else if Pending(players[0]) then true
    else
      assert forall j :: 1 <= j < |players| ==> players[j] == players[1..][j - 1];
      HasPendingActivations(players[1..])
  }

  /** `mark_activated` for one player: previously activated forms are marked
      deactivated and the selected form becomes the active one. */
  function MarkPlayer(p: Player): (r: Player)
    requires Indexed(p)
    ensures Indexed(r)
    ensures !Pending(p) ==> r == p
    ensures Pending(p) ==> var i := p.activeForm.value;
      && r.entity == p.entity && r.animatorIndex == p.animatorIndex && r.activeForm == p.activeForm && |r.forms| == |p.forms|
      && r.forms[i].activated && !r.forms[i].deactivated
      && (forall k :: 0 <= k < |p.forms| && k != i ==>
            r.forms[k] == p.forms[k].(deactivated := p.forms[k].deactivated || p.forms[k].activated))
  {
    if !Pending(p) then p
    else
      var i := p.activeForm.value;
      var swept := seq(|p.forms|, k requires 0 <= k < |p.forms| =>
        if p.forms[k].activated then p.forms[k].(deactivated := true) else p.forms[k]);
      p.(forms := swept[i := swept[i].(activated := true, deactivated := false)])
  }

  function MarkActivated(players: seq<Player>): (r: seq<Player>)
    requires FormsIndexed(players)
    ensures |r| == |players| && FormsIndexed(r)
    ensures forall j :: 0 <= j < |players| ==> r[j] == MarkPlayer(players[j])
  {
    seq(|players|, j requires 0 <= j < |players| => MarkPlayer(players[j]))
  }

  /** After `mark_activated` no activation is pending. */
  lemma {:induction false} MarkActivatedClearsPending(players: seq<Player>)
    requires FormsIndexed(players)
    ensures !HasPendingActivations(MarkActivated(players))
  {
    var r := MarkActivated(players);
    forall j | 0 <= j < |r| ensures !Pending(r[j]) {
      assert r[j] == MarkPlayer(players[j]);
    }
  }

  /** The callbacks one player queues in `activate_forms`: those its animator returns when
      set to the idle state, the deactivate callbacks of forms that are active and not yet
      deactivated, then the new form's activate callback. */
  function PlayerCallbacks(p: Player, host: Host): seq<Callback>
    requires Indexed(p) && Pending(p)
  {
    host.stateCallbacks(p.animatorIndex, IDLE_STATE) + DeactivateCallbacks(p.forms) +
      (if p.forms[p.activeForm.value].activateCallback.Some?
       then [p.forms[p.activeForm.value].activateCallback.value] else [])
  }

  /** A form that is active and not yet deactivated, whose deactivate callback is `cb`. */
  predicate DeactivatesWith(f: Form, cb: Callback) {
    f.activated && !f.deactivated && f.deactivateCallback == Some(cb)
  }

  function DeactivateCallbacks(forms: seq<Form>): (r: seq<Callback>)
    ensures forall cb :: cb in r ==> exists k :: 0 <= k < |forms| && DeactivatesWith(forms[k], cb)
    ensures forall k :: 0 <= k < |forms| && DeactivatesWith(forms[k], forms[k].deactivateCallback.GetOr(0)) ==>
      forms[k].deactivateCallback.value in r
    ensures |r| <= |forms|
  {
    if forms == [] then []
    else
      var rest := DeactivateCallbacks(forms[1..]);
      assert forall cb :: cb in rest ==> exists k :: 1 <= k < |forms| && DeactivatesWith(forms[k], cb) by {
        forall cb | cb in rest ensures exists k :: 1 <= k < |forms| && DeactivatesWith(forms[k], cb) {
          var k :| 0 <= k < |forms[1..]| && DeactivatesWith(forms[1..][k], cb);
          assert forms[k + 1] == forms[1..][k];
        }
      }
      assert forall k :: 1 <= k < |forms| ==> forms[k] == forms[1..][k - 1];
      if forms[0].activated && !forms[0].deactivated && forms[0].deactivateCallback.Some?
      then [forms[0].deactivateCallback.value] + rest else rest
  }

  function ActivationCallbacks(players: seq<Player>, host: Host): seq<Callback>
    requires FormsIndexed(players)
  {
    if players == [] then []
    else (if Pending(players[0]) then PlayerCallbacks(players[0], host) else []) + ActivationCallbacks(players[1..], host)
  }

  /** Every pending player's animator exists, so `animators[entity.animator_index]` does not panic. */
  predicate PlayersAnimated(players: seq<Player>, w: World)
    requires FormsIndexed(players)
  {
    forall j :: 0 <= j < |players| && Pending(players[j]) ==> players[j].animatorIndex in w.animators
  }

  /** The animators of the pending players. */
  function IdleIndices(players: seq<Player>): set<nat>
    requires FormsIndexed(players)
  {
    set j | 0 <= j < |players| && Pending(players[j]) :: players[j].animatorIndex
  }

  /** The shine artifacts spawned for the pending players, in order. */
  function Shines(players: seq<Player>, shineFor: EntityId -> EntityId): seq<EntityId>
    requires FormsIndexed(players)
  {
    if players == [] then []
    else (if Pending(players[0]) then [shineFor(players[0].entity)] else []) + Shines(players[1..], shineFor)
  }

  /**
   * `activate_forms`: sets every pending player's animator to the idle state and
   * queues what that returns together with the player's form callbacks, flushes
   * the queue once, then records a shine artifact per pending player. `shineFor`
   * names the entity `create_transformation_shine` makes for a player.
   */
  function ActivateForms(st: FormActivateState, b: FormBattle, host: Host, shineFor: EntityId -> EntityId)
    : (r: (FormActivateState, FormBattle))
    requires FormsIndexed(b.players) && PlayersAnimated(b.players, b.world)
    ensures r.1.players == b.players
    ensures r.1.world.fired == b.world.fired + b.world.pending + ActivationCallbacks(b.players, host)
    ensures r.0 == st.(artifactEntities := st.artifactEntities + Shines(b.players, shineFor))
    ensures r.1.world.animators.Keys == b.world.animators.Keys
    ensures forall j :: 0 <= j < |b.players| && Pending(b.players[j]) ==>
      r.1.world.animators[b.players[j].animatorIndex] == b.world.animators[b.players[j].animatorIndex].(state := IDLE_STATE)
    ensures forall k :: k in b.world.animators && k !in IdleIndices(b.players) ==>
      r.1.world.animators[k] == b.world.animators[k]
    ensures r.1.world.(animators := b.world.animators, fired := b.world.fired, pending := b.world.pending) == b.world
  {
    var idle := IdleIndices(b.players);
    var animators := map k | k in b.world.animators :: if k in idle then b.world.animators[k].(state := IDLE_STATE) else b.world.animators[k];
    var world := CallPendingCallbacks(
      b.world.(animators := animators, pending := b.world.pending + ActivationCallbacks(b.players, host)), host);
    (st.(artifactEntities := st.artifactEntities + Shines(b.players, shineFor)), b.(world := world))
  }

  /** Every artifact still in the world has its animator, so `animators[...]` does not panic. */
  predicate ArtifactsAnimated(ids: seq<EntityId>, w: World) {
    forall id :: id in ids && id in w.entities.items ==> w.entities.items[id].animatorIndex in w.animators
  }

  /** The callbacks the forced animator updates return, artifact by artifact; artifacts
      that have left the world are skipped. */
  function ArtifactUpdates(ids: seq<EntityId>, w: World, host: Host): (r: seq<Callback>)
    ensures (forall id :: id in ids ==> id !in w.entities.items) ==> r == []
    decreases |ids|
  {
    if ids == [] then []
    else
      (if ids[0] in w.entities.items then host.updateCallbacks(w.entities.items[ids[0]].animatorIndex) else [])
      + ArtifactUpdates(ids[1..], w, host)
  }

  /** The updates follow the artifacts' order: a concatenation updates the two parts in turn. */
  lemma {:induction false} ArtifactUpdatesAppend(a: seq<EntityId>, b: seq<EntityId>, w: World, host: Host)
    ensures ArtifactUpdates(a + b, w, host) == ArtifactUpdates(a, w, host) + ArtifactUpdates(b, w, host)
    decreases |a|
  {
    if a == [] {
      assert a + b == b;
    } else {
      assert (a + b)[0] == a[0];
      assert (a + b)[1..] == a[1..] + b;
      ArtifactUpdatesAppend(a[1..], b, w, host);
    }
  }

  /**
   * `detect_animation_end`: the animators of the artifacts still in the world are
   * updated by force and what they return is queued; the queue is flushed once;
   * once every artifact has left the world the state is due to complete one fade
   * later.
   */
  function DetectAnimationEnd(st: FormActivateState, b: FormBattle, host: Host): (r: (FormActivateState, FormBattle))
    requires ArtifactsAnimated(st.artifactEntities, b.world)
    ensures (forall id :: id in st.artifactEntities ==> id !in b.world.entities.items) ==>
      r.0 == st.(targetCompleteTime := Some(st.time + FADE_TIME))
    ensures (exists id :: id in st.artifactEntities && id in b.world.entities.items) ==> r.0 == st
    ensures r.1.players == b.players
    ensures r.1.world.fired == b.world.fired + b.world.pending + ArtifactUpdates(st.artifactEntities, b.world, host)
  {
    var updates := ArtifactUpdates(st.artifactEntities, b.world, host);
    var b1 := b.(world := CallPendingCallbacks(b.world.(pending := b.world.pending + updates), host));
    if forall id :: id in st.artifactEntities ==> id !in b1.world.entities.items
    then (st.(targetCompleteTime := Some(st.time + FADE_TIME)), b1)
    else (st, b1)
  }

  /** `FormActivateState::update` for one frame; the fade and flash colours are not modelled. */
  function Update(st: FormActivateState, b: FormBattle, host: Host, shineFor: EntityId -> EntityId)
    : (r: (FormActivateState, FormBattle))
    requires FormsIndexed(b.players) && PlayersAnimated(b.players, b.world) && ArtifactsAnimated(st.artifactEntities, b.world)
  {
    if st.time == 0 && !HasPendingActivations(b.players) then (st.(completed := true), b)
    else if st.targetCompleteTime == Some(st.time) then
      (st.(completed := true), b.(players := MarkActivated(b.players)))
    else
      var (st1, b1) :=
        if st.targetCompleteTime.None? && st.time == 15 then ActivateForms(st, b, host, shineFor)
        else if st.targetCompleteTime.None? && st.time >= 27 then DetectAnimationEnd(st, b, host)
        else (st, b);
      (st1.(time := st1.time + 1), b1)
  }

  /**
   * One frame of the state: it completes without advancing time when nothing is
   * pending at frame 0 or when the target frame is reached (marking the forms
   * activated then); otherwise time advances by exactly one and the state is
   * not completed by this frame.
   */
  lemma {:induction false} UpdateSteps(st: FormActivateState, b: FormBattle, host: Host, shineFor: EntityId -> EntityId)
    requires FormsIndexed(b.players) && PlayersAnimated(b.players, b.world) && ArtifactsAnimated(st.artifactEntities, b.world)
    ensures var (st', b') := Update(st, b, host, shineFor);
      && (st.time == 0 && !HasPendingActivations(b.players) ==> st' == st.(completed := true) && b' == b)
      && (!(st.time == 0 && !HasPendingActivations(b.players)) && st.targetCompleteTime == Some(st.time) ==>
            st'.completed && st'.time == st.time && b'.players == MarkActivated(b.players))
      && (!(st.time == 0 && !HasPendingActivations(b.players)) && st.targetCompleteTime != Some(st.time) ==>
            st'.time == st.time + 1 && st'.completed == st.completed && b'.players == b.players)
  {
  }

  /** Frame 15 is where the forms' callbacks run and the shines appear; the
      target frame, once set, is exactly one fade after the frame it was set on. */
  lemma {:induction false} ActivationAndTarget(st: FormActivateState, b: FormBattle, host: Host, shineFor: EntityId -> EntityId)
    requires FormsIndexed(b.players) && PlayersAnimated(b.players, b.world) && ArtifactsAnimated(st.artifactEntities, b.world)
    requires HasPendingActivations(b.players) && st.targetCompleteTime.None? && !st.completed
    ensures st.time == 15 ==>
      Update(st, b, host, shineFor).1.world.fired == b.world.fired + b.world.pending + ActivationCallbacks(b.players, host)
    ensures st.time >= 27 && (forall id :: id in st.artifactEntities ==> id !in b.world.entities.items) ==>
      Update(st, b, host, shineFor).0.targetCompleteTime == Some(st.time + FADE_TIME)
    ensures st.time < 27 && st.time != 15 ==> Update(st, b, host, shineFor).1 == b
  {
  }
}
