# Real-PET battle bookkeeping, in Dafny

This project models the deterministic bookkeeping at the heart of the Real-PET
client and of its legacy C++ predecessor. Each module follows one source file:

- **Rollback battle simulation.** Spawning pending entities, the tile occupancy
  invariant, erased-entity cleanup, the pending-callback queue, entity deletion and
  card-action teardown. Also synchronous card-action completion, component
  ejection, attack boxes and the movement rule of characters.
- **Defense rules.** The sorted defense-rule chain with its three update modes,
  the targeted remove, the judge's rule selection and the status filter that
  cannot clear `NO_COUNTER`.
- **Form activation.** The battle state that activates player forms.
- **Animation API.** The animator functions of the Lua animation API.
- **Codecs and tables.** Elements, card classes, inputs, hit flags and block
  package setters.
- **Package dependencies.** The breadth-first package dependency walk of
  `Globals`, with the namespace choices around it.
- **Netplay readiness.** The pre-battle bookkeeping of the netplay
  initialisation scene.
- **Server-list editing.** The server-list edit scene.
- **Legacy C++ engine.** The `.animation` text parser and state switching of
  `Animation`. Support-card filtering, the component ledger and quitting of
  `BattleSceneBase`. The overworld personal menu.

Every arena and the hecs entity world are a `Store`: a map from index to record
plus the iteration order. Generations are abstracted away: a removed index is
simply absent. Script callbacks are opaque tokens. A `Host` parameter says what
a callback queues when it runs and which callbacks an animator state change
returns. Every callback that runs is appended to a log (`fired`), so ordering
claims are claims about that log.

Files: `wrappers.dfy` (Option/Result and sequence facts), `stores.dfy`,
`lua_values.dfy`, `battle_world.dfy`, `hit_props.dfy`, then one file per
modelled source file.

Three behaviours of the code that are easy to misread:
- The callback queue is taken once per flush, not drained until empty
  (`BattleSimulation.FlushIsNotAFixpoint`).
- `delete_entity` marks the entity deleted before ending its card actions, so
  ending them reverts no animation (`EntityDeletion.DeleteEntityEffect`).
- `filter_statuses` walks every rule, not only the non-collision ones
  (`DefenseRules.FilterStatuses`).

## Model

| member | source | states |
|---|---|---|
| DefenseRules.FirstAtLeast | client/src/battle/defense_rule.rs:49-52 | the index found is the first rule whose priority is at least the new one, or there is none |
| DefenseRules.Insert | client/src/battle/defense_rule.rs:42-70 | a `Last` rule is appended; otherwise the chain either grows by exactly the new rule (as a multiset), or keeps its length and has one rule swapped for the new one, and that rule is returned as displaced |
| DefenseRules.InsertKeepsChain | client/src/battle/defense_rule.rs:42-70 | adding to a chain sorted by priority, with each tier held at most once, keeps it so |
| DefenseRules.InsertReplaces | client/src/battle/defense_rule.rs:57-66 | a rule whose tier is already held replaces the first holder in place and displaces exactly it |
| DefenseRules.InsertPlacement | client/src/battle/defense_rule.rs:49-70 | a rule of a fresh tier displaces nothing; the chain becomes the rules before the first greater rule, then the new rule, then the rest, or the new rule is appended when every rule is below it |
| DefenseRules.CallOnReplace | client/src/battle/defense_rule.rs:106-134 | the displaced rule's table is marked replaced and its `on_replace_func` runs; living entities are untouched |
| DefenseRules.Add | client/src/battle/defense_rule.rs:20-73 | an entity without `Living` is left as is; for a living entity the call fails iff the table has no `#priority`, while `#collision_only` is read as a truth value and never fails; only the target entity's chain changes |
| DefenseRules.AddMarksOnlyDisplaced | client/src/battle/defense_rule.rs:57-66 | exactly the displaced rule's table is marked replaced, and only when a rule was displaced |
| DefenseRules.AddSequenceExample | client/src/battle/defense_rule.rs:42-70 | adding tiers 3, 1, 2 to an empty chain gives the order 1, 2, 3 with nothing displaced |
| DefenseRules.ReplaceExample | client/src/battle/defense_rule.rs:57-66 | a second tier-1 rule added to 1, 2, 3 takes the first one's place and displaces it |
| DefenseRules.FirstOwned | client/src/battle/defense_rule.rs:90-93 | the index found is the first rule of the calling VM at the given priority, or there is none |
| DefenseRules.RemoveFrom | client/src/battle/defense_rule.rs:88-101 | the chain is unchanged or loses exactly one rule, the one owned by the VM at that priority |
| DefenseRules.RemoveFromEffect | client/src/battle/defense_rule.rs:88-101 | the first owned rule is removed iff it was made from the given table; the rules before it stay and the ones after it move up |
| DefenseRules.RemoveFromKeepsChain | client/src/battle/defense_rule.rs:88-101 | removing keeps the chain sorted with each tier held at most once |
| DefenseRules.Remove | client/src/battle/defense_rule.rs:75-104 | an entity without `Living` is left as is; a table without `#priority` is an error; only the target's chain changes |
| DefenseRules.AddThenRemove | client/src/battle/defense_rule.rs:20-104 | removing a rule just added for a fresh tier gives the chain back |
| DefenseRules.Consulted | client/src/battle/defense_rule.rs:162-165 | the judge consults exactly the rules whose `collision_only` matches the kind of hit |
| DefenseRules.ConsultedPartition | client/src/battle/defense_rule.rs:162-165 | every rule is consulted for exactly one of the two kinds of hit |
| DefenseRules.ConsultedAppend | client/src/battle/defense_rule.rs:162-165 | the rules are filtered one by one in chain order: consulting a concatenated chain consults the two parts in turn |
| DefenseRules.Judge | client/src/battle/defense_rule.rs:151-195 | the consulted rules' `can_block_func` callbacks run in chain order; living entities are untouched |
| DefenseRules.FilterStatuses | client/src/battle/defense_rule.rs:197-232 | the rules' rewrites are applied in turn, except that `NO_COUNTER` set on entry is set on exit |
| DefenseRules.NoCounterOnlyGrows | client/src/battle/defense_rule.rs:205-231 | `NO_COUNTER` is set on exit iff it was set on entry or some rule set it |
| DefenseRules.NoFilterNoChange | client/src/battle/defense_rule.rs:207-231 | with no rule that filters, the hit properties come out unchanged |
| BattleSimulation.CallAll | client/src/battle/battle_simulation.rs:293-299 | running callbacks logs them in order and queues what each of them enqueues |
| BattleSimulation.CallPendingCallbacks | client/src/battle/battle_simulation.rs:293-299 | the queue taken at the start runs in order; what it enqueues is the new queue |
| BattleSimulation.FlushIsNotAFixpoint | client/src/battle/battle_simulation.rs:293-299 | a callback that queues itself runs once per flush and stays queued |
| BattleSimulation.SpawnPositions | client/src/battle/battle_simulation.rs:49-55 | there are `min(player_count, 4)` spawn positions, taken from that row of the layout table |
| BattleSimulation.SpawnPositionsDistinct | client/src/battle/battle_simulation.rs:15-20 | the chosen spawn positions are distinct; one player starts at (2, 2); counts above 4 behave like 4 |
| BattleSimulation.SetAnimatorState | client/src/battle/battle_simulation.rs:408-412 | the animator's state changes and the callbacks it returns are queued; nothing else changes |
| BattleSimulation.CanMoveTo | client/src/battle/battle_simulation.rs:494-522 | a character may move only to an in-field, non-edge tile that is not a hole (unless holes are ignored), not reserved by another entity (unless tiles are shared), and on its team or `Other` |
| BattleSimulation.CanMoveToMonotone | client/src/battle/battle_simulation.rs:494-522 | ignoring holes and sharing tiles only widen where an entity may move |
| BattleSimulation.OwnReservationNeverBlocks | client/src/battle/battle_simulation.rs:494-522 | an entity's own reservation of the destination never changes whether it may move there |
| Spawning.SpawnedEntity | client/src/battle/battle_simulation.rs:241-257 | a spawned entity is no longer pending, is spawned and on the field, and takes the tile's team or direction only where its own is unset |
| Spawning.SpawnOne | client/src/battle/battle_simulation.rs:236-265 | spawning one entity keeps the set of entities, tiles and animators and runs no callback |
| Spawning.SpawnPending | client/src/battle/battle_simulation.rs:236-265 | spawning keeps the entities and their iteration order |
| Spawning.SpawnFromSucceeds | client/src/battle/battle_simulation.rs:246-255 | spawning cannot fail when every pending entity's tile and animator exist |
| Spawning.SpawnOneQueue | client/src/battle/battle_simulation.rs:259-264 | one spawn queues the spawn callback, plus the battle-start callback only once the battle has started |
| Spawning.SpawnOneTiles | client/src/battle/battle_simulation.rs:246-247 | one spawn adds exactly one to the entity's tile count and changes nothing else of any tile |
| Spawning.SpawnOneEntities | client/src/battle/battle_simulation.rs:237-257 | one spawn updates only the pending entity, as `SpawnedEntity` says |
| Spawning.SpawnFromEntities | client/src/battle/battle_simulation.rs:236-265 | each pending entity is placed as `SpawnedEntity` says, and every other entity is untouched |
| Spawning.SpawnFromTiles | client/src/battle/battle_simulation.rs:246-247 | each tile's count grows by the number of pending entities on it |
| Spawning.SpawnFromQueue | client/src/battle/battle_simulation.rs:259-264 | the queue grows by the spawn callbacks of the pending entities, in iteration order |
| Spawning.SpawnPendingEffect | client/src/battle/battle_simulation.rs:236-265 | with every tile and animator present, `spawn_pending` succeeds; each pending entity is spawned and counted once on its tile; the others are untouched |
| Spawning.SpawnPendingKeepsOccupancy | client/src/battle/battle_simulation.rs:882-900 | `spawn_pending` preserves the debug assertion that each tile's count is the number of spawned entities on it |
| Spawning.SpawnOneKeepsOccupancy | client/src/battle/battle_simulation.rs:882-900 | one spawn preserves the occupancy invariant |
| Spawning.SpawnFromKeepsOccupancy | client/src/battle/battle_simulation.rs:882-900 | spawning a list of entities preserves the occupancy invariant |
| ErasedCleanup.CleanupErasedEntities | client/src/battle/battle_simulation.rs:301-346 | cleanup fails iff a spawned erased entity stands off the field; a valid world stays valid; an erased entity loses its `Living` part and every other entity keeps it |
| ErasedCleanup.CleanupEffect | client/src/battle/battle_simulation.rs:301-346 | exactly the erased entities leave, with their `Living` parts, every component and card action they own and exactly their animators (all other animators stay); each erased spawned entity stops being an ignored attacker on the tile it stands on |
| ErasedCleanup.CleanupKeepsOccupancy | client/src/battle/battle_simulation.rs:882-900 | under the occupancy invariant cleanup succeeds and preserves it: tile counts drop by the erased entities on them |
| EntityDeletion.ReleaseHeldAction | client/src/battle/battle_simulation.rs:405-418 | a deleted owner, or one that holds another action, is left as is; a live holder stops holding the action and, when a state was saved, its animator returns to that state with the callbacks of the change queued; this fails only for a missing animator |
| EntityDeletion.ReleaseMatchesCompleteSync | client/src/battle/battle_simulation.rs:405-418 | for a live holder that does not reserve tiles automatically, releasing the action is exactly `complete_sync` |
| EntityDeletion.EndHeldAction | client/src/battle/battle_simulation.rs:395-439 | ending an action its live owner holds succeeds, removes the action, leaves the owner holding nothing, and reverts its animator unless an attachment of the action took that animator |
| EntityDeletion.EndCardAction | client/src/battle/battle_simulation.rs:395-439 | ending an action removes exactly it from the arena and removes no entity |
| EntityDeletion.EndCardActions | client/src/battle/battle_simulation.rs:395-440 | ending a list of actions keeps the set of entities and their order |
| EntityDeletion.DeleteCardActions | client/src/battle/battle_simulation.rs:389-443 | `delete_card_actions` never removes an entity |
| EntityDeletion.EndActionsOfDeleted | client/src/battle/battle_simulation.rs:395-440 | ending actions of an already deleted entity succeeds; the held action and the kept animators are untouched; exactly those actions leave; their end callbacks run in list order |
| EntityDeletion.UsedActionsOf | client/src/battle/battle_simulation.rs:368-372 | the actions ended are exactly the entity's used actions, each once |
| EntityDeletion.MarkDeleted | client/src/battle/battle_simulation.rs:374-377 | the entity is marked deleted and its queued delete callbacks are taken; actions, animators and the queue are untouched |
| EntityDeletion.DeleteEntity | client/src/battle/battle_simulation.rs:358-366 | a missing or already deleted entity is left alone |
| EntityDeletion.DeleteEntitySteps | client/src/battle/battle_simulation.rs:358-387 | deletion is: mark deleted, end the used actions and flush, queue the delete callbacks, flush |
| EntityDeletion.DeleteEntityEffect | client/src/battle/battle_simulation.rs:358-387 | deleting a live entity succeeds. The entity ends up deleted, keeps its held action and no animator changes, because the revert is skipped. Exactly its used actions leave the arena |
| EntityDeletion.DeleteEntityOrder | client/src/battle/battle_simulation.rs:380-386 | the end callbacks of the used actions run first, and the queued delete callbacks followed by the delete callback run last |
| CardActions.NewCardAction | client/src/battle/card_action.rs:34-60 | a new action is not executed, used, deleted or interrupted; has `Animation` lockout, step 0, no previous state, steps or attachments; is not async |
| CardActions.MoveReservation | client/src/battle/card_action.rs:90-96 | the reservation moves from the old tile to the current tile and no other tile changes |
| CardActions.CompleteSync | client/src/battle/card_action.rs:66-98 | the owner's held action is cleared; the animator is reverted only when a previous state was saved; reservations move only with `auto_reserves_tiles` |
| CardActions.CompleteSyncKeepsOccupancy | client/src/battle/card_action.rs:66-98 | completing an action preserves the occupancy invariant |
| CardActions.ApplyAnimation | client/src/battle/card_action.rs:123-147 | a missing sprite node changes nothing; otherwise the attachment is visible iff the parent animator has the named point |
| CardActions.ApplyAnimationIdempotent | client/src/battle/card_action.rs:123-147 | applying an attachment's animation twice is the same as once |
| ComponentApi.SwapRemove | client/src/lua_api/battle_api/component_api.rs:61 | swap_remove drops the element at the index, moves the last one into its place and keeps every other position |
| ComponentApi.IndexOf | client/src/lua_api/battle_api/component_api.rs:55-59 | the position found is the first one holding the index |
| ComponentApi.Eject | client/src/lua_api/battle_api/component_api.rs:35-65 | an unknown id fails with component-not-found and changes nothing; otherwise the component leaves the arena; the owner's local list changes only for `Local` components; a missing owner is an error after the removal |
| ComponentApi.EjectLocal | client/src/lua_api/battle_api/component_api.rs:48-62 | ejecting a tracked `Local` component succeeds, and the owner's local list loses exactly that index |
| AttackBoxes.NewFrom | client/src/battle/attack_box.rs:15-24 | the box carries the entity's id and team, the given position and the spell's hit properties, and is highlighted iff the spell asks for automatic highlight |
| AttackBoxes.NewFromReadsOnlyIdAndTeam | client/src/battle/attack_box.rs:15-24 | entities that agree on id and team give the same box |
| FormActivation.NewFormActivateState | client/src/battle/states/form_activate_state.rs:82-89 | the state starts at time 0, with no target, no artifacts and not completed |
| FormActivation.Next | client/src/battle/states/form_activate_state.rs:24-30 | the battle moves on iff the state is completed |
| FormActivation.HasPendingActivations | client/src/battle/states/form_activate_state.rs:247-259 | with every selected form index in range, an activation is pending iff some player's selected form is not activated |
| FormActivation.MarkPlayer | client/src/battle/states/form_activate_state.rs:224-244 | a pending player's activated forms become deactivated and the selected form becomes the activated one; other players are unchanged; the selected index stays in range |
| FormActivation.MarkActivated | client/src/battle/states/form_activate_state.rs:224-244 | `mark_activated` treats every player independently |
| FormActivation.MarkActivatedClearsPending | client/src/battle/states/form_activate_state.rs:224-259 | after `mark_activated` no activation is pending |
| FormActivation.DeactivateCallbacks | client/src/battle/states/form_activate_state.rs:127-136 | exactly the deactivate callbacks of forms that are activated and not deactivated are queued |
| FormActivation.ActivateForms | client/src/battle/states/form_activate_state.rs:91-148 | each pending player's animator is set to the idle state, and what that returns, then its deactivate and activate callbacks, are queued player by player and flushed once; other animators and the rest of the world are unchanged; a shine artifact is recorded per pending player |
| FormActivation.DetectAnimationEnd | client/src/battle/states/form_activate_state.rs:193-222 | the forced animator updates of the artifacts still present are queued and the whole queue is flushed once; once every artifact has left the world the target completion time is set one fade (15 frames) ahead; otherwise the state is unchanged |
| FormActivation.ArtifactUpdates | client/src/battle/states/form_activate_state.rs:199-207 | artifacts that have left the world are skipped, so with none present nothing is queued |
| FormActivation.ArtifactUpdatesAppend | client/src/battle/states/form_activate_state.rs:199-207 | the artifacts are updated one by one in order: a concatenated list queues the two parts' callbacks in turn |
| FormActivation.UpdateSteps | client/src/battle/states/form_activate_state.rs:32-78 | `update` completes without advancing time at frame 0 with nothing pending or at the target frame; otherwise time advances by exactly one |
| FormActivation.ActivationAndTarget | client/src/battle/states/form_activate_state.rs:60-78 | frame 15 runs the players' idle-state and form callbacks, and frames before 27 other than 15 change nothing. From frame 27, once the artifacts are gone, the target is one fade ahead |
| AnimationApi.ZeroBased | client/src/lua_api/battle_api/animation_api.rs:127 | script frame numbers are one-based, and 0 is read as the first frame |
| AnimationApi.DeriveFrame | client/src/lua_api/battle_api/animation_api.rs:121-127 | an entry yields a frame iff it has two numbers: its frame converted to zero-based and its duration |
| AnimationApi.DeriveFramesAppend | client/src/lua_api/battle_api/animation_api.rs:121-129 | the conversion works entry by entry and keeps input order |
| AnimationApi.DeriveFramesSingle | client/src/lua_api/battle_api/animation_api.rs:121-127 | a short entry is dropped and a full one becomes one frame |
| AnimationApi.FirstFrameAliases | client/src/lua_api/battle_api/animation_api.rs:127 | frames 0 and 1 both name the first frame |
| AnimationApi.Get | client/src/lua_api/battle_api/animation_api.rs:169-190 | getters fail with animator-not-found on a missing index and read the animator otherwise |
| AnimationApi.Set | client/src/lua_api/battle_api/animation_api.rs:192-215 | setters fail with animator-not-found on a missing index and change only that animator otherwise |
| AnimationApi.Update | client/src/lua_api/battle_api/animation_api.rs:217-249 | updaters fail on a missing index; otherwise the returned callbacks are queued and the queue is flushed |
| AnimationApi.HasState | client/src/lua_api/battle_api/animation_api.rs:105-107 | true iff the animator has the state |
| AnimationApi.HasPoint | client/src/lua_api/battle_api/animation_api.rs:136-138 | true iff the animator has the point |
| AnimationApi.GetPoint | client/src/lua_api/battle_api/animation_api.rs:140-142 | the point's position, or the origin for a missing point |
| AnimationApi.Pause | client/src/lua_api/battle_api/animation_api.rs:96-99 | the animator is disabled |
| AnimationApi.Resume | client/src/lua_api/battle_api/animation_api.rs:100-103 | the animator is enabled |
| AnimationApi.PauseResume | client/src/lua_api/battle_api/animation_api.rs:96-103 | pausing and then resuming an enabled animator restores it |
| AnimationApi.SetState | client/src/lua_api/battle_api/animation_api.rs:113-115 | the state changes and the queue plus the state's callbacks run |
| AnimationApi.OnFrame | client/src/lua_api/battle_api/animation_api.rs:159-166 | the callback is registered for the zero-based frame |
| AnimationApi.DeriveState | client/src/lua_api/battle_api/animation_api.rs:117-134 | the animator receives the converted frames |
| AnimationApi.DeriveMatchesOnFrame | client/src/lua_api/battle_api/animation_api.rs:117-166 | `derive_state` and `on_frame` convert a frame number the same way |
| HitFlags.NamedFlagsAreBits | client/src/bindable/hit_flags.rs:9-25 | each named flag other than `NONE` is a distinct single bit among bits 0 to 15 |
| HitFlags.ListShape | client/src/bindable/hit_flags.rs:27-45 | `LIST` holds 15 distinct flags, all except `PIERCE_GROUND`, and contains `STATUS_LIST` |
| HitFlags.StatusAnimationState | client/src/bindable/hit_flags.rs:47-62 | `CONFUSE` and `BLIND` name themselves, `FREEZE` is sized by height, anything else is empty |
| HitFlags.CombinedFlagsHaveNoState | client/src/bindable/hit_flags.rs:47-62 | a combination of status bits has no animation state |
| HitFlags.FreezeSizeMonotone | client/src/bindable/hit_flags.rs:51-59 | a taller entity never gets a smaller freeze state; the cuts are at 48 and 75 |
| Elements.FromU8 | client/src/bindable/element.rs:4-19 | bytes 0 to 10 decode to the elements in declaration order, and nothing else decodes |
| Elements.WeaknessTable | client/src/bindable/element.rs:22-34 | weakness holds for exactly the eight listed pairs |
| Elements.WeaknessShape | client/src/bindable/element.rs:22-34 | weakness is irreflexive and asymmetric; None, Summon and Plus take no part; each element is weak to at most one |
| Elements.FromLua | client/src/bindable/element.rs:37-61 | non-numbers fail; numbers decode iff their `u8` cast is at most 10 |
| Elements.RoundTrip | client/src/bindable/element.rs:37-70 | decoding what `to_lua` produces gives the element back |
| Elements.DecodeEdges | client/src/bindable/element.rs:44-59 | negatives saturate to `None`, 11 and above fail, and Lua integers are not numbers |
| CardClasses.FromU8 | client/src/bindable/card_class.rs:5-11 | bytes 0 to 3 decode to the classes in declaration order, and nothing else decodes |
| CardClasses.FromLua | client/src/bindable/card_class.rs:13-37 | non-numbers fail; numbers decode iff their `u8` cast is at most 3 |
| CardClasses.RoundTrip | client/src/bindable/card_class.rs:13-46 | decoding what `to_lua` produces gives the class back |
| CardClasses.DecodeOrder | client/src/bindable/card_class.rs:5-36 | 0 to 3 decode to Standard, Mega, Giga, Dark; 4 fails; the default is Standard |
| LuaValues.CastU8 | client/src/bindable/element.rs:55 | the float-to-`u8` cast saturates at 0 and 255 and truncates in between |
| Inputs.FromU8 | client/src/resources/input.rs:5-25 | bytes 0 to 16 decode, and nothing else does |
| Inputs.Discriminants | client/src/resources/input.rs:5-25 | the 17 inputs have discriminants 0 to 16 in declaration order |
| Inputs.RequiredInputsShape | client/src/resources/input.rs:27-39 | the 10 required inputs are distinct and exclude UseCard, Shoot, Special, Sprint, Minimap, AdvanceFrame and RewindFrame |
| Inputs.DecodeAll | client/src/scenes/netplay_init_scene.rs:385 | invalid bytes are dropped and every valid byte's input is kept |
| Inputs.DecodeAllAppend | client/src/scenes/netplay_init_scene.rs:385 | bytes are decoded one by one: a concatenation decodes to the concatenated inputs |
| Inputs.DecodeAllSingle | client/src/scenes/netplay_init_scene.rs:385 | a single byte decodes to its input, or to nothing when it is above 16 |
| Inputs.DecodeAllEncoded | client/src/resources/input.rs:5-25 | encoding a list of inputs byte by byte and decoding it gives the list back |
| Globals.Unresolved | client/src/resources/globals.rs:226-234 | the triplets passed on are those not seen before, each once, and all are now seen |
| Globals.Resolve | client/src/resources/globals.rs:228-241 | only triplets found in the package table contribute, each as its own info |
| Globals.RequirementsOf | client/src/resources/globals.rs:248-253 | a package's requirements are looked up in the package's own namespace |
| Globals.Requirements | client/src/resources/globals.rs:244-253 | the next level looks up exactly the requirements of the infos found so far |
| Globals.NextRound | client/src/resources/globals.rs:244-259 | a round only grows the seen set, and a round that finds anything shrinks what is left to see |
| Globals.Levels | client/src/resources/globals.rs:237-263 | the output starts with the root infos |
| Globals.PackageDependencyLoop | client/src/resources/globals.rs:222-264 | the worklist loop computes the breadth-first levels and stops |
| Globals.LevelsResolveLookups | client/src/resources/globals.rs:237-263 | the output is the roots followed by the infos of every triplet looked up, level by level |
| Globals.LevelLookupsOnce | client/src/resources/globals.rs:226-234 | every triplet is looked up at most once, even when the lookup fails |
| Globals.LevelLookupsRequired | client/src/resources/globals.rs:244-263 | every triplet looked up after the roots is required by some package in the output |
| Globals.LevelsClosed | client/src/resources/globals.rs:244-263 | every requirement of a package in the output has been looked up |
| Globals.DependencyIterSpec | client/src/resources/globals.rs:222-264 | the result is the infos of the triplets looked up, each once: exactly the roots and every requirement of a package in the result |
| Globals.CardNamespace | client/src/resources/globals.rs:200-205 | cards of the local setup use `Local`, others `Remote(index)`, never `Server` |
| Globals.SetupCards | client/src/resources/globals.rs:200-209 | each card of a setup becomes one card triplet in that setup's namespace |
| Globals.CardRoots | client/src/resources/globals.rs:200-209 | the card roots are exactly the cards of every setup in their namespaces |
| Globals.BattleRoots | client/src/resources/globals.rs:194-220 | the roots are the player packages in order, then the cards, then the battle package if any |
| Globals.BattleDependenciesCards | client/src/resources/globals.rs:194-220 | battle dependencies are the dependency walk from those roots, and every card is looked up in its setup's namespace |
| Globals.RemoteNamespaces | client/src/resources/globals.rs:300-317 | exactly the remote namespaces of any package collection, with no duplicates |
| Globals.LoadVirtualPackage | client/src/resources/globals.rs:150-191 | the Character category yields nothing; otherwise the result is the info of the loaded package's id |
| Globals.LoadedInfoResolves | client/src/resources/globals.rs:150-191 | a loaded package's info is the one dependency resolution finds for the loaded triplet, and nothing is found when loading finds nothing |
| NetplayInit.ResolveLocalIndex | client/src/scenes/netplay_init_scene.rs:169-182 | the largest index in `0..=n` that no remote player uses; it always exists |
| NetplayInit.NewScene | client/src/scenes/netplay_init_scene.rs:131-166 | one fresh connection per remote player, seed 0, nothing missing, not failed |
| NetplayInit.EveryPackageList | client/src/scenes/netplay_init_scene.rs:415-419 | true iff every connection has sent its package list |
| NetplayInit.EveryReady | client/src/scenes/netplay_init_scene.rs:395-401 | true iff every connection is ready |
| NetplayInit.EveryMissingList | client/src/scenes/netplay_init_scene.rs:403-407 | true iff every connection has sent its missing list |
| NetplayInit.EveryReadyForPackages | client/src/scenes/netplay_init_scene.rs:409-413 | true iff every connection is ready for packages |
| NetplayInit.ReceivedEveryZip | client/src/scenes/netplay_init_scene.rs:421-423 | true iff nothing is missing and every package list arrived |
| NetplayInit.AllReady | client/src/scenes/netplay_init_scene.rs:395-401 | additionally every connection is ready |
| NetplayInit.FindConnection | client/src/scenes/netplay_init_scene.rs:244-252 | the first connection with the packet's index, or none |
| NetplayInit.AnnounceReady | client/src/scenes/netplay_init_scene.rs:546-557 | the local seed becomes the max of the old seed and the broadcast one |
| NetplayInit.LoadList | client/src/scenes/netplay_init_scene.rs:286-294 | exactly the listed packages absent on the server or with a different hash are loaded |
| NetplayInit.LoadListNeeded | client/src/scenes/netplay_init_scene.rs:286-294 | a hash is in the load list iff some listed package needs it |
| NetplayInit.TrackLoads | client/src/scenes/netplay_init_scene.rs:296-298 | each loaded hash maps to its category; the last listing of a hash wins; other entries are kept |
| NetplayInit.OnPackageList | client/src/scenes/netplay_init_scene.rs:280-327 | the list is recorded as received; only untracked hashes become missing; a missing-package request is sent back |
| NetplayInit.PackageListRequestsUntracked | client/src/scenes/netplay_init_scene.rs:300-309 | a hash is requested iff it is needed and not already tracked, and after the list it is missing iff it was missing before or is needed |
| NetplayInit.OnMissingPackages | client/src/scenes/netplay_init_scene.rs:328-342 | the request is recorded only when the local player is the recipient |
| NetplayInit.ClearRequests | client/src/scenes/netplay_init_scene.rs:497-523 | sharing takes every connection's request |
| NetplayInit.RequestedUnion | client/src/scenes/netplay_init_scene.rs:495-499 | the broadcast set is exactly the union of every request |
| NetplayInit.ZipsFor | client/src/scenes/netplay_init_scene.rs:517-542 | every requested hash is sent to the connection that asked for it |
| NetplayInit.SharePackages | client/src/scenes/netplay_init_scene.rs:490-544 | fallback mode broadcasts the union of requests; direct mode sends each connection its own and fails on a connection without a request |
| NetplayInit.OnReadyForPackages | client/src/scenes/netplay_init_scene.rs:343-349 | the connection is marked ready for packages and sharing starts once all are |
| NetplayInit.Unload | client/src/scenes/netplay_init_scene.rs:362-367 | every connection that was waiting for the hash loads it in its own remote namespace and forgets it |
| NetplayInit.OnPackageZip | client/src/scenes/netplay_init_scene.rs:350-376 | a tracked zip leaves the missing set; an untracked one fails the scene in direct mode and is ignored in fallback mode |
| NetplayInit.LastZipAnnouncesReady | client/src/scenes/netplay_init_scene.rs:369-371 | the last missing zip announces ready and raises the seed |
| NetplayInit.OnPlayerSetup | client/src/scenes/netplay_init_scene.rs:269-279 | only the sender's player package and cards change |
| NetplayInit.OnReady | client/src/scenes/netplay_init_scene.rs:377-381 | the seed becomes the max of the old and incoming seed, and the sender is ready |
| NetplayInit.OnInput | client/src/scenes/netplay_init_scene.rs:382-388 | the decoded inputs are appended to the back of the sender's buffer |
| NetplayInit.HandlePacket | client/src/scenes/netplay_init_scene.rs:241-393 | packets from unknown indices are ignored; a missing list for another recipient is ignored |
| NetplayInit.HandledByFirst | client/src/scenes/netplay_init_scene.rs:244-252 | a packet is handled by the first connection with its index; ready, input and disconnect act as their handlers say |
| BlockPackages.DefaultPackage | client/src/packages/block_package.rs:7-15 | the default package has only its info and base path set, and an empty shape |
| BlockPackages.ShapeOf | client/src/packages/block_package.rs:88-97 | the shape takes the first 25 values, padded with false |
| BlockPackages.ColorOf | client/src/packages/block_package.rs:77-82 | a byte (a `u8`, below 256) that names a colour gives that colour; any other byte gives the default colour |
| BlockPackages.Apply | client/src/packages/block_package.rs:50-102 | each setter changes only its own field; the description is the base path followed by the given path; `set_mutator` does nothing |
| BlockPackages.ApplyAll | client/src/packages/block_package.rs:44-107 | the setters never change the category, namespace, requirements, base path or program flag |
| BlockPackages.LoadNew | client/src/packages/block_package.rs:26-114 | a script without `package_init` yields the default package |
| BlockPackages.SettersCommute | client/src/packages/block_package.rs:50-99 | setters of different fields commute |
| BlockPackages.LastShapeDecides | client/src/packages/block_package.rs:86-99 | the last `set_shape` call decides the shape |
| ServerEdit.NewEditScene | client/src/scenes/server_edit_scene.rs:39-45 | an edit starts from the listed entry, failing past the end; an insertion starts from "New Server" at "localhost:8765" |
| ServerEdit.InsertIndex | client/src/scenes/server_edit_scene.rs:233-234 | the insertion point is right after the given index, or the end of the list |
| ServerEdit.SaveTo | client/src/scenes/server_edit_scene.rs:228-240 | an edit replaces only its entry and keeps the length. An insertion grows the list by one, keeping the earlier entries and shifting the later ones |
| ServerEdit.InsertThenDrop | client/src/scenes/server_edit_scene.rs:232-239 | dropping the inserted entry gives the list back |
| ServerEdit.EditThenRestore | client/src/scenes/server_edit_scene.rs:229-231 | saving the old entry back restores the list |
| ServerEdit.HandleMessage | client/src/scenes/server_edit_scene.rs:220-247 | name and address edits change only their own field; Cancel leaves; Save writes the list and leaves |
| ServerEdit.Update | client/src/scenes/server_edit_scene.rs:211-247 | nothing happens during a transition; at most one message is handled per update; the list is written only by a Save |
| AnimationFile.Find | BattleNetwork/bnAnimation.cpp:219 | the position found is the first occurrence of the key, or there is none |
| AnimationFile.ValueOf | BattleNetwork/bnAnimation.cpp:218-223 | the value is the text from two characters after the key up to the next quote. A start past the end is out of range; a missing key starts reading as if the key were at -1 |
| AnimationFile.ValueOfRoundTrip | BattleNetwork/bnAnimation.cpp:218-223 | `key="value"` reads back as the value |
| AnimationFile.ToUpper | BattleNetwork/bnAnimation.cpp:104 | each character is upper-cased on its own, and the length is kept |
| AnimationFile.Lines | BattleNetwork/bnAnimation.cpp:73-84 | there is at least one line and no line holds a newline |
| AnimationFile.LinesJoin | BattleNetwork/bnAnimation.cpp:73-84 | joining the lines gives the data back, up to a final newline |
| AnimationFile.Classify | BattleNetwork/bnAnimation.cpp:87-207 | a line is handled by the first keyword it contains, in the order VERSION, imagePath, animation, blank, frame, point |
| AnimationFile.Insert | BattleNetwork/bnAnimation.cpp:106 | inserting a state that is already stored keeps the first definition |
| AnimationFile.AddFrame | BattleNetwork/bnAnimation.cpp:129 | a frame goes to the newest list; before any animation line it is out of range |
| AnimationFile.BlankFrame | BattleNetwork/bnAnimation.cpp:123-130 | a blank frame has a non-negative duration and an empty rectangle |
| AnimationFile.ParseFrame | BattleNetwork/bnAnimation.cpp:131-195 | legacy files give legacy frames at the last width and height; other files set the width and height from the frame |
| AnimationFile.OpenState | BattleNetwork/bnAnimation.cpp:99-122 | an animation line stores the previous state under its upper-case name and opens an empty frame list |
| AnimationFile.AddPoint | BattleNetwork/bnAnimation.cpp:196-207 | a point is stored in the newest list under its upper-case label |
| AnimationFile.Step | BattleNetwork/bnAnimation.cpp:87-207 | only animation lines open a list or store a state |
| AnimationFile.Finish | BattleNetwork/bnAnimation.cpp:211-215 | the final state is stored iff an animation line was seen |
| AnimationFile.RunEffect | BattleNetwork/bnAnimation.cpp:75-209 | one list per animation line; existing states are kept and new names are upper case; no animation line stores nothing |
| AnimationFile.LoadWithDataEffect | BattleNetwork/bnAnimation.cpp:62-216 | loading keeps states already present and adds only upper-case names; a file without animation lines adds nothing |
| LegacyAnimation.GetStateDuration | BattleNetwork/bnAnimation.cpp:388-397 | a state not loaded lasts 0; one with no negative frame lasts at least 0 |
| LegacyAnimation.HandleInterrupted | BattleNetwork/bnAnimation.cpp:225-236 | a set interrupt callback fires once and is cleared iff the progress is short of the state's duration, and otherwise stays set; the lookup adds an empty list for a missing state |
| LegacyAnimation.SetAnimation | BattleNetwork/bnAnimation.cpp:309-332 | the upper-cased name becomes current whether or not it is loaded; `noAnim` is set iff it is not; progress and callbacks are reset |
| LegacyAnimation.SetAnimationIgnoresCase | BattleNetwork/bnAnimation.cpp:309-332 | names differing only in case select the same state |
| LegacyAnimation.SetLoadedAnimation | BattleNetwork/bnAnimation.cpp:309-332 | a loaded state plays with the duration stored for its upper-case name |
| LegacyAnimation.SetFrame | BattleNetwork/bnAnimation.cpp:288-307 | no path or unknown state changes nothing; an out-of-range frame shows the last frame with progress 0; otherwise the progress is the time spent in the earlier frames |
| LegacyAnimation.SetFrameWithinDuration | BattleNetwork/bnAnimation.cpp:288-307 | after `SetFrame` the progress lies within the state's duration |
| BattleSceneBase.Buff | BattleNetwork/battlescene/bnBattleSceneBase.cpp:367-371 | only `Atk` names buff, by the number after their fourth character; the bare name `Atk` is out of range |
| BattleSceneBase.StepCard | BattleNetwork/battlescene/bnBattleSceneBase.cpp:357-381 | every booster after the first card is dropped; it adds its buff to the last kept card, and fails iff the buff is out of range, only when that card is not a booster; every other card is appended |
| BattleSceneBase.FilterKeeps | BattleNetwork/battlescene/bnBattleSceneBase.cpp:356-384 | the result holds the first card and every non-booster, in order; its last card is a booster iff all cards are |
| BattleSceneBase.FilterFails | BattleNetwork/battlescene/bnBattleSceneBase.cpp:356-384 | filtering fails iff some booster that follows a kept non-booster is named `Atk` |
| BattleSceneBase.FilterSupportCardsAsWritten | BattleNetwork/battlescene/bnBattleSceneBase.cpp:349-385 | as written, the kept cards come out with their input damage |
| BattleSceneBase.FilterSupportCards | BattleNetwork/battlescene/bnBattleSceneBase.cpp:349-385 | with the buff applied to the kept card, the same cards are kept in order |
| BattleSceneBase.BoosterBuffsLastCard | BattleNetwork/battlescene/bnBattleSceneBase.cpp:360-376 | with the buff applied, a booster adds its buff to the last kept card |
| BattleSceneBase.AtkBuffLost | BattleNetwork/battlescene/bnBattleSceneBase.cpp:373-384 | on a 40-damage card followed by `Atk+10`, the code as written yields 40 and the intended version 50 |
| BattleSceneBase.Inject | BattleNetwork/battlescene/bnBattleSceneBase.cpp:826-835 | an injected component is listed, and so is its scene node if it has one |
| BattleSceneBase.Eject | BattleNetwork/battlescene/bnBattleSceneBase.cpp:837-861 | an unknown id changes nothing; otherwise the list loses exactly the first component with the id, the node list loses exactly that component's node when it is a node, and nothing else changes |
| BattleSceneBase.InjectThenEject | BattleNetwork/battlescene/bnBattleSceneBase.cpp:826-861 | ejecting a freshly injected component with a new id undoes the injection |
| BattleSceneBase.InjectNewest | BattleNetwork/battlescene/bnBattleSceneBase.cpp:891-901 | the components injected are the leading ones newer than the ledger, skipping null slots and `Local` ones |
| BattleSceneBase.ProcessEntity | BattleNetwork/battlescene/bnBattleSceneBase.cpp:883-904 | an entity whose first component is newer than its ledger injects the newest components and moves its ledger to that id; otherwise nothing changes; a null first slot is a crash |
| BattleSceneBase.ProcessNewestComponents | BattleNetwork/battlescene/bnBattleSceneBase.cpp:873-911 | each entity is processed on its own (the ledger moves to its first component's ID when that is newer), the injected components are the entities' newest components concatenated in field order, none is `Local`, and the call fails iff some entity's first slot is null |
| BattleSceneBase.ProcessEntityTwice | BattleNetwork/battlescene/bnBattleSceneBase.cpp:883-904 | a second pass injects nothing |
| BattleSceneBase.InjectedAllAppend | BattleNetwork/battlescene/bnBattleSceneBase.cpp:873-911 | injection works entity by entity: a concatenation of entity lists injects the two parts in turn |
| BattleSceneBase.ProcessedIsStable | BattleNetwork/battlescene/bnBattleSceneBase.cpp:883-904 | a processed entity's ledger has caught up: processing it again neither moves the ledger nor injects anything |
| BattleSceneBase.SecondPassInjectsNothing | BattleNetwork/battlescene/bnBattleSceneBase.cpp:873-911 | after one pass over all entities a second pass injects nothing |
| BattleSceneBase.Quit | BattleNetwork/battlescene/bnBattleSceneBase.cpp:779-809 | quitting ends the current state and pops once, without a fade when the stack has one scene; a second call is a no-op |
| BattleSceneBase.QuitOnce | BattleNetwork/battlescene/bnBattleSceneBase.cpp:779-780 | quitting twice pops once |
| BattleSceneBase.OnDeleteEvent | BattleNetwork/battlescene/bnBattleSceneBase.cpp:242-262 | the player is marked deleted, and the run not a runaway, only when it is the deleted character and was not already deleted; agents targeting it lose their target |
| BattleSceneBase.PlayerDeletedOnce | BattleNetwork/battlescene/bnBattleSceneBase.cpp:245-249 | once the player is marked deleted, later deletions leave the flag alone |
| PersonalMenu.Open | BattleNetwork/overworld/bnOverworldPersonalMenu.cpp:613-623 | only a closed menu starts opening, and it reports whether it did |
| PersonalMenu.Close | BattleNetwork/overworld/bnOverworldPersonalMenu.cpp:625-635 | only an open menu starts closing, and it reports whether it did |
| PersonalMenu.CursorMoveDown | BattleNetwork/overworld/bnOverworldPersonalMenu.cpp:602-611 | among the options the row moves down and wraps to the top, computed in unsigned 32-bit arithmetic; with no options it divides by zero; on the exit button nothing moves |
| PersonalMenu.CursorMoveUp | BattleNetwork/overworld/bnOverworldPersonalMenu.cpp:587-600 | among the options the row moves up and wraps to the bottom; on the exit button nothing moves but a negative row is raised to 0 |
| PersonalMenu.DownThenUp | BattleNetwork/overworld/bnOverworldPersonalMenu.cpp:587-611 | moving down then up returns to the same option |
| PersonalMenu.SelectExit | BattleNetwork/overworld/bnOverworldPersonalMenu.cpp:554-571 | the cursor goes to the exit button, reporting whether it moved |
| PersonalMenu.SelectOptions | BattleNetwork/overworld/bnOverworldPersonalMenu.cpp:573-585 | the cursor leaves the exit button for the first option, reporting whether it moved |
| PersonalMenu.ExecuteSelection | BattleNetwork/overworld/bnOverworldPersonalMenu.cpp:537-552 | on the exit button the menu closes; on an option its callback runs, reporting whether it has one; a row outside the options is an out-of-bounds read |
| PersonalMenu.ExitThenExecuteCloses | BattleNetwork/overworld/bnOverworldPersonalMenu.cpp:537-552 | choosing the exit button of an opened menu and confirming starts closing it, and no option runs |
| PersonalMenu.ExecuteKeepsCursor | BattleNetwork/overworld/bnOverworldPersonalMenu.cpp:537-552 | running the selection never moves the cursor or changes the options |
| PersonalMenu.SetMonies | BattleNetwork/overworld/bnOverworldPersonalMenu.cpp:507-510 | a negative amount shows as 0 and others as given |
| PersonalMenu.LastMoniesWin | BattleNetwork/overworld/bnOverworldPersonalMenu.cpp:507-510 | only the last amount set is shown |
| PersonalMenu.PadArea | BattleNetwork/overworld/bnOverworldPersonalMenu.cpp:497-500 | the label is the name left-padded with underscores to at least 12 characters |
| PersonalMenu.SetArea | BattleNetwork/overworld/bnOverworldPersonalMenu.cpp:492-505 | the name is kept as given and shown padded |

## Left out

- Rendering and sound: drawing, sprite colours, the fade alpha and flash colours of form activation, the shine entities' animation, the touch controls, and easing in the personal menu.
- Script bodies: the Lua VM is not modelled. Callbacks are opaque tokens, and what they queue is a parameter (`Host`). `call_on_replace`, `can_block_func` and `filter_statuses_func` are reduced to their observable effect on the log, the replaced mark and the hit properties.
- Networking: transport, heartbeats, hole punching and file reads for zips are left out. Outgoing packets are recorded in an outbox.
- Randomness: the `OsRng` seed of `broadcast_ready` is a parameter (`nonce`). The `u64` range of the seed is not modelled.
- Package stores: `package_or_fallback_info`, the package stores' `load_virtual_package` and child package loading are parameters (a package table and a loader). `is_remote` of a namespace is a parameter too.
- Hash sets: `HashSet` iteration order is unseen. The model lists each namespace once, at its last occurrence in chain order.
- Block colours: the `BlockColor` variants are not part of this model. They are a count and a default.
- Save file: writing the server list to disk is recorded as a flag. The UI widgets of the edit scene are reduced to the queue of messages they send.
- Defense priorities: the `DefensePriority` variants are not part of this model. They are numbered tiers below `Last`.
- Animator internals: `BattleAnimator`, `FrameList` and `Animator` are not part of this model. A state's total duration is taken to be the sum of its frame durations, and `GetFrame(i)` its frame `i`.
- Legacy animation playback: `Update`, `SyncTime`, `OverrideAnimationFrames`, `Refresh`, the callbacks' frame bookkeeping and the re-entrancy guard of `HandleInterrupted` are left out.
- Number parsing: `atoi` and `atof` are parameters of the parser. Durations are reals; `float` rounding is not modelled.
- Parse errors: when `LoadWithData` stops on an out-of-range read, the states stored up to then are not returned. The model gives only the error.
- `BattleSceneBase.Buff`: `Card::ModDamage` is not part of this model; it is taken to add the buff to the damage.
- Component injection: `Component::Inject` of a concrete component is unseen. Injected components are listed in the scene in injection order.
- `OnDeleteEvent`: `mob->Forget`, logging and stopping the music are left out.
- Entity store: `Field::FindEntities` order is the order of the entity list given.
- `PersonalMenu.CursorMoveUp`: the options' `size() - 1` is taken as a plain `int`, so it is -1 when there are no options. The conversion through `size_t` is not modelled.
- Personal menu input: `HandleInput`, the cooldown timers, the opening→opened and closing→closed transitions done by animation tasks, and option registration are left out.
- Form activation: the loop mode set on each player's animator in `activate_forms` is left out, as are clearing statuses and cancelling movement. The idle state, the callbacks queued and the shine artifacts are modelled.
- FormActivation.ActivateForms: requires every pending player's animator to exist (`PlayersAnimated`). A missing one makes `animators[entity.animator_index]` panic, which is not modelled. `Update` has the same requirement. `Player::IDLE_STATE` is taken to be `"PLAYER_IDLE"`, because player.rs is not part of this model.
- BattleSimulation.SpawnPositions: requires at least one player. With no player, `spawn_count - 1` underflows `usize` and panics in `BattleSimulation::new`, which is not modelled.
- ComponentApi.Eject: requires a `Local` component to be listed in its owner's local components (`LocalComponentTracked`). An untracked one makes the `position(...).unwrap()` panic, which is not modelled.
- `derive_state`: the animator's derivation of a new state is not part of this model. Only the frame conversion handed to it is modelled.
- Debug assertions: the assertion comparing held and executed card actions in `assertions` is not modelled. Only the tile-count part is.
- Animator frames: a forced `update` of an artifact's animator is reduced to the callbacks it returns (`Host.updateCallbacks`); the frame it advances is not modelled.
- FormActivation.HasPendingActivations: requires every selected form index to be in range (`FormsIndexed`). An out-of-range index makes `player.forms[index]` panic, and that panic is not modelled.
- FormActivation.MarkPlayer: requires the selected form index to be in range (`Indexed`), for the same panic. `MarkActivated`, `ActivateForms` and `Update` require `FormsIndexed` for the same reason.
- FormActivation.DetectAnimationEnd: requires the animator of every artifact still present to exist (`ArtifactsAnimated`). A missing one makes `animators[index]` panic, which is not modelled. `Update` has the same requirement.
- Out of scope: `initialize_uninitialized`, `pre_update`/`post_update` sequencing, `update_animations`, `apply_animations`, entity creation and `load_player`/`load_character`.

## Findings

| source | as written | input that shows it | evidently intended | confidence | as-written member | corrected member |
|---|---|---|---|---|---|---|
| BattleNetwork/battlescene/bnBattleSceneBase.cpp:373-384 | the Atk buff is added through `card`, a pointer to the element of the input vector, after that element was copied into `newCardList`; the input vector is then replaced by the new list, so the buff is lost | the cards `Cannon` (40 damage) then `Atk+10` (a booster) | the kept `Cannon` deals 50 | high, not executed | BattleSceneBase.FilterSupportCardsAsWritten | BattleSceneBase.FilterSupportCards |
