/**
 * Bookkeeping of the legacy `BattleSceneBase` (bnBattleSceneBase.cpp): the
 * support-card filter, injecting and ejecting components, picking up the
 * components entities gained since the last frame, quitting, and noticing that
 * the player is being deleted.
 *
 * Objects are named by opaque handles (their addresses); `Card`, `Component` and
 * the segue transitions are not part of this model beyond the fields read here.
 */
module BattleSceneBase {
  import opened Wrappers

  // ---------------------------------------------------------------- support cards

  datatype Card = Card(shortName: string, damage: int, booster: bool)

  /** The short name starts with `Atk`. */
  predicate AtkName(name: string) {
    |name| >= 3 && name[..3] == "Atk"
  }

  /**
   * The support value of a booster: the number after the fourth character of an
   * `Atk…` name, 0 for other names. A name that is exactly `Atk` makes `substr(4, …)`
   * throw.
   */
  function Buff(name: string, atoi: string -> int): (r: Result<int>)
    ensures r.Err? <==> name == "Atk"
    ensures !AtkName(name) ==> r == Ok(0)
    ensures AtkName(name) && |name| >= 4 ==> r == Ok(atoi(name[4..]))
  {
    if !AtkName(name) then Ok(0)
    else if |name| < 4 then
      assert name == name[..3];
      Err(OutOfRange)
    else Ok(atoi(name[4..]))
  }

  /** The cards after the first that are not boosters. */
  function NonBoosters(cards: seq<Card>): (r: seq<Card>)
    ensures |r| <= |cards|
  {
    if cards == [] then []
    else (if cards[0].booster then [] else [cards[0]]) + NonBoosters(cards[1..])
  }

  /** Which cards the filter keeps: the first card, booster or not, then every non-booster in order. */
  function Kept(cards: seq<Card>): (r: seq<Card>)
    ensures cards == [] <==> r == []
    ensures cards != [] ==> r[0] == cards[0]
  {
    if cards == [] then [] else [cards[0]] + NonBoosters(cards[1..])
  }

  /** Two card lists that differ at most in damage. */
  predicate SameCards(a: seq<Card>, b: seq<Card>) {
    |a| == |b| && forall k :: 0 <= k < |a| ==> a[k].shortName == b[k].shortName && a[k].booster == b[k].booster
  }

  /** Some card before position `i` is not a booster, so a booster at `i` buffs the card kept before it. */
  ghost predicate Buffs(cards: seq<Card>, i: int) {
    0 <= i < |cards| && cards[i].booster && exists j :: 0 <= j < i && !cards[j].booster
  }

  /** A booster that buffs a card has a name its support value cannot be read from. */
  ghost predicate BuffFails(cards: seq<Card>, atoi: string -> int) {
    exists i :: Buffs(cards, i) && Buff(cards[i].shortName, atoi).Err?
  }

  lemma {:induction false} NonBoostersSnoc(cards: seq<Card>, c: Card)
    ensures NonBoosters(cards + [c]) == NonBoosters(cards) + (if c.booster then [] else [c])
    decreases |cards|
  {
    if cards == [] {
      assert [c][1..] == [];
    } else {
      assert (cards + [c])[1..] == cards[1..] + [c];
      NonBoostersSnoc(cards[1..], c);
    }
  }

  lemma {:induction false} KeptSnoc(cards: seq<Card>, c: Card)
    ensures cards != [] ==> Kept(cards + [c]) == Kept(cards) + (if c.booster then [] else [c])
  {
    if cards != [] {
      assert (cards + [c])[1..] == cards[1..] + [c];
      NonBoostersSnoc(cards[1..], c);
    }
  }

  predicate AllBoosters(cards: seq<Card>) {
    forall j :: 0 <= j < |cards| ==> cards[j].booster
  }

  /**
   * One pass of the loop in `FilterSupportCards`. The card tracked by the loop is
   * always the last one kept. A booster after a kept non-booster is dropped and
   * its support value is read; `applied` says whether that value reaches the kept
   * card's copy in the new list. Any other booster after the first card is dropped,
   * and every other card is kept.
   */
  function StepCard(kept: seq<Card>, c: Card, atoi: string -> int, applied: bool): (r: Result<seq<Card>>)
    ensures r.Err? <==> c.booster && kept != [] && !kept[|kept| - 1].booster && Buff(c.shortName, atoi).Err?
    ensures r.Ok? && c.booster && kept != [] ==> SameCards(r.value, kept)
    ensures r.Ok? && !(c.booster && kept != []) ==> r.value == kept + [c]
    ensures r.Ok? && !applied ==> r.value == kept + (if c.booster && kept != [] then [] else [c])
  {
    if c.booster && kept != [] then
      var last := |kept| - 1;
      if !kept[last].booster then
        var b :- Buff(c.shortName, atoi);
        Ok(if applied then kept[last := kept[last].(damage := kept[last].damage + b)] else kept)
      else Ok(kept)
    else Ok(kept + [c])
  }

  /** The whole loop, written from the last card back. */
  function Filter(cards: seq<Card>, atoi: string -> int, applied: bool): Result<seq<Card>>
    decreases |cards|
  {
    if cards == [] then Ok([])
    else
      var prev :- Filter(cards[..|cards| - 1], atoi, applied);
      StepCard(prev, cards[|cards| - 1], atoi, applied)
  }

  /**
   * The filter keeps the first card and every later non-booster, changing at most
   * their damage; the last card kept is a booster only when every card is one; as
   * written, no damage changes at all.
   */
  lemma {:induction false} FilterKeeps(cards: seq<Card>, atoi: string -> int, applied: bool)
    requires Filter(cards, atoi, applied).Ok?
    ensures SameCards(Filter(cards, atoi, applied).value, Kept(cards))
    ensures cards != [] ==> (Filter(cards, atoi, applied).value[|Kept(cards)| - 1].booster <==> AllBoosters(cards))
    ensures !applied ==> Filter(cards, atoi, applied).value == Kept(cards)
    decreases |cards|
  {
    if cards != [] {
      var n := |cards| - 1;
      var init, c := cards[..n], cards[n];
      assert cards == init + [c];
      var prev := Filter(init, atoi, applied).value;
      FilterKeeps(init, atoi, applied);
      KeptSnoc(init, c);
      assert AllBoosters(cards) <==> AllBoosters(init) && c.booster;
      if init == [] {
        assert Kept(cards) == [c];
      }
    }
  }

  /** A card added at the end fails the filter only by itself buffing a card with the name `Atk`. */
  lemma {:induction false} BuffFailsSnoc(init: seq<Card>, c: Card, atoi: string -> int)
    ensures BuffFails(init + [c], atoi) <==>
      BuffFails(init, atoi) || (c.booster && !AllBoosters(init) && Buff(c.shortName, atoi).Err?)
  {
    var cards := init + [c];
    if BuffFails(cards, atoi) {
      var i :| Buffs(cards, i) && Buff(cards[i].shortName, atoi).Err?;
      var j :| 0 <= j < i && !cards[j].booster;
      if i < |init| {
        assert Buffs(init, i);
      } else {
        assert !init[j].booster;
      }
    }
    if BuffFails(init, atoi) {
      var i :| Buffs(init, i) && Buff(init[i].shortName, atoi).Err?;
      var j :| 0 <= j < i && !init[j].booster;
      assert cards[j] == init[j];
      assert Buffs(cards, i);
    }
    if c.booster && !AllBoosters(init) && Buff(c.shortName, atoi).Err? {
      var j :| 0 <= j < |init| && !init[j].booster;
      assert cards[j] == init[j];
      assert Buffs(cards, |init|);
    }
  }

  /** The filter fails exactly when some booster that buffs a card has the name `Atk`. */
  lemma {:induction false} FilterFails(cards: seq<Card>, atoi: string -> int, applied: bool)
    ensures Filter(cards, atoi, applied).Ok? <==> !BuffFails(cards, atoi)
    decreases |cards|
  {
    if cards != [] {
      var n := |cards| - 1;
      var init, c := cards[..n], cards[n];
      assert cards == init + [c];
      FilterFails(init, atoi, applied);
      BuffFailsSnoc(init, c, atoi);
      if Filter(init, atoi, applied).Ok? {
        FilterKeeps(init, atoi, applied);
      }
    }
  }

  /** `FilterSupportCards` as written: the support value is added through a pointer into the discarded list. */
  function FilterSupportCardsAsWritten(cards: seq<Card>, atoi: string -> int): (r: Result<seq<Card>>)
    ensures r.Ok? <==> !BuffFails(cards, atoi)
    ensures r.Ok? ==> r.value == Kept(cards)
  {
    FilterFails(cards, atoi, false);
    if Filter(cards, atoi, false).Ok? then FilterKeeps(cards, atoi, false); Filter(cards, atoi, false)
    else Filter(cards, atoi, false)
  }

  /** `FilterSupportCards` with the support value added to the kept card, as its comment intends. */
  function FilterSupportCards(cards: seq<Card>, atoi: string -> int): (r: Result<seq<Card>>)
    ensures r.Ok? <==> !BuffFails(cards, atoi)
    ensures r.Ok? ==> SameCards(r.value, Kept(cards))
  {
    FilterFails(cards, atoi, true);
    if Filter(cards, atoi, true).Ok? then FilterKeeps(cards, atoi, true); Filter(cards, atoi, true)
    else Filter(cards, atoi, true)
  }

  /** A booster following a kept non-booster adds its support value to the last card kept, and only to it. */
  lemma {:induction false} BoosterBuffsLastCard(cards: seq<Card>, b: Card, atoi: string -> int)
    requires b.booster && !AllBoosters(cards) && Filter(cards, atoi, true).Ok?
    requires Buff(b.shortName, atoi).Ok?
    ensures var prev := Filter(cards, atoi, true).value;
      var last := |prev| - 1;
      Filter(cards + [b], atoi, true) == Ok(prev[last := prev[last].(damage := prev[last].damage + Buff(b.shortName, atoi).value)])
  {
    assert (cards + [b])[..|cards|] == cards;
    FilterKeeps(cards, atoi, true);
  }

  lemma {:induction false} FilterOne(c: Card, atoi: string -> int, applied: bool)
    ensures Filter([c], atoi, applied) == Ok([c])
  {
    var none: seq<Card> := [];
    assert [c][..0] == none && none + [c] == [c];
    assert Filter(none, atoi, applied) == Ok(none);
    assert StepCard(none, c, atoi, applied).Ok?;
  }

  /** An `Atk+10` after a 40-damage card: the code as written still returns 40, the intended filter 50. */
  lemma AtkBuffLost(atoi: string -> int)
    requires atoi("10") == 10
    ensures var cards := [Card("Cannon", 40, false), Card("Atk+10", 0, true)];
      Filter(cards, atoi, false) == Ok([Card("Cannon", 40, false)])
      && Filter(cards, atoi, true) == Ok([Card("Cannon", 50, false)])
  {
    var cannon, atk := Card("Cannon", 40, false), Card("Atk+10", 0, true);
    var cards := [cannon, atk];
    assert cards[..1] == [cannon];
    FilterOne(cannon, atoi, false);
    FilterOne(cannon, atoi, true);
    assert Buff(atk.shortName, atoi) == Ok(10) by {
      assert atk.shortName[..3] == "Atk" && atk.shortName[4..] == "10";
    }
    var buffed := Card("Cannon", 50, false);
    assert [cannon][0 := cannon.(damage := cannon.damage + 10)] == [buffed];
    assert Filter(cards, atoi, true) == StepCard([cannon], atk, atoi, true);
  }

  // ---------------------------------------------------------------- components

  datatype Lifetime = Local | Battlestep | Scene

  /** A component: its handle (address), its ID, whether it is also a scene node, and its lifetime. */
  datatype Component = Component(handle: nat, id: int, isNode: bool, lifetime: Lifetime)

  /** A scene node: either a component's, or one the scene added otherwise. */
  datatype Node = ComponentNode(handle: nat) | OtherNode(key: nat)

  datatype SceneParts = SceneParts(components: seq<Component>, nodes: seq<Node>)

  /** `Inject(std::shared_ptr<Component>)`: a scene-node component is also drawn. */
  function Inject(s: SceneParts, c: Component): (r: SceneParts)
    ensures r.components == s.components + [c]
    ensures r.nodes == s.nodes + (if c.isNode then [ComponentNode(c.handle)] else [])
  {
    SceneParts(s.components + [c], s.nodes + if c.isNode then [ComponentNode(c.handle)] else [])
  }

  /** The first position in `components` with this ID. */
  function FindId(components: seq<Component>, id: int): (r: Option<nat>)
    ensures r.Some? ==> (r.value < |components| && components[r.value].id == id
      && forall j :: 0 <= j < r.value ==> components[j].id != id)
    ensures r.None? ==> forall j :: 0 <= j < |components| ==> components[j].id != id
    decreases |components|
  {
    if components == [] then None
    else if components[0].id == id then Some(0)
    else match FindId(components[1..], id)
      case None => None
      case Some(k) => Some(k + 1)
  }

  /** The first position in `nodes` equal to `n`. */
  function FindNode(nodes: seq<Node>, n: Node): (r: Option<nat>)
    ensures r.Some? ==> r.value < |nodes| && nodes[r.value] == n && n !in nodes[..r.value]
    ensures r.None? ==> n !in nodes
    decreases |nodes|
  {
    if nodes == [] then None
    else if nodes[0] == n then Some(0)
    else match FindNode(nodes[1..], n)
      case None => None
      case Some(k) =>
        assert nodes[..k + 1] == [nodes[0]] + nodes[1..][..k];
        Some(k + 1)
  }

  /**
   * `Eject`: the first component with the ID is removed, and with it its scene node
   * if it is one; an unknown ID changes nothing.
   */
  function Eject(s: SceneParts, id: int): (r: SceneParts)
    ensures FindId(s.components, id).None? ==> r == s
    ensures FindId(s.components, id).Some? ==>
      var k := FindId(s.components, id).value;
      var c := s.components[k];
      var j := if c.isNode then FindNode(s.nodes, ComponentNode(c.handle)) else None;
      && r.components == s.components[..k] + s.components[k + 1..]
      && (j.Some? ==> r.nodes == s.nodes[..j.value] + s.nodes[j.value + 1..])
      && (j.None? ==> r.nodes == s.nodes)
    ensures forall n :: n in r.nodes ==> n in s.nodes
  {
    match FindId(s.components, id)
    case None => s
    case Some(k) =>
      var c := s.components[k];
      var nodes :=
        if c.isNode then
          match FindNode(s.nodes, ComponentNode(c.handle))
          case None => s.nodes
          case Some(j) => DeleteAt(s.nodes, j); s.nodes[..j] + s.nodes[j + 1..]
        else s.nodes;
      SceneParts(s.components[..k] + s.components[k + 1..], nodes)
  }

  /** Injecting a component whose ID and node are new, then ejecting its ID, restores the scene. */
  lemma {:induction false} InjectThenEject(s: SceneParts, c: Component)
    requires forall j :: 0 <= j < |s.components| ==> s.components[j].id != c.id
    requires ComponentNode(c.handle) !in s.nodes
    ensures Eject(Inject(s, c), c.id) == s
  {
    var t := Inject(s, c);
    var k := |s.components|;
    assert t.components[k].id == c.id;
    assert forall j :: 0 <= j < k ==> t.components[j] == s.components[j];
    assert FindId(t.components, c.id) == Some(k);
    assert t.components[..k] + t.components[k + 1..] == s.components;
    if c.isNode {
      var j := |s.nodes|;
      assert t.nodes[..j] == s.nodes;
      assert FindNode(t.nodes, ComponentNode(c.handle)) == Some(j);
      assert t.nodes[..j] + t.nodes[j + 1..] == s.nodes;
    }
  }

  // ---------------------------------------------------------------- newest components

  /** An entity's components, newest first (a slot may be null), and the newest ID already seen. */
  datatype EntityComponents = EntityComponents(components: seq<Option<Component>>, lastComponentID: int)

  /**
   * The components to inject from position `i` on: up to the first one not newer
   * than `last`, skipping null slots and local ones.
   */
  function NewestFrom(components: seq<Option<Component>>, i: nat, last: int): (r: seq<Component>)
    ensures forall k :: 0 <= k < |r| ==> r[k].id > last && r[k].lifetime != Local && Some(r[k]) in components
    decreases |components| - i
  {
    if i >= |components| then []
    else match components[i]
      case None => NewestFrom(components, i + 1, last)
      case Some(c) =>
        if c.id <= last then []
        else (if c.lifetime != Local then [c] else []) + NewestFrom(components, i + 1, last)
  }

  function Newest(components: seq<Option<Component>>, last: int): (r: seq<Component>)
    ensures forall k :: 0 <= k < |r| ==> r[k].id > last && r[k].lifetime != Local && Some(r[k]) in components
  {
    assert components[0..] == components;
    NewestFrom(components, 0, last)
  }

  /** The injection loop for one entity, stopping at the first component not newer than `last`. */
  method InjectNewest(components: seq<Option<Component>>, last: int) returns (injected: seq<Component>)
    ensures injected == Newest(components, last)
  {
    injected := [];
    var i := 0;
    while i < |components|
      invariant 0 <= i <= |components|
      invariant injected + NewestFrom(components, i, last) == NewestFrom(components, 0, last)
    {
      if components[i].None? {
        i := i + 1;
        continue;
      }
      var c := components[i].value;
      if c.id <= last {
        assert injected + [] == injected;
        break;
      }
      var more := if c.lifetime != Local then [c] else [];
      assert injected + (more + NewestFrom(components, i + 1, last)) == (injected + more) + NewestFrom(components, i + 1, last);
      injected := injected + more;
      i := i + 1;
    }
  }

  /** Whether processing the entity moves its ledger: its first component is newer than the ledger. */
  predicate Advances(e: EntityComponents) {
    e.components != [] && e.components[0].Some? && e.lastComponentID < e.components[0].value.id
  }

  /** The entity after processing: the ledger records the first component's ID when it advances. */
  function Processed(e: EntityComponents): EntityComponents {
    if Advances(e) then e.(lastComponentID := e.components[0].value.id) else e
  }

  /** The components processing the entity injects. */
  function InjectedBy(e: EntityComponents): seq<Component> {
    if Advances(e) then Newest(e.components, e.lastComponentID) else []
  }

  /** The components processing every entity injects, entity after entity. */
  function InjectedAll(entities: seq<EntityComponents>): seq<Component>
    decreases |entities|
  {
    if entities == [] then [] else InjectedBy(entities[0]) + InjectedAll(entities[1..])
  }

  /** Injection works entity by entity: a concatenation injects the two parts in order. */
  lemma {:induction false} InjectedAllAppend(a: seq<EntityComponents>, b: seq<EntityComponents>)
    ensures InjectedAll(a + b) == InjectedAll(a) + InjectedAll(b)
    decreases |a|
  {
    if a == [] {
      assert a + b == b;
    } else {
      assert (a + b)[0] == a[0];
      assert (a + b)[1..] == a[1..] + b;
      InjectedAllAppend(a[1..], b);
    }
  }

  /** One more entity injects its own components after those of the ones before it. */
  lemma {:induction false} InjectedAllSnoc(entities: seq<EntityComponents>, i: nat)
    requires i < |entities|
    ensures InjectedAll(entities[..i + 1]) == InjectedAll(entities[..i]) + InjectedBy(entities[i])
  {
    assert entities[..i + 1] == entities[..i] + [entities[i]];
    InjectedAllAppend(entities[..i], [entities[i]]);
    assert [entities[i]][1..] == [];
  }

  /** A processed entity's ledger has caught up: processing it again injects nothing and moves nothing. */
  lemma {:induction false} ProcessedIsStable(e: EntityComponents)
    ensures Processed(Processed(e)) == Processed(e)
    ensures InjectedBy(Processed(e)) == []
  {
  }

  /** After one pass over the entities, a second pass injects nothing. */
  lemma {:induction false} SecondPassInjectsNothing(entities: seq<EntityComponents>)
    ensures InjectedAll(seq(|entities|, k requires 0 <= k < |entities| => Processed(entities[k]))) == []
    decreases |entities|
  {
    var out := seq(|entities|, k requires 0 <= k < |entities| => Processed(entities[k]));
    if entities != [] {
      var rest := entities[1..];
      SecondPassInjectsNothing(rest);
      assert out[1..] == seq(|rest|, k requires 0 <= k < |rest| => Processed(rest[k]));
      ProcessedIsStable(entities[0]);
    }
  }

  /**
   * `ProcessNewestComponents` for one entity: an entity whose first component is
   * newer than the ledger injects its new components and records that component's
   * ID. A null first slot is dereferenced, which crashes.
   */
  method ProcessEntity(e: EntityComponents) returns (r: Result<(EntityComponents, seq<Component>)>)
    ensures e.components == [] ==> r == Ok((e, []))
    ensures e.components != [] ==> (r.Err? <==> e.components[0].None?)
    ensures r.Ok? ==> r.value.0.components == e.components
    ensures r.Ok? && e.components != [] && e.lastComponentID < e.components[0].value.id ==>
      r.value == (e.(lastComponentID := e.components[0].value.id), Newest(e.components, e.lastComponentID))
    ensures r.Ok? && e.components != [] && e.lastComponentID >= e.components[0].value.id ==> r.value == (e, [])
    ensures r.Ok? ==> r.value == (Processed(e), InjectedBy(e))
  {
    if e.components == [] {
      return Ok((e, []));
    }
    if e.components[0].None? {
      return Err(Panic);
    }
    var latest := e.components[0].value.id;
    if e.lastComponentID < latest {
      var injected := InjectNewest(e.components, e.lastComponentID);
      return Ok((e.(lastComponentID := latest), injected));
    }
    return Ok((e, []));
  }

  /** Every entity in field order; the injected components are listed in the order they were injected. */
  method ProcessNewestComponents(entities: seq<EntityComponents>) returns (r: Result<(seq<EntityComponents>, seq<Component>)>)
    ensures r.Ok? ==> |r.value.0| == |entities|
    ensures r.Ok? ==> forall k :: 0 <= k < |entities| ==> r.value.0[k] == Processed(entities[k])
    ensures r.Ok? ==> r.value.1 == InjectedAll(entities)
    ensures r.Ok? ==> forall k :: 0 <= k < |entities| ==> (r.value.0[k].components == entities[k].components
      && r.value.0[k].lastComponentID >= entities[k].lastComponentID)
    ensures r.Ok? ==> forall c :: c in r.value.1 ==> c.lifetime != Local
    ensures r.Err? <==> exists k :: 0 <= k < |entities| && entities[k].components != [] && entities[k].components[0].None?
  {
    var out: seq<EntityComponents> := [];
    var injected: seq<Component> := [];
    var i := 0;
    while i < |entities|
      invariant 0 <= i <= |entities| && |out| == i
      invariant forall k :: 0 <= k < i ==> out[k] == Processed(entities[k])
      invariant injected == InjectedAll(entities[..i])
      invariant forall c :: c in injected ==> c.lifetime != Local
      invariant forall k :: 0 <= k < i ==> !(entities[k].components != [] && entities[k].components[0].None?)
    {
      var step := ProcessEntity(entities[i]);
      if step.Err? {
        return Err(step.error);
      }
      InjectedAllSnoc(entities, i);
      var next := step.value.0;
      assert next == Processed(entities[i]);
      ghost var prev := out;
      out := out + [next];
      forall k | 0 <= k <= i ensures out[k] == Processed(entities[k]) {
        if k < i {
          assert out[k] == prev[k];
        }
      }
      injected := injected + step.value.1;
      i := i + 1;
    }
    assert entities[..i] == entities;
    forall k | 0 <= k < |entities|
      ensures out[k].components == entities[k].components && out[k].lastComponentID >= entities[k].lastComponentID
    {
      assert out[k] == Processed(entities[k]);
    }
    return Ok((out, injected));
  }

  /** Right after an entity has been processed, processing it again injects nothing. */
  method ProcessEntityTwice(e: EntityComponents) returns (second: seq<Component>)
    requires e.components != [] && e.components[0].Some?
    ensures second == []
  {
    var first := ProcessEntity(e);
    var again := ProcessEntity(first.value.0);
    second := again.value.1;
  }

  // ---------------------------------------------------------------- quitting and deletion

  datatype FadeOut = White | Black | Pixelate

  /** How the scene leaves the stack: plainly (the last scene on it) or with a fade. */
  datatype Pop = PlainPop | FadePop(mode: FadeOut)

  datatype QuitState = QuitState(quitting: bool, current: Option<nat>, ended: seq<nat>, stackSize: nat, pops: seq<Pop>)

  /**
   * `Quit`: the current state is ended and the scene pops itself, plainly when it is
   * the only scene on the stack, otherwise with the fade of `mode`; a scene already
   * quitting does nothing.
   */
  function Quit(s: QuitState, mode: FadeOut): (r: QuitState)
    ensures s.quitting ==> r == s
    ensures !s.quitting ==> r.quitting && r.current.None? && r.stackSize == s.stackSize
    ensures !s.quitting ==> r.ended == s.ended + (if s.current.Some? then [s.current.value] else [])
    ensures !s.quitting ==> r.pops == s.pops + [if s.stackSize == 1 then PlainPop else FadePop(mode)]
  {
    if s.quitting then s
    else
      var ended := if s.current.Some? then s.ended + [s.current.value] else s.ended;
      var pop := if s.stackSize == 1 then PlainPop else FadePop(mode);
      s.(quitting := true, current := None, ended := ended, pops := s.pops + [pop])
  }

  /** Quitting twice pops the scene once. */
  lemma {:induction false} QuitOnce(s: QuitState, first: FadeOut, second: FadeOut)
    ensures Quit(Quit(s, first), second) == Quit(s, first)
    ensures |Quit(Quit(s, first), second).pops| <= |s.pops| + 1
  {
  }

  /** The part of the scene a character's deletion touches: the player, and every AI's target. */
  datatype DeleteState = DeleteState(player: Option<nat>, isPlayerDeleted: bool, runaway: bool, targets: seq<Option<nat>>)

  /**
   * `OnDeleteEvent` up to the mob's bookkeeping: the player's deletion is noticed
   * the first time only, and every AI targeting the character lets go of it.
   */
  function OnDeleteEvent(s: DeleteState, pending: nat): (r: DeleteState)
    ensures !s.isPlayerDeleted && s.player == Some(pending) ==> r.isPlayerDeleted && r.player.None? && !r.runaway
    ensures s.isPlayerDeleted || s.player != Some(pending) ==> (r.player, r.isPlayerDeleted, r.runaway) == (s.player, s.isPlayerDeleted, s.runaway)
    ensures |r.targets| == |s.targets|
    ensures forall k :: 0 <= k < |s.targets| ==> r.targets[k] == if s.targets[k] == Some(pending) then None else s.targets[k]
  {
    var targets := seq(|s.targets|, k requires 0 <= k < |s.targets| => if s.targets[k] == Some(pending) then None else s.targets[k]);
    if !s.isPlayerDeleted && s.player == Some(pending) then
      DeleteState(None, true, false, targets)
    else s.(targets := targets)
  }

  /** Once the player's deletion is noticed, later deletions leave the player fields alone and no AI targets the deleted character. */
  lemma {:induction false} PlayerDeletedOnce(s: DeleteState, pending: nat, later: nat)
    requires s.player == Some(pending) && !s.isPlayerDeleted
    ensures var r := OnDeleteEvent(OnDeleteEvent(s, pending), later);
      r.isPlayerDeleted && r.player.None? && !r.runaway && Some(pending) !in r.targets
  {
    var r1 := OnDeleteEvent(s, pending);
    assert Some(pending) !in r1.targets by {
      forall k | 0 <= k < |r1.targets| ensures r1.targets[k] != Some(pending) { }
    }
  }
}
