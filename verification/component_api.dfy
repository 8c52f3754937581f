/** The `eject` function of the script API's component table. */
module ComponentApi {
  import opened Wrappers
  import opened Stores
  import opened BattleWorld

  /** `Vec::swap_remove`: the last element fills the gap. */
  function SwapRemove<T>(s: seq<T>, i: nat): (r: seq<T>)
    requires i < |s|
    ensures |r| == |s| - 1
    ensures forall j :: 0 <= j < |r| && j != i ==> r[j] == s[j]
    ensures i < |r| ==> r[i] == s[|s| - 1]
    ensures multiset(r) == multiset(s) - multiset{s[i]}
  {
    var last := |s| - 1;
    if i == last then
      DropLastCount(s);
      s[..last]
    else
      SwapCount(s, i);
      s[..i] + [s[last]] + s[i + 1..last]
  }

  lemma {:induction false} DropLastCount<T>(s: seq<T>)
    requires s != []
    ensures multiset(s[..|s| - 1]) == multiset(s) - multiset{s[|s| - 1]}
  {
    assert s == s[..|s| - 1] + [s[|s| - 1]];
  }

  lemma {:induction false} SwapCount<T>(s: seq<T>, i: nat)
    requires i < |s| - 1
    ensures multiset(s[..i] + [s[|s| - 1]] + s[i + 1..|s| - 1]) == multiset(s) - multiset{s[i]}
  {
    assert s == s[..i] + [s[i]] + s[i + 1..|s| - 1] + [s[|s| - 1]];
  }

  function IndexOf(s: seq<nat>, x: nat): (i: nat)
    requires x in s
    ensures i < |s| && s[i] == x
    ensures forall j :: 0 <= j < i ==> s[j] != x
  {
    if s[0] == x then 0 else 1 + IndexOf(s[1..], x)
  }

  /** What `eject` leaves behind: the world, and the error raised to the script if any. */
  datatype Ejected = Ejected(world: World, error: Option<Error>)

  /** A local component is listed by its owner; `eject` unwraps that lookup. */
  predicate LocalComponentTracked(w: World, id: nat) {
    id in w.components.items && w.components.items[id].lifetime == Local
    && w.components.items[id].entity in w.entities.items
    ==> id in w.entities.items[w.components.items[id].entity].localComponents
  }

  /**
   * `eject`: the component leaves the arena first; a local one is then also
   * dropped from its owner's list by `swap_remove`, and a local one whose owner
   * is gone reports `entity_not_found` after it has already left the arena.
   */
  function Eject(w: World, id: nat): (r: Ejected)
    requires LocalComponentTracked(w, id)
    ensures id !in w.components.items ==> r == Ejected(w, Some(ComponentNotFound))
    ensures id in w.components.items ==> r.world.components.items == w.components.items - {id}
    ensures id in w.components.items && w.components.items[id].lifetime != Local ==>
      r == Ejected(w.(components := r.world.components), None)
    ensures (id in w.components.items && w.components.items[id].lifetime == Local
      && w.components.items[id].entity !in w.entities.items) ==>
      r == Ejected(w.(components := r.world.components), Some(EntityNotFound))
  {
    if id !in w.components.items then Ejected(w, Some(ComponentNotFound))
    else
      var component := w.components.items[id];
      var w1 := w.(components := Remove(w.components, id));
      if component.lifetime != Local then Ejected(w1, None)
      else if component.entity !in w1.entities.items then Ejected(w1, Some(EntityNotFound))
      else
        var owner := w1.entities.items[component.entity];
        var index := IndexOf(owner.localComponents, id);
        var owner' := owner.(localComponents := SwapRemove(owner.localComponents, index));
        Ejected(w1.(entities := w1.entities.(items := w1.entities.items[component.entity := owner'])), None)
  }

  /** Taking one copy of `x` out of a list without repeats leaves no copy behind. */
  lemma {:induction false} RemoveOnceFromNoDup(before: seq<nat>, after: seq<nat>, x: nat)
    requires NoDup(before) && x in before
    requires multiset(after) == multiset(before) - multiset{x}
    ensures x !in after
  {
    var i := IndexOf(before, x);
    assert before == before[..i] + [x] + before[i + 1..];
    assert x !in before[..i];
    assert x !in before[i + 1..] by {
      forall j | i + 1 <= j < |before| ensures before[j] != x { assert before[i] != before[j]; }
    }
    assert multiset(before)[x] == 1;
    assert multiset(after)[x] == 0;
  }

  /**
   * Ejecting a tracked local component succeeds and takes exactly one copy of its
   * index out of the owner's list; nothing else of the owner or of any other
   * entity changes. With an owner whose list has no repeats, the index is gone.
   */
  lemma {:induction false} EjectLocal(w: World, id: nat) returns (r: Ejected)
    requires id in w.components.items && w.components.items[id].lifetime == Local
    requires w.components.items[id].entity in w.entities.items
    requires LocalComponentTracked(w, id)
    ensures r == Eject(w, id)
    ensures r.error == None
    ensures r.world.entities.items.Keys == w.entities.items.Keys
    ensures forall e :: e in w.entities.items && e != w.components.items[id].entity ==>
      r.world.entities.items[e] == w.entities.items[e]
    ensures var owner := w.components.items[id].entity;
      && r.world.entities.items[owner] ==
           w.entities.items[owner].(localComponents := r.world.entities.items[owner].localComponents)
      && multiset(r.world.entities.items[owner].localComponents) ==
           multiset(w.entities.items[owner].localComponents) - multiset{id}
      && (NoDup(w.entities.items[owner].localComponents) ==> id !in r.world.entities.items[owner].localComponents)
  {
    r := Eject(w, id);
    var owner := w.components.items[id].entity;
    if NoDup(w.entities.items[owner].localComponents) {
      RemoveOnceFromNoDup(w.entities.items[owner].localComponents, r.world.entities.items[owner].localComponents, id);
    }
  }
}
