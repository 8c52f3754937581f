/**
 * Generational arenas and the entity world, as an insertion-ordered finite map.
 * `order` is the iteration order of the container; generations are abstracted
 * away, so a removed index is simply absent.
 */
module Stores {
  import opened Wrappers

  datatype Store<T> = Store(order: seq<nat>, items: map<nat, T>) {
    /** Every key is listed exactly once in the iteration order. */
    ghost predicate Valid() {
      NoDup(order) && (forall k :: k in order <==> k in items)
    }
  }

  function Empty<T>(): (r: Store<T>)
    ensures r.Valid() && r.items == map[]
  {
    Store([], map[])
  }

  /** The keys of `order`, in order, whose item satisfies `p`. */
  function Select<T>(order: seq<nat>, items: map<nat, T>, p: T -> bool): (r: seq<nat>)
    ensures forall k :: k in r <==> k in order && k in items && p(items[k])
    ensures NoDup(order) ==> NoDup(r)
    ensures |r| <= |order|
  {
    if order == [] then []
    else
      var rest := Select(order[1..], items, p);
      assert forall k :: k in order <==> k == order[0] || k in order[1..];
      if order[0] in items && p(items[order[0]]) then [order[0]] + rest else rest
  }

  /** `order` without the keys of `gone`, in the same relative order. */
  function Without(order: seq<nat>, gone: set<nat>): (r: seq<nat>)
    ensures forall k :: k in r <==> k in order && k !in gone
    ensures NoDup(order) ==> NoDup(r)
  {
    if order == [] then []
    else
      var rest := Without(order[1..], gone);
      assert forall k :: k in order <==> k == order[0] || k in order[1..];
      if order[0] in gone then rest else [order[0]] + rest
  }

  /** `Arena::remove`: the item leaves the map and the iteration order. */
  function Remove<T>(s: Store<T>, k: nat): (r: Store<T>)
    ensures s.Valid() ==> r.Valid()
    ensures r.items == s.items - {k}
  {
    Store(Without(s.order, {k}), s.items - {k})
  }

  /** Removes every key of `gone` at once. */
  function RemoveAll<T>(s: Store<T>, gone: set<nat>): (r: Store<T>)
    ensures s.Valid() ==> r.Valid()
    ensures r.items == s.items - gone
  {
    Store(Without(s.order, gone), s.items - gone)
  }

  /** Replaces the item at an existing key; the iteration order is kept. */
  function Set<T>(s: Store<T>, k: nat, v: T): (r: Store<T>)
    requires k in s.items
    ensures s.Valid() ==> r.Valid()
    ensures r.order == s.order
    ensures r.items == s.items[k := v]
  {
    Store(s.order, s.items[k := v])
  }

  /** Inserting a fresh key appends it to the iteration order. */
  function Insert<T>(s: Store<T>, k: nat, v: T): (r: Store<T>)
    requires s.Valid() && k !in s.items
    ensures r.Valid()
    ensures r.order == s.order + [k] && r.items == s.items[k := v]
  {
    Store(s.order + [k], s.items[k := v])
  }
}
