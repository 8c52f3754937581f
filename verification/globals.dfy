/**
 * Package bookkeeping of `Globals`: breadth-first dependency resolution over
 * the package tables, the namespace a battle's card packages are looked up in,
 * the list of remote namespaces, and the category check of virtual package loading.
 *
 * `package_or_fallback_info` is a finite map from (category, namespace, id)
 * triplets to package infos; what the package managers do to find the package
 * or its fallback is outside the model.
 */
module Globals {
  import opened Wrappers

  datatype PackageCategory = Battle | Block | Card | Character | Library | Player

  /** The namespaces the code names; `Remote(i)` holds the packages of netplay player `i`. */
  datatype PackageNamespace = Local | Server | Remote(index: nat)

  type Triplet = (PackageCategory, PackageNamespace, string)

  /** The part of a `PackageInfo` the resolution reads. */
  datatype PackageInfo = PackageInfo(
    category: PackageCategory,
    namespace: PackageNamespace,
    id: string,
    requirements: seq<(PackageCategory, string)>)

  /** `package_or_fallback_info`, as a finite table. */
  type PackageTable = map<Triplet, PackageInfo>

  // ---------------------------------------------------------------- one level

  /**
   * `filter(&mut is_unresolved)`: keeps the triplets not resolved yet, each once,
   * in order, and marks every one of them resolved (`HashSet::insert` returns
   * false for a triplet already present).
   */
  function Unresolved(ts: seq<Triplet>, resolved: set<Triplet>): (r: (seq<Triplet>, set<Triplet>))
    ensures NoDup(r.0)
    ensures forall t :: t in r.0 <==> t in ts && t !in resolved
    ensures r.1 == resolved + (set t | t in ts)
    decreases |ts|
  {
    if ts == [] then ([], resolved)
    else if ts[0] in resolved then Unresolved(ts[1..], resolved)
    else
      var rest := Unresolved(ts[1..], resolved + {ts[0]});
      assert forall t :: t in ts <==> t == ts[0] || t in ts[1..];
      ([ts[0]] + rest.0, rest.1)
  }

  /** `flat_map(resolve)`: the infos of the triplets the table knows, in order. */
  function Resolve(table: PackageTable, ts: seq<Triplet>): (r: seq<PackageInfo>)
    ensures |r| <= |ts|
    ensures forall info :: info in r ==> exists t :: t in ts && t in table && table[t] == info
    ensures (forall t :: t in ts ==> t !in table) ==> r == []
    decreases |ts|
  {
    if ts == [] then []
    else
      var rest := Resolve(table, ts[1..]);
      assert forall t :: t in ts[1..] ==> t in ts;
      if ts[0] in table then [table[ts[0]]] + rest else rest
  }

  /** The requirement triplets of `infos`, each in the namespace of the package that requires it. */
  function Requirements(infos: seq<PackageInfo>): (r: seq<Triplet>)
    ensures forall t :: t in r <==> RequiredBy(infos, t)
    decreases |infos|
  {
    if infos == [] then []
    else
      var own := RequirementsOf(infos[0]);
      var rest := Requirements(infos[1..]);
      assert forall t :: RequiredBy(infos, t) <==> t in own || RequiredBy(infos[1..], t) by {
        forall t ensures RequiredBy(infos, t) <==> t in own || RequiredBy(infos[1..], t) {
          if RequiredBy(infos, t) {
            var i, j :| 0 <= i < |infos| && 0 <= j < |infos[i].requirements| && t == RequirementAt(infos[i], j);
            if i > 0 {
              assert infos[1..][i - 1] == infos[i];
            }
          }
          if RequiredBy(infos[1..], t) {
            var i, j :| 0 <= i < |infos[1..]| && 0 <= j < |infos[1..][i].requirements| && t == RequirementAt(infos[1..][i], j);
            assert infos[1..][i] == infos[i + 1];
          }
        }
      }
      own + rest
  }

  /** Requirement `j` of `info`, as a triplet in `info`'s namespace. */
  function RequirementAt(info: PackageInfo, j: nat): Triplet
    requires j < |info.requirements|
  {
    (info.requirements[j].0, info.namespace, info.requirements[j].1)
  }

  /** `t` is requirement `j` of some `infos[i]`, in `infos[i]`'s namespace. */
  ghost predicate RequiredBy(infos: seq<PackageInfo>, t: Triplet) {
    exists i, j :: 0 <= i < |infos| && 0 <= j < |infos[i].requirements| && t == RequirementAt(infos[i], j)
  }

  function RequirementsOf(info: PackageInfo): (r: seq<Triplet>)
    ensures |r| == |info.requirements|
    ensures forall j :: 0 <= j < |r| ==> r[j] == RequirementAt(info, j)
    ensures forall t :: t in r <==> exists j :: 0 <= j < |info.requirements| && t == RequirementAt(info, j)
  {
    seq(|info.requirements|, j requires 0 <= j < |info.requirements| => RequirementAt(info, j))
  }

  // ---------------------------------------------------------------- the worklist

  /** Triplets of the table not looked up yet: the measure that bounds the loop. */
  function Unvisited(table: PackageTable, resolved: set<Triplet>): set<Triplet> {
    table.Keys - resolved
  }

  /** The infos of `infos` all come from looked-up triplets of the table. */
  ghost predicate FromLookups(table: PackageTable, resolved: set<Triplet>, infos: seq<PackageInfo>) {
    forall info :: info in infos ==> exists t :: t in resolved && t in table && table[t] == info
  }

  /** One round of the loop: the requirement triplets of `prev` never looked up, the
      resolved set afterwards, and the infos they resolve to. */
  datatype Round = Round(lookups: seq<Triplet>, resolved: set<Triplet>, latest: seq<PackageInfo>)

  function NextRound(table: PackageTable, resolved: set<Triplet>, prev: seq<PackageInfo>): (r: Round)
    ensures resolved <= r.resolved
    ensures FromLookups(table, r.resolved, r.latest)
    ensures |Unvisited(table, r.resolved)| <= |Unvisited(table, resolved)|
    ensures r.latest != [] ==> |Unvisited(table, r.resolved)| < |Unvisited(table, resolved)|
  {
    var (unseen, resolved') := Unresolved(Requirements(prev), resolved);
    var latest := Resolve(table, unseen);
    RoundShrinks(table, resolved, unseen, resolved', latest);
    Round(unseen, resolved', latest)
  }

  lemma {:induction false} RoundShrinks(table: PackageTable, resolved: set<Triplet>, unseen: seq<Triplet>,
                                        resolved': set<Triplet>, latest: seq<PackageInfo>)
    requires forall t :: t in unseen ==> t !in resolved && t in resolved'
    requires resolved <= resolved'
    requires forall info :: info in latest ==> exists t :: t in unseen && t in table && table[t] == info
    ensures FromLookups(table, resolved', latest)
    ensures |Unvisited(table, resolved')| <= |Unvisited(table, resolved)|
    ensures latest != [] ==> |Unvisited(table, resolved')| < |Unvisited(table, resolved)|
  {
    var before, after := Unvisited(table, resolved), Unvisited(table, resolved');
    assert after <= before;
    assert before == after + (before - after);
    if latest != [] {
      assert latest[0] in latest;
      var t :| t in unseen && t in table && table[t] == latest[0];
      assert t in before - after;
    }
  }

  /**
   * The loop of `package_dependency_iter` from a level `prev` on: each round
   * looks up the requirements of the previous level that were never looked up,
   * and the loop stops at the first empty level. `Levels` lists the levels in
   * order. Every non-empty level after the first came from triplets of the table
   * looked up for the first time, so the rounds are bounded by the size of the
   * table.
   */
  function Levels(table: PackageTable, resolved: set<Triplet>, prev: seq<PackageInfo>): (r: seq<seq<PackageInfo>>)
    requires FromLookups(table, resolved, prev)
    ensures prev == [] <==> r == []
    ensures r != [] ==> r[0] == prev
    decreases 2 * |Unvisited(table, resolved)| + (if prev == [] then 0 else 1)
  {
    if prev == [] then []
    else
      var next := NextRound(table, resolved, prev);
      [prev] + Levels(table, next.resolved, next.latest)
  }

  /** The lookups of each round: the requirement triplets never looked up before. */
  function LevelLookups(table: PackageTable, resolved: set<Triplet>, prev: seq<PackageInfo>): (r: seq<seq<Triplet>>)
    requires FromLookups(table, resolved, prev)
    decreases 2 * |Unvisited(table, resolved)| + (if prev == [] then 0 else 1)
  {
    if prev == [] then []
    else
      var next := NextRound(table, resolved, prev);
      [next.lookups] + LevelLookups(table, next.resolved, next.latest)
  }

  function Flatten<T>(xss: seq<seq<T>>): seq<T> {
    if xss == [] then [] else xss[0] + Flatten(xss[1..])
  }

  lemma {:induction false} FlattenCons<T>(xs: seq<T>, xss: seq<seq<T>>)
    ensures Flatten([xs] + xss) == xs + Flatten(xss)
  {
    assert ([xs] + xss)[1..] == xss;
  }

  lemma {:induction false} AppendAssoc<T>(a: seq<T>, b: seq<T>, c: seq<T>)
    ensures a + (b + c) == (a + b) + c
  {
  }

  /** The triplets `package_dependency_iter` looks up, in order: the roots, then each round's. */
  function Lookups(table: PackageTable, roots: seq<Triplet>): seq<Triplet> {
    var (first, resolved) := Unresolved(roots, {});
    first + Flatten(LevelLookups(table, resolved, Resolve(table, first)))
  }

  /** `package_dependency_iter`: the root infos, then each level of requirements in turn. */
  function PackageDependencyIter(table: PackageTable, roots: seq<Triplet>): seq<PackageInfo> {
    var (first, resolved) := Unresolved(roots, {});
    Flatten(Levels(table, resolved, Resolve(table, first)))
  }

  /** One unfolding of `Levels` on a non-empty level. */
  lemma {:induction false} LevelsStep(table: PackageTable, resolved: set<Triplet>, prev: seq<PackageInfo>)
    returns (next: Round)
    requires FromLookups(table, resolved, prev) && prev != []
    ensures next == NextRound(table, resolved, prev)
    ensures Flatten(Levels(table, resolved, prev)) == prev + Flatten(Levels(table, next.resolved, next.latest))
  {
    next := NextRound(table, resolved, prev);
    FlattenCons(prev, Levels(table, next.resolved, next.latest));
  }

  /** The loop of `package_dependency_iter`, as written. */
  method PackageDependencyLoop(table: PackageTable, roots: seq<Triplet>) returns (infos: seq<PackageInfo>)
    ensures infos == PackageDependencyIter(table, roots)
  {
    var (first, resolved0) := Unresolved(roots, {});
    var resolved := resolved0;
    var prev := Resolve(table, first);
    ghost var total := Flatten(Levels(table, resolved, prev));
    assert total == PackageDependencyIter(table, roots);
    infos := [];
    while prev != []
      invariant FromLookups(table, resolved, prev)
      invariant infos + Flatten(Levels(table, resolved, prev)) == total
      decreases 2 * |Unvisited(table, resolved)| + (if prev == [] then 0 else 1)
    {
      var next := NextRound(table, resolved, prev);
      var _ := LevelsStep(table, resolved, prev);
      AppendAssoc(infos, prev, Flatten(Levels(table, next.resolved, next.latest)));
      infos := infos + prev;
      resolved, prev := next.resolved, next.latest;
    }
  }

  // ---------------------------------------------------------------- properties

  lemma {:induction false} ResolveAppend(table: PackageTable, a: seq<Triplet>, b: seq<Triplet>)
    ensures Resolve(table, a + b) == Resolve(table, a) + Resolve(table, b)
    decreases |a|
  {
    if a == [] {
      assert a + b == b;
    } else {
      assert (a + b)[1..] == a[1..] + b;
      ResolveAppend(table, a[1..], b);
    }
  }

  lemma {:induction false} RequiredByAppend(a: seq<PackageInfo>, b: seq<PackageInfo>, t: Triplet)
    ensures RequiredBy(a + b, t) <==> RequiredBy(a, t) || RequiredBy(b, t)
  {
    if RequiredBy(a + b, t) {
      var i, j :| 0 <= i < |a + b| && 0 <= j < |(a + b)[i].requirements| && t == RequirementAt((a + b)[i], j);
      if i >= |a| {
        assert (a + b)[i] == b[i - |a|];
      }
    }
    if RequiredBy(a, t) {
      var i, j :| 0 <= i < |a| && 0 <= j < |a[i].requirements| && t == RequirementAt(a[i], j);
      assert (a + b)[i] == a[i];
    }
    if RequiredBy(b, t) {
      var i, j :| 0 <= i < |b| && 0 <= j < |b[i].requirements| && t == RequirementAt(b[i], j);
      assert (a + b)[i + |a|] == b[i];
    }
  }

  /** The levels from `prev` on are `prev` followed by the infos of the later lookups. */
  lemma {:induction false} LevelsResolveLookups(table: PackageTable, resolved: set<Triplet>, prev: seq<PackageInfo>)
    requires FromLookups(table, resolved, prev)
    ensures Flatten(Levels(table, resolved, prev)) == prev + Resolve(table, Flatten(LevelLookups(table, resolved, prev)))
    decreases 2 * |Unvisited(table, resolved)| + (if prev == [] then 0 else 1)
  {
    if prev != [] {
      var next := NextRound(table, resolved, prev);
      var later := Flatten(LevelLookups(table, next.resolved, next.latest));
      LevelsResolveLookups(table, next.resolved, next.latest);
      FlattenCons(prev, Levels(table, next.resolved, next.latest));
      FlattenCons(next.lookups, LevelLookups(table, next.resolved, next.latest));
      ResolveAppend(table, next.lookups, later);
      AppendAssoc(prev, Resolve(table, next.lookups), Resolve(table, later));
    }
  }

  /** The lookups from `prev` on were never looked up before and are each made once. */
  lemma {:induction false} LevelLookupsOnce(table: PackageTable, resolved: set<Triplet>, prev: seq<PackageInfo>)
    requires FromLookups(table, resolved, prev)
    ensures NoDup(Flatten(LevelLookups(table, resolved, prev)))
    ensures forall t :: t in Flatten(LevelLookups(table, resolved, prev)) ==> t !in resolved
    decreases 2 * |Unvisited(table, resolved)| + (if prev == [] then 0 else 1)
  {
    if prev != [] {
      var next := NextRound(table, resolved, prev);
      var later := Flatten(LevelLookups(table, next.resolved, next.latest));
      LevelLookupsOnce(table, next.resolved, next.latest);
      FlattenCons(next.lookups, LevelLookups(table, next.resolved, next.latest));
      NoDupAppend(next.lookups, later);
    }
  }

  /** Every lookup after the roots is a requirement of a resolved package, in that
      package's namespace. */
  lemma {:induction false} LevelLookupsRequired(table: PackageTable, resolved: set<Triplet>, prev: seq<PackageInfo>, t: Triplet)
    requires FromLookups(table, resolved, prev)
    requires t in Flatten(LevelLookups(table, resolved, prev))
    ensures RequiredBy(Flatten(Levels(table, resolved, prev)), t)
    decreases 2 * |Unvisited(table, resolved)| + (if prev == [] then 0 else 1)
  {
    var next := NextRound(table, resolved, prev);
    var rest := Flatten(Levels(table, next.resolved, next.latest));
    FlattenCons(prev, Levels(table, next.resolved, next.latest));
    FlattenCons(next.lookups, LevelLookups(table, next.resolved, next.latest));
    RequiredByAppend(prev, rest, t);
    if t !in next.lookups {
      LevelLookupsRequired(table, next.resolved, next.latest, t);
    }
  }

  /** Every requirement of a resolved package was looked up, now or before. */
  lemma {:induction false} LevelsClosed(table: PackageTable, resolved: set<Triplet>, prev: seq<PackageInfo>, t: Triplet)
    requires FromLookups(table, resolved, prev)
    requires RequiredBy(Flatten(Levels(table, resolved, prev)), t)
    ensures t in resolved || t in Flatten(LevelLookups(table, resolved, prev))
    decreases 2 * |Unvisited(table, resolved)| + (if prev == [] then 0 else 1)
  {
    var next := NextRound(table, resolved, prev);
    var rest := Flatten(Levels(table, next.resolved, next.latest));
    FlattenCons(prev, Levels(table, next.resolved, next.latest));
    FlattenCons(next.lookups, LevelLookups(table, next.resolved, next.latest));
    RequiredByAppend(prev, rest, t);
    if !RequiredBy(prev, t) {
      LevelsClosed(table, next.resolved, next.latest, t);
    }
  }

  /**
   * `package_dependency_iter` in full: its result is the infos of the triplets
   * it looks up, in lookup order, with the triplets the table does not know
   * contributing nothing; it looks each triplet up at most once; and it looks up
   * exactly the roots and every requirement of every package in its result,
   * each requirement in the namespace of the package that requires it.
   */
  lemma {:induction false} DependencyIterSpec(table: PackageTable, roots: seq<Triplet>)
    ensures PackageDependencyIter(table, roots) == Resolve(table, Lookups(table, roots))
    ensures NoDup(Lookups(table, roots))
    ensures forall t :: t in Lookups(table, roots) <==> t in roots || RequiredBy(PackageDependencyIter(table, roots), t)
  {
    var (first, resolved) := Unresolved(roots, {});
    var prev := Resolve(table, first);
    var later := Flatten(LevelLookups(table, resolved, prev));
    LevelsResolveLookups(table, resolved, prev);
    ResolveAppend(table, first, later);
    LevelLookupsOnce(table, resolved, prev);
    NoDupAppend(first, later);
    forall t ensures t in Lookups(table, roots) <==> t in roots || RequiredBy(PackageDependencyIter(table, roots), t) {
      if t in later {
        LevelLookupsRequired(table, resolved, prev, t);
      }
      if RequiredBy(PackageDependencyIter(table, roots), t) {
        LevelsClosed(table, resolved, prev, t);
      }
    }
  }

  // ---------------------------------------------------------------- battle dependencies

  /** The part of a battle's player setup the dependency list reads. */
  datatype PlayerSetup = PlayerSetup(local: bool, index: nat, player: Triplet, cards: seq<string>)

  /** The namespace a setup's card packages are looked up in. */
  function CardNamespace(setup: PlayerSetup): (r: PackageNamespace)
    ensures r != Server
    ensures r == Local <==> setup.local
    ensures r.Remote? ==> r.index == setup.index
  {
    if setup.local then Local else Remote(setup.index)
  }

  /** The card triplets of one setup, in folder order. */
  function SetupCards(setup: PlayerSetup): (r: seq<Triplet>)
    ensures |r| == |setup.cards|
    ensures forall k :: 0 <= k < |r| ==> r[k] == (Card, CardNamespace(setup), setup.cards[k])
  {
    seq(|setup.cards|, k requires 0 <= k < |setup.cards| => (Card, CardNamespace(setup), setup.cards[k]))
  }

  /** `t` is the triplet of card `k` of setup `i`, for some `lo <= i`. */
  ghost predicate CardOf(setups: seq<PlayerSetup>, lo: nat, t: Triplet) {
    exists i, k :: lo <= i < |setups| && 0 <= k < |setups[i].cards| && t == (Card, CardNamespace(setups[i]), setups[i].cards[k])
  }

  /** The card triplets of every setup, setup after setup. */
  function CardRoots(setups: seq<PlayerSetup>): (r: seq<Triplet>)
    ensures forall t :: t in r <==> CardOf(setups, 0, t)
    decreases |setups|
  {
    if setups == [] then []
    else
      var rest := CardRoots(setups[1..]);
      assert forall t :: t in rest <==> CardOf(setups, 1, t) by {
        forall t | t in rest ensures CardOf(setups, 1, t) {
          var i, k :| 0 <= i < |setups[1..]| && 0 <= k < |setups[1..][i].cards|
            && t == (Card, CardNamespace(setups[1..][i]), setups[1..][i].cards[k]);
          assert setups[1..][i] == setups[i + 1];
          assert t == (Card, CardNamespace(setups[i + 1]), setups[i + 1].cards[k]);
        }
        forall i, k | 1 <= i < |setups| && 0 <= k < |setups[i].cards|
          ensures (Card, CardNamespace(setups[i]), setups[i].cards[k]) in rest {
          assert setups[1..][i - 1] == setups[i];
        }
      }
      SetupCards(setups[0]) + rest
  }

  /** The roots `battle_dependencies` resolves: every player package, then every
      card, then the battle package if there is one. */
  function BattleRoots(setups: seq<PlayerSetup>, battle: Option<Triplet>): (r: seq<Triplet>)
    ensures |r| >= |setups|
    ensures forall i :: 0 <= i < |setups| ==> r[i] == setups[i].player
    ensures battle.Some? ==> |r| > |setups| && r[|r| - 1] == battle.value
    ensures forall t :: t in CardRoots(setups) ==> t in r
  {
    var players := seq(|setups|, i requires 0 <= i < |setups| => setups[i].player);
    var tail := if battle.Some? then [battle.value] else [];
    players + CardRoots(setups) + tail
  }

  /** `battle_dependencies`. */
  function BattleDependencies(table: PackageTable, setups: seq<PlayerSetup>, battle: Option<Triplet>): seq<PackageInfo> {
    PackageDependencyIter(table, BattleRoots(setups, battle))
  }

  /** Every card in every folder is looked up, in its setup's namespace. */
  lemma {:induction false} BattleDependenciesCards(table: PackageTable, setups: seq<PlayerSetup>, battle: Option<Triplet>, i: nat, k: nat)
    requires i < |setups| && k < |setups[i].cards|
    ensures (Card, if setups[i].local then Local else Remote(setups[i].index), setups[i].cards[k])
      in Lookups(table, BattleRoots(setups, battle))
    ensures BattleDependencies(table, setups, battle) == Resolve(table, Lookups(table, BattleRoots(setups, battle)))
  {
    var roots := BattleRoots(setups, battle);
    var players := seq(|setups|, j requires 0 <= j < |setups| => setups[j].player);
    var tail := if battle.Some? then [battle.value] else [];
    var t := (Card, CardNamespace(setups[i]), setups[i].cards[k]);
    assert t in CardRoots(setups);
    assert t in roots by {
      assert roots == players + CardRoots(setups) + tail;
    }
    DependencyIterSpec(table, roots);
  }

  // ---------------------------------------------------------------- remote namespaces

  /** The namespaces of `ns` that satisfy `keep`, each once, at its last occurrence. */
  function DistinctWhere(ns: seq<PackageNamespace>, keep: PackageNamespace -> bool): (r: seq<PackageNamespace>)
    ensures NoDup(r)
    ensures forall n :: n in r <==> n in ns && keep(n)
    decreases |ns|
  {
    if ns == [] then []
    else
      var rest := DistinctWhere(ns[1..], keep);
      assert forall n :: n in ns <==> n == ns[0] || n in ns[1..];
      if keep(ns[0]) && ns[0] !in rest then [ns[0]] + rest else rest
  }

  /**
   * `remote_namespaces`: the remote namespaces of every package manager (the
   * library manager is chained twice), without duplicates. `PackageNamespace::is_remote`
   * is a parameter.
   */
  function RemoteNamespaces(library: seq<PackageNamespace>, battle: seq<PackageNamespace>, block: seq<PackageNamespace>,
                            card: seq<PackageNamespace>, player: seq<PackageNamespace>, character: seq<PackageNamespace>,
                            isRemote: PackageNamespace -> bool): (r: seq<PackageNamespace>)
    ensures NoDup(r)
    ensures forall n :: n in r ==> isRemote(n)
    ensures forall n :: n in r <==> isRemote(n) && (n in library || n in battle || n in block || n in card || n in player || n in character)
  {
    DistinctWhere(library + battle + block + card + player + character + library, isRemote)
  }

  // ---------------------------------------------------------------- virtual packages

  /**
   * `load_virtual_package`: a Character package is refused; otherwise the category's
   * manager loads the package from its hash (`load`, yielding the package id, or
   * nothing on failure) and the info is looked up through the fallback table.
   */
  function LoadVirtualPackage(table: PackageTable, load: (PackageCategory, PackageNamespace, nat) -> Option<string>,
                              category: PackageCategory, namespace: PackageNamespace, hash: nat): (r: Option<PackageInfo>)
    ensures category == Character ==> r == None
    ensures r.Some? <==> (category != Character && load(category, namespace, hash).Some?
      && (category, namespace, load(category, namespace, hash).value) in table)
    ensures r.Some? ==> r.value == table[(category, namespace, load(category, namespace, hash).value)]
  {
    if category == Character then None
    else
      match load(category, namespace, hash)
      case None => None
      case Some(id) => if (category, namespace, id) in table then Some(table[(category, namespace, id)]) else None
  }

  /** A loaded package's info is the one dependency resolution finds for the loaded triplet. */
  lemma {:induction false} LoadedInfoResolves(table: PackageTable, load: (PackageCategory, PackageNamespace, nat) -> Option<string>,
                                              category: PackageCategory, namespace: PackageNamespace, hash: nat)
    requires category != Character && load(category, namespace, hash).Some?
    ensures var t := (category, namespace, load(category, namespace, hash).value);
      match LoadVirtualPackage(table, load, category, namespace, hash)
      case Some(info) => Resolve(table, [t]) == [info]
      case None => Resolve(table, [t]) == []
  {
    var t := (category, namespace, load(category, namespace, hash).value);
    assert [t][1..] == [];
    assert Resolve(table, [t][1..]) == [];
  }
}
