/**
 * Pre-battle readiness bookkeeping of `NetplayInitScene`: the choice of the local
 * player index, the state each incoming packet updates, and the predicates that
 * decide when packages are shared and when the battle may start.
 *
 * Transport is outside the model: what the scene sends is appended to `outbox`,
 * a package's zip is represented by its hash, the random seed of `broadcast_ready`
 * is a parameter, and the hash of the installed server copy of a package is a
 * function parameter.
 */
module NetplayInit {
  import opened Wrappers
  import opened Globals
  import Inputs

  type Hash = nat

  // ---------------------------------------------------------------- local index

  /** The first position of `x` in `s`. */
  function Position(s: seq<nat>, x: nat): (r: Option<nat>)
    ensures r.Some? <==> x in s
    ensures r.Some? ==> r.value < |s| && s[r.value] == x
    decreases |s|
  {
    if s == [] then None
    else if s[0] == x then Some(0)
    else
      match Position(s[1..], x)
      case None => None
      case Some(k) => Some(k + 1)
  }

  predicate Increasing(s: seq<nat>) {
    forall a, b :: 0 <= a < b < |s| ==> s[a] < s[b]
  }

  /** Removing one element of an increasing sequence keeps it increasing and drops exactly that value. */
  lemma {:induction false} RemoveIncreasing(s: seq<nat>, p: nat)
    requires Increasing(s) && p < |s|
    ensures Increasing(s[..p] + s[p + 1..])
    ensures forall v :: v in s[..p] + s[p + 1..] <==> v in s && v != s[p]
  {
    var t := s[..p] + s[p + 1..];
    DeleteAt(s, p);
    forall a, b | 0 <= a < b < |t| ensures t[a] < t[b] {
      var a' := if a < p then a else a + 1;
      var b' := if b < p then b else b + 1;
      assert t[a] == s[a'] && t[b] == s[b'];
    }
    assert s[p] !in t by {
      forall k | 0 <= k < |t| ensures t[k] != s[p] {
        if k < p { assert t[k] == s[k]; } else { assert t[k] == s[k + 1]; }
      }
    }
    MultisetMembers(t, s, s[p]);
  }

  /** Membership read off `multiset(t) + {x} == multiset(s)`. */
  lemma {:induction false} MultisetMembers(t: seq<nat>, s: seq<nat>, x: nat)
    requires multiset(t) + multiset{x} == multiset(s) && x !in t
    ensures forall v :: v in t <==> v in s && v != x
  {
    forall v ensures v in t <==> v in s && v != x {
      assert v in t <==> multiset(t)[v] > 0;
      assert v in s <==> multiset(s)[v] > 0;
    }
  }

  /** `if let Some(p) = position(..) { remove(p) }` on an increasing sequence. */
  function RemoveValue(s: seq<nat>, x: nat): (r: seq<nat>)
    requires Increasing(s)
    ensures Increasing(r) && |r| + 1 >= |s|
    ensures forall v :: v in r <==> v in s && v != x
  {
    match Position(s, x)
    case None => s
    case Some(p) =>
      RemoveIncreasing(s, p);
      s[..p] + s[p + 1..]
  }

  /** The candidates `0..=n`, in order. */
  function Candidates(n: nat): (r: seq<nat>)
    ensures |r| == n + 1 && Increasing(r)
    ensures forall v: nat :: v in r <==> v <= n
  {
    var c := seq(n + 1, v requires 0 <= v <= n => v);
    assert forall v: nat :: v in c <==> v <= n by {
      forall v: nat ensures v in c <==> v <= n {
        if v <= n { assert c[v] == v; }
      }
    }
    c
  }

  /**
   * `resolve_local_index`: starting from the candidates `0..=n` for `n` remote
   * players, each remote player's index is removed, and the largest remaining
   * candidate is taken. With `n` players and `n + 1` candidates one always remains.
   */
  method ResolveLocalIndex(remote: seq<nat>) returns (r: nat)
    ensures r <= |remote| && r !in remote
    ensures forall v :: r < v <= |remote| ==> v in remote
  {
    var n := |remote|;
    var possible := Candidates(n);
    for i := 0 to n
      invariant Increasing(possible)
      invariant forall v: nat :: v in possible <==> v <= n && v !in remote[..i]
      invariant |possible| + i >= n + 1
    {
      assert remote[..i + 1] == remote[..i] + [remote[i]];
      assert forall v :: v in remote[..i + 1] <==> v in remote[..i] || v == remote[i];
      possible := RemoveValue(possible, remote[i]);
    }
    assert remote[..n] == remote;
    r := possible[|possible| - 1];
    assert r in possible;
    IncreasingLast(possible);
  }

  /** The last element of an increasing sequence is its largest. */
  lemma {:induction false} IncreasingLast(s: seq<nat>)
    requires Increasing(s) && s != []
    ensures forall v :: v in s ==> v <= s[|s| - 1]
  {
    forall v | v in s ensures v <= s[|s| - 1] {
      var k :| 0 <= k < |s| && s[k] == v;
      if k < |s| - 1 {
        assert s[k] < s[|s| - 1];
      }
    }
  }

  // ---------------------------------------------------------------- scene state

  /** What the scene knows of one remote player. */
  datatype Connection = Connection(
    index: nat,
    playerPackage: string,
    cards: seq<(string, string)>,
    loadMap: map<Hash, PackageCategory>,
    requested: Option<seq<Hash>>,
    readyForPackages: bool,
    receivedPackageList: bool,
    ready: bool,
    inputBuffer: seq<seq<Inputs.Input>>)

  /** What the scene sends or starts, in order. */
  datatype Outgoing =
    | SendMissing(to: nat, list: seq<Hash>)
    | BroadcastReadyForPackages
    | SendZip(to: nat, hash: Hash)
    | BroadcastZips(hashes: set<Hash>)
    | BroadcastReady(seed: nat)
    | LoadPackage(category: PackageCategory, namespace: PackageNamespace, hash: Hash)

  datatype Scene = Scene(
    localIndex: nat,
    failed: bool,
    seed: nat,
    missing: set<Hash>,
    connections: seq<Connection>,
    fallback: bool,
    outbox: seq<Outgoing>)

  /** A fresh connection for remote player `index`. */
  function NewConnection(index: nat): (r: Connection)
    ensures r.index == index && r.requested == None && r.inputBuffer == []
    ensures !r.readyForPackages && !r.receivedPackageList && !r.ready
  {
    Connection(index, "", [], map[], None, false, false, false, [])
  }

  /** `NetplayInitScene::new`, for remote players with the given indices and local index. */
  function NewScene(remote: seq<nat>, localIndex: nat): (r: Scene)
    ensures |r.connections| == |remote|
    ensures forall j :: 0 <= j < |remote| ==> r.connections[j] == NewConnection(remote[j])
    ensures r.seed == 0 && r.missing == {} && !r.failed && r.outbox == []
  {
    Scene(localIndex, false, 0, {}, seq(|remote|, j requires 0 <= j < |remote| => NewConnection(remote[j])), false, [])
  }

  // ---------------------------------------------------------------- readiness

  /** `received_every_package_list`. */
  function EveryPackageList(cs: seq<Connection>): (r: bool)
    ensures r <==> forall j :: 0 <= j < |cs| ==> cs[j].receivedPackageList
    decreases |cs|
  {
    if cs == [] then true else cs[0].receivedPackageList && EveryPackageList(cs[1..])
  }

  /** Every connection is ready (the `all` of `all_ready`). */
  function EveryReady(cs: seq<Connection>): (r: bool)
    ensures r <==> forall j :: 0 <= j < |cs| ==> cs[j].ready
    decreases |cs|
  {
    if cs == [] then true else cs[0].ready && EveryReady(cs[1..])
  }

  /** `received_every_missing_list`. */
  function EveryMissingList(cs: seq<Connection>): (r: bool)
    ensures r <==> forall j :: 0 <= j < |cs| ==> cs[j].requested.Some?
    decreases |cs|
  {
    if cs == [] then true else cs[0].requested.Some? && EveryMissingList(cs[1..])
  }

  /** `all_ready_for_packages`. */
  function EveryReadyForPackages(cs: seq<Connection>): (r: bool)
    ensures r <==> forall j :: 0 <= j < |cs| ==> cs[j].readyForPackages
    decreases |cs|
  {
    if cs == [] then true else cs[0].readyForPackages && EveryReadyForPackages(cs[1..])
  }

  /** `received_every_zip`: nothing is missing and every package list arrived. */
  function ReceivedEveryZip(s: Scene): (r: bool)
    ensures r <==> s.missing == {} && forall j :: 0 <= j < |s.connections| ==> s.connections[j].receivedPackageList
  {
    s.missing == {} && EveryPackageList(s.connections)
  }

  /** `all_ready`: every zip arrived and every remote player is ready. */
  function AllReady(s: Scene): (r: bool)
    ensures r <==> (s.missing == {}
      && (forall j :: 0 <= j < |s.connections| ==> s.connections[j].receivedPackageList)
      && (forall j :: 0 <= j < |s.connections| ==> s.connections[j].ready))
  {
    ReceivedEveryZip(s) && EveryReady(s.connections)
  }

  // ---------------------------------------------------------------- packets

  /** The packets of the netplay protocol, as far as the scene reads them; a zip is its hash. */
  datatype Packet =
    | Hello(index: nat)
    | HelloAck(index: nat)
    | Heartbeat(index: nat)
    | PlayerSetup(index: nat, playerPackage: string, cards: seq<(string, string)>)
    | PackageList(index: nat, packages: seq<(PackageCategory, string, Hash)>)
    | MissingPackages(index: nat, recipient: nat, list: seq<Hash>)
    | ReadyForPackages(index: nat)
    | PackageZip(index: nat, hash: Hash)
    | Ready(index: nat, seed: nat)
    | Input(index: nat, pressed: seq<Byte>)
    | Disconnect(index: nat)

  /** What no packet changes: the local index, the connections' player indices, and
      the seed, which can only grow. */
  ghost predicate Keeps(s: Scene, r: Scene) {
    r.localIndex == s.localIndex && r.seed >= s.seed
    && |r.connections| == |s.connections|
    && forall j :: 0 <= j < |s.connections| ==> r.connections[j].index == s.connections[j].index
  }

  /** The first connection with the given player index. */
  function FindConnection(cs: seq<Connection>, index: nat): (r: Option<nat>)
    ensures r.None? <==> forall j :: 0 <= j < |cs| ==> cs[j].index != index
    ensures r.Some? ==> r.value < |cs| && cs[r.value].index == index
    ensures r.Some? ==> forall j :: 0 <= j < r.value ==> cs[j].index != index
    decreases |cs|
  {
    if cs == [] then None
    else if cs[0].index == index then Some(0)
    else
      match FindConnection(cs[1..], index)
      case None => None
      case Some(k) => Some(k + 1)
  }

  /** `broadcast_ready`: announces a fresh seed and keeps the larger of it and the current one. */
  function AnnounceReady(s: Scene, nonce: nat): (r: Scene)
    ensures r.seed == Max(s.seed, nonce)
    ensures r.outbox == s.outbox + [BroadcastReady(nonce)]
    ensures r == s.(seed := r.seed, outbox := r.outbox)
  {
    s.(seed := Max(s.seed, nonce), outbox := s.outbox + [BroadcastReady(nonce)])
  }

  /** The listed packages whose server copy is missing or has a different hash. */
  function LoadList(packages: seq<(PackageCategory, string, Hash)>, serverHash: (PackageCategory, string) -> Option<Hash>)
    : (r: seq<(PackageCategory, string, Hash)>)
    ensures forall x :: x in r <==> x in packages && serverHash(x.0, x.1) != Some(x.2)
    decreases |packages|
  {
    if packages == [] then []
    else
      var rest := LoadList(packages[1..], serverHash);
      assert forall x :: x in packages <==> x == packages[0] || x in packages[1..];
      if serverHash(packages[0].0, packages[0].1) != Some(packages[0].2) then [packages[0]] + rest else rest
  }

  /** The hashes of a package list, in order. */
  function HashesOf(loads: seq<(PackageCategory, string, Hash)>): (r: seq<Hash>)
    ensures |r| == |loads| && forall k :: 0 <= k < |loads| ==> r[k] == loads[k].2
  {
    seq(|loads|, k requires 0 <= k < |loads| => loads[k].2)
  }

  /** The hashes of the load list that are not tracked yet, in order (a hash listed twice appears twice). */
  function NewHashes(loads: seq<(PackageCategory, string, Hash)>, missing: set<Hash>): (r: seq<Hash>)
    ensures forall h :: h in r <==> h in HashesOf(loads) && h !in missing
    decreases |loads|
  {
    if loads == [] then []
    else
      var rest := NewHashes(loads[1..], missing);
      assert HashesOf(loads) == [loads[0].2] + HashesOf(loads[1..]);
      if loads[0].2 !in missing then [loads[0].2] + rest else rest
  }

  /** `load_map.insert(hash, category)` for each entry of the load list, in order: a later entry overwrites. */
  function TrackLoads(m: map<Hash, PackageCategory>, loads: seq<(PackageCategory, string, Hash)>): (r: map<Hash, PackageCategory>)
    ensures forall h :: h in r <==> h in m || h in HashesOf(loads)
    ensures forall h :: h in m && h !in HashesOf(loads) ==> r[h] == m[h]
    ensures forall k :: 0 <= k < |loads| && (forall j :: k < j < |loads| ==> loads[j].2 != loads[k].2) ==>
      loads[k].2 in r && r[loads[k].2] == loads[k].0
    decreases |loads|
  {
    if loads == [] then m
    else
      var n := |loads| - 1;
      var init, last := loads[..n], loads[n];
      var prefix := TrackLoads(m, init);
      var r := prefix[last.2 := last.0];
      assert HashesOf(loads) == HashesOf(init) + [last.2];
      assert forall k :: 0 <= k < |loads| && (forall j :: k < j < |loads| ==> loads[j].2 != loads[k].2) ==>
        loads[k].2 in r && r[loads[k].2] == loads[k].0 by {
        forall k | 0 <= k < n && (forall j :: k < j < |loads| ==> loads[j].2 != loads[k].2)
          ensures loads[k].2 in r && r[loads[k].2] == loads[k].0
        {
          assert loads[n].2 != loads[k].2 && init[k] == loads[k];
          assert forall j :: k < j < n ==> init[j].2 != init[k].2;
        }
      }
      r
  }

  /** A hash of the package list needs downloading: the server copy is missing or differs. */
  ghost predicate Needed(packages: seq<(PackageCategory, string, Hash)>, serverHash: (PackageCategory, string) -> Option<Hash>, h: Hash) {
    exists k :: 0 <= k < |packages| && packages[k].2 == h && serverHash(packages[k].0, packages[k].1) != Some(h)
  }

  lemma {:induction false} LoadListNeeded(packages: seq<(PackageCategory, string, Hash)>, serverHash: (PackageCategory, string) -> Option<Hash>)
    ensures forall h :: h in HashesOf(LoadList(packages, serverHash)) <==> Needed(packages, serverHash, h)
  {
    var loads := LoadList(packages, serverHash);
    forall h ensures h in HashesOf(loads) <==> Needed(packages, serverHash, h) {
      if h in HashesOf(loads) {
        var k :| 0 <= k < |loads| && HashesOf(loads)[k] == h;
        assert loads[k] in loads;
        var k' :| 0 <= k' < |packages| && packages[k'] == loads[k];
      }
      if Needed(packages, serverHash, h) {
        var k :| 0 <= k < |packages| && packages[k].2 == h && serverHash(packages[k].0, packages[k].1) != Some(h);
        assert packages[k] in packages;
        var k' :| 0 <= k' < |loads| && loads[k'] == packages[k];
        assert HashesOf(loads)[k'] == h;
      }
    }
  }

  /** The bookkeeping half of `PackageList`: the list is marked received, the loads
      are tracked for the sender and the new hashes join the missing set. */
  function TrackList(s: Scene, i: nat, loads: seq<(PackageCategory, string, Hash)>, list: seq<Hash>): (r: Scene)
    requires i < |s.connections|
    ensures r.missing == s.missing + (set h | h in list)
    ensures r.connections == s.connections[i := s.connections[i].(receivedPackageList := true,
      loadMap := TrackLoads(s.connections[i].loadMap, loads))]
    ensures r == s.(missing := r.missing, connections := r.connections)
  {
    var c := s.connections[i].(receivedPackageList := true, loadMap := TrackLoads(s.connections[i].loadMap, loads));
    s.(connections := s.connections[i := c], missing := s.missing + (set h | h in list))
  }

  /** `PackageList`: marks the list received, tracks what must be loaded, records the
      hashes not tracked yet as missing, and requests exactly those from the sender. */
  function OnPackageList(s: Scene, i: nat, index: nat, packages: seq<(PackageCategory, string, Hash)>,
                         serverHash: (PackageCategory, string) -> Option<Hash>, nonce: nat): (r: Scene)
    requires i < |s.connections|
    ensures r.missing == s.missing + (set h | h in NewHashes(LoadList(packages, serverHash), s.missing))
    ensures |r.outbox| > |s.outbox| && r.outbox[|r.outbox| - 1] == SendMissing(index, NewHashes(LoadList(packages, serverHash), s.missing))
    ensures r.connections == s.connections[i := s.connections[i].(receivedPackageList := true,
      loadMap := TrackLoads(s.connections[i].loadMap, LoadList(packages, serverHash)))]
    ensures Keeps(s, r) && r.failed == s.failed && r.fallback == s.fallback
  {
    var loads := LoadList(packages, serverHash);
    var list := NewHashes(loads, s.missing);
    var s1 := TrackList(s, i, loads, list);
    var s2 := if list == [] && ReceivedEveryZip(s1) then AnnounceReady(s1, nonce) else s1;
    s2.(outbox := s2.outbox + [SendMissing(index, list)])
  }

  /** The request a `PackageList` answers with names exactly the needed hashes not
      tracked before, and afterwards every needed hash is tracked. */
  lemma {:induction false} PackageListRequestsUntracked(s: Scene, i: nat, index: nat, packages: seq<(PackageCategory, string, Hash)>,
                                                        serverHash: (PackageCategory, string) -> Option<Hash>, nonce: nat, h: Hash)
    requires i < |s.connections|
    ensures h in NewHashes(LoadList(packages, serverHash), s.missing) <==> Needed(packages, serverHash, h) && h !in s.missing
    ensures h in OnPackageList(s, i, index, packages, serverHash, nonce).missing <==> h in s.missing || Needed(packages, serverHash, h)
  {
    LoadListNeeded(packages, serverHash);
  }

  /** `MissingPackages`: recorded only when addressed to the local player; once every
      remote player's list is in, readiness for packages is broadcast. */
  function OnMissingPackages(s: Scene, i: nat, recipient: nat, list: seq<Hash>): (r: Scene)
    requires i < |s.connections|
    ensures recipient != s.localIndex ==> r == s
    ensures recipient == s.localIndex ==> r.connections == s.connections[i := s.connections[i].(requested := Some(list))]
    ensures recipient == s.localIndex ==>
      r.outbox == s.outbox + (if forall j :: 0 <= j < |r.connections| ==> r.connections[j].requested.Some?
        then [BroadcastReadyForPackages] else [])
    ensures r == s.(connections := r.connections, outbox := r.outbox)
    ensures Keeps(s, r)
  {
    if s.localIndex != recipient then s
    else
      var s1 := s.(connections := s.connections[i := s.connections[i].(requested := Some(list))]);
      if EveryMissingList(s1.connections) then s1.(outbox := s1.outbox + [BroadcastReadyForPackages]) else s1
  }

  /** Every connection with its request taken. */
  function ClearRequests(cs: seq<Connection>): (r: seq<Connection>)
    ensures |r| == |cs| && forall j :: 0 <= j < |cs| ==> r[j] == cs[j].(requested := None)
  {
    seq(|cs|, j requires 0 <= j < |cs| => cs[j].(requested := None))
  }

  /** The union of every requested list (`unwrap_or_default` for a missing one). */
  function RequestedUnion(cs: seq<Connection>): (r: set<Hash>)
    ensures forall h :: h in r <==> exists j :: 0 <= j < |cs| && h in cs[j].requested.GetOr([])
    decreases |cs|
  {
    if cs == [] then {}
    else
      var rest := RequestedUnion(cs[1..]);
      assert forall h :: h in rest <==> exists j :: 1 <= j < |cs| && h in cs[j].requested.GetOr([]) by {
        forall h | h in rest ensures exists j :: 1 <= j < |cs| && h in cs[j].requested.GetOr([]) {
          var j :| 0 <= j < |cs[1..]| && h in cs[1..][j].requested.GetOr([]);
          assert cs[1..][j] == cs[j + 1];
        }
        forall h, j | 1 <= j < |cs| && h in cs[j].requested.GetOr([]) ensures h in rest {
          assert cs[1..][j - 1] == cs[j];
        }
      }
      (set h | h in cs[0].requested.GetOr([])) + rest
  }

  /** One zip per requested hash, sent to the requesting player, connection after connection. */
  function ZipsFor(cs: seq<Connection>): (r: seq<Outgoing>)
    requires forall j :: 0 <= j < |cs| ==> cs[j].requested.Some?
    ensures forall j, h :: 0 <= j < |cs| && h in cs[j].requested.value ==> SendZip(cs[j].index, h) in r
    ensures forall o :: o in r ==> o.SendZip?
    decreases |cs|
  {
    if cs == [] then []
    else
      var here := seq(|cs[0].requested.value|, k requires 0 <= k < |cs[0].requested.value| => SendZip(cs[0].index, cs[0].requested.value[k]));
      var rest := ZipsFor(cs[1..]);
      assert forall j, h :: 1 <= j < |cs| && h in cs[j].requested.value ==> SendZip(cs[j].index, h) in rest by {
        forall j, h | 1 <= j < |cs| && h in cs[j].requested.value ensures SendZip(cs[j].index, h) in rest {
          assert cs[1..][j - 1] == cs[j];
        }
      }
      assert forall h :: h in cs[0].requested.value ==> SendZip(cs[0].index, h) in here by {
        forall h | h in cs[0].requested.value ensures SendZip(cs[0].index, h) in here {
          var k :| 0 <= k < |cs[0].requested.value| && cs[0].requested.value[k] == h;
          assert here[k] == SendZip(cs[0].index, h);
        }
      }
      here + rest
  }

  /**
   * `share_packages`: every request is taken. Through the fallback relay the union
   * of the requests is broadcast; otherwise each player's list is sent to it, and a
   * player that sent no list makes `unwrap` panic.
   */
  function SharePackages(s: Scene): (r: Result<Scene>)
    ensures r.Err? <==> !s.fallback && exists j :: 0 <= j < |s.connections| && s.connections[j].requested.None?
    ensures r.Ok? ==> r.value.connections == ClearRequests(s.connections)
    ensures r.Ok? && s.fallback ==> r.value.outbox == s.outbox + [BroadcastZips(RequestedUnion(s.connections))]
    ensures r.Ok? && !s.fallback ==> forall j, h :: 0 <= j < |s.connections| && h in s.connections[j].requested.GetOr([]) ==>
      SendZip(s.connections[j].index, h) in r.value.outbox
    ensures r.Ok? ==> r.value == s.(connections := r.value.connections, outbox := r.value.outbox)
  {
    if s.fallback then
      Ok(s.(connections := ClearRequests(s.connections), outbox := s.outbox + [BroadcastZips(RequestedUnion(s.connections))]))
    else if !EveryMissingList(s.connections) then Err(Panic)
    else
      var zips := ZipsFor(s.connections);
      Ok(s.(connections := ClearRequests(s.connections), outbox := s.outbox + zips))
  }

  /** `ReadyForPackages`: marks the sender; once every remote player is ready, packages are shared. */
  function OnReadyForPackages(s: Scene, i: nat): (r: Result<Scene>)
    requires i < |s.connections|
    ensures var s1 := s.(connections := s.connections[i := s.connections[i].(readyForPackages := true)]);
      r == if forall j :: 0 <= j < |s1.connections| ==> s1.connections[j].readyForPackages then SharePackages(s1) else Ok(s1)
    ensures r.Ok? ==> Keeps(s, r.value)
  {
    var s1 := s.(connections := s.connections[i := s.connections[i].(readyForPackages := true)]);
    if EveryReadyForPackages(s1.connections) then SharePackages(s1) else Ok(s1)
  }

  /** `load_map.remove(&hash)` on every connection, loading the package into the
      connection's remote namespace for each connection that tracked the hash. */
  function Unload(cs: seq<Connection>, hash: Hash): (r: (seq<Connection>, seq<Outgoing>))
    ensures |r.0| == |cs| && forall j :: 0 <= j < |cs| ==> r.0[j] == cs[j].(loadMap := cs[j].loadMap - {hash})
    ensures forall j :: 0 <= j < |cs| && hash in cs[j].loadMap ==>
      LoadPackage(cs[j].loadMap[hash], Remote(cs[j].index), hash) in r.1
    ensures forall o :: o in r.1 ==> o.LoadPackage? && o.hash == hash && o.namespace.Remote?
    ensures |r.1| <= |cs|
    decreases |cs|
  {
    if cs == [] then ([], [])
    else
      var rest := Unload(cs[1..], hash);
      var here := if hash in cs[0].loadMap then [LoadPackage(cs[0].loadMap[hash], Remote(cs[0].index), hash)] else [];
      assert forall j :: 1 <= j < |cs| && hash in cs[j].loadMap ==>
        LoadPackage(cs[j].loadMap[hash], Remote(cs[j].index), hash) in rest.1 by {
        forall j | 1 <= j < |cs| && hash in cs[j].loadMap
          ensures LoadPackage(cs[j].loadMap[hash], Remote(cs[j].index), hash) in rest.1 {
          assert cs[1..][j - 1] == cs[j];
        }
      }
      ([cs[0].(loadMap := cs[0].loadMap - {hash})] + rest.0, here + rest.1)
  }

  /**
   * `PackageZip`: a tracked hash leaves the missing set and its package is loaded
   * for every player that listed it, and readiness is announced once every zip is
   * in; an untracked zip fails the scene when the players are connected directly
   * and is ignored through the fallback relay.
   */
  function OnPackageZip(s: Scene, hash: Hash, nonce: nat): (r: Scene)
    ensures hash in s.missing ==> r.missing == s.missing - {hash} && !r.failed == !s.failed
    ensures hash in s.missing ==> r.connections == Unload(s.connections, hash).0
    ensures hash in s.missing ==> forall j :: 0 <= j < |s.connections| && hash in s.connections[j].loadMap ==>
      LoadPackage(s.connections[j].loadMap[hash], Remote(s.connections[j].index), hash) in r.outbox
    ensures hash in s.missing ==>
      r.outbox == s.outbox + Unload(s.connections, hash).1 + (if ReceivedEveryZip(r) then [BroadcastReady(nonce)] else [])
    ensures hash in s.missing ==> r.seed == if ReceivedEveryZip(r) then Max(s.seed, nonce) else s.seed
    ensures hash !in s.missing && !s.fallback ==> r == s.(failed := true)
    ensures hash !in s.missing && s.fallback ==> r == s
    ensures Keeps(s, r)
  {
    if hash in s.missing then
      var (cs, loads) := Unload(s.connections, hash);
      var s1 := s.(missing := s.missing - {hash}, connections := cs, outbox := s.outbox + loads);
      if ReceivedEveryZip(s1) then AnnounceReady(s1, nonce) else s1
    else if !s.fallback then s.(failed := true)
    else s
  }

  /** The last missing zip, once every package list is in, announces readiness. */
  lemma {:induction false} LastZipAnnouncesReady(s: Scene, hash: Hash, nonce: nat)
    requires s.missing == {hash}
    requires forall j :: 0 <= j < |s.connections| ==> s.connections[j].receivedPackageList
    ensures ReceivedEveryZip(OnPackageZip(s, hash, nonce))
    ensures OnPackageZip(s, hash, nonce).seed == Max(s.seed, nonce)
  {
    var r := OnPackageZip(s, hash, nonce);
    assert r.connections == Unload(s.connections, hash).0;
    assert forall j :: 0 <= j < |r.connections| ==> r.connections[j].receivedPackageList;
  }

  /** `PlayerSetup`: the sender's player package and folder are replaced. */
  function OnPlayerSetup(s: Scene, i: nat, pkg: string, cards: seq<(string, string)>): (r: Scene)
    requires i < |s.connections|
    ensures Keeps(s, r) && r == s.(connections := r.connections)
    ensures r.connections[i].playerPackage == pkg && r.connections[i].cards == cards
    ensures forall j :: 0 <= j < |s.connections| && j != i ==> r.connections[j] == s.connections[j]
  {
    s.(connections := s.connections[i := s.connections[i].(playerPackage := pkg, cards := cards)])
  }

  /** `Ready`: the sender is ready and the larger seed is kept. */
  function OnReady(s: Scene, i: nat, seed: nat): (r: Scene)
    requires i < |s.connections|
    ensures Keeps(s, r) && r == s.(seed := r.seed, connections := r.connections)
    ensures r.seed == Max(s.seed, seed) && r.connections[i].ready
    ensures forall j :: 0 <= j < |s.connections| && j != i ==> r.connections[j] == s.connections[j]
  {
    s.(seed := Max(s.seed, seed), connections := s.connections[i := s.connections[i].(ready := true)])
  }

  /** `Input`: the decoded inputs, invalid bytes dropped, join the back of the sender's buffer. */
  function OnInput(s: Scene, i: nat, pressed: seq<Byte>): (r: Scene)
    requires i < |s.connections|
    ensures Keeps(s, r) && r == s.(connections := r.connections)
    ensures r.connections[i].inputBuffer == s.connections[i].inputBuffer + [Inputs.DecodeAll(pressed)]
    ensures forall j :: 0 <= j < |s.connections| && j != i ==> r.connections[j] == s.connections[j]
  {
    var c := s.connections[i];
    s.(connections := s.connections[i := c.(inputBuffer := c.inputBuffer + [Inputs.DecodeAll(pressed)])])
  }

  /** What `handle_packet` does with a packet from connection `i`. */
  function Dispatch(s: Scene, i: nat, p: Packet, serverHash: (PackageCategory, string) -> Option<Hash>, nonce: nat): (r: Result<Scene>)
    requires i < |s.connections|
    ensures r.Err? ==> p.ReadyForPackages?
    ensures r.Ok? ==> Keeps(s, r.value)
    ensures p.MissingPackages? && p.recipient != s.localIndex ==> r == Ok(s)
  {
    match p
    case Hello(_) => Ok(s)
    case HelloAck(_) => Ok(s)
    case Heartbeat(_) => Ok(s)
    case PlayerSetup(_, pkg, cards) => Ok(OnPlayerSetup(s, i, pkg, cards))
    case PackageList(index, packages) => Ok(OnPackageList(s, i, index, packages, serverHash, nonce))
    case MissingPackages(_, recipient, list) => Ok(OnMissingPackages(s, i, recipient, list))
    case ReadyForPackages(_) => OnReadyForPackages(s, i)
    case PackageZip(_, hash) => Ok(OnPackageZip(s, hash, nonce))
    case Ready(_, seed) => Ok(OnReady(s, i, seed))
    case Input(_, pressed) => Ok(OnInput(s, i, pressed))
    case Disconnect(_) => Ok(s.(failed := true))
  }

  /** `handle_packet`: a packet from a player index no connection has is ignored;
      otherwise the first connection with that index handles it. */
  function HandlePacket(s: Scene, p: Packet, serverHash: (PackageCategory, string) -> Option<Hash>, nonce: nat): (r: Result<Scene>)
    ensures (forall j :: 0 <= j < |s.connections| ==> s.connections[j].index != p.index) ==> r == Ok(s)
    ensures r.Err? ==> p.ReadyForPackages?
    ensures r.Ok? ==> Keeps(s, r.value)
    ensures p.MissingPackages? && p.recipient != s.localIndex ==> r == Ok(s)
  {
    match FindConnection(s.connections, p.index)
    case None => Ok(s)
    case Some(i) => Dispatch(s, i, p, serverHash, nonce)
  }

  /** A packet from a known player is handled by the first connection with its index. */
  lemma {:induction false} HandledByFirst(s: Scene, p: Packet, serverHash: (PackageCategory, string) -> Option<Hash>, nonce: nat, i: nat)
    requires i < |s.connections| && s.connections[i].index == p.index
    requires forall j :: 0 <= j < i ==> s.connections[j].index != p.index
    ensures HandlePacket(s, p, serverHash, nonce) == Dispatch(s, i, p, serverHash, nonce)
    ensures p.Ready? ==> HandlePacket(s, p, serverHash, nonce) == Ok(OnReady(s, i, p.seed))
    ensures p.Input? ==> HandlePacket(s, p, serverHash, nonce) == Ok(OnInput(s, i, p.pressed))
    ensures p.Disconnect? ==> HandlePacket(s, p, serverHash, nonce) == Ok(s.(failed := true))
  {
    assert FindConnection(s.connections, p.index) == Some(i);
  }
}
