/**
 * `ServerEditScene`: editing one entry of the saved server list, or a new entry
 * to be inserted after a given position.
 *
 * The UI is reduced to the queue of messages its widgets send, and to whether
 * Cancel was just pressed while the focus is not locked; writing the save file is
 * recorded as a flag.
 */
module ServerEdit {
  import opened Wrappers

  datatype ServerInfo = ServerInfo(name: string, address: string)

  datatype EditProp = Edit(index: nat) | InsertAfter(index: nat)

  datatype UiMessage = NameUpdated(name: string) | AddressUpdated(address: string) | Cancel | Save

  datatype EditScene = EditScene(prop: EditProp, info: ServerInfo, leaving: bool)

  const NEW_SERVER: ServerInfo := ServerInfo("New Server", "localhost:8765")

  /** `ServerEditScene::new`: an edit starts from the listed entry (indexing past the
      end panics), an insertion from the placeholder server. */
  function NewEditScene(list: seq<ServerInfo>, prop: EditProp): (r: Result<EditScene>)
    ensures prop.Edit? ==> (r.Ok? <==> prop.index < |list|)
    ensures r.Ok? && prop.Edit? ==> r.value.info == list[prop.index]
    ensures prop.InsertAfter? ==> r == Ok(EditScene(prop, ServerInfo("New Server", "localhost:8765"), false))
    ensures r.Ok? ==> r.value.prop == prop && !r.value.leaving
  {
    match prop
    case Edit(index) => if index < |list| then Ok(EditScene(prop, list[index], false)) else Err(Panic)
    case InsertAfter(_) => Ok(EditScene(prop, NEW_SERVER, false))
  }

  /** Where `InsertAfter(index)` puts the new entry. */
  function InsertIndex(index: nat, len: nat): (r: nat)
    ensures r <= len && r <= index + 1
    ensures r == index + 1 || r == len
  {
    Min(index + 1, len)
  }

  /** The list `Save` writes: an edit replaces its entry, an insertion adds one. */
  function SaveTo(list: seq<ServerInfo>, prop: EditProp, info: ServerInfo): (r: Result<seq<ServerInfo>>)
    ensures prop.Edit? ==> (r.Ok? <==> prop.index < |list|)
    ensures r.Ok? && prop.Edit? ==> (|r.value| == |list| && r.value[prop.index] == info
      && forall k :: 0 <= k < |list| && k != prop.index ==> r.value[k] == list[k])
    ensures prop.InsertAfter? ==>
      var k := InsertIndex(prop.index, |list|);
      r.Ok? && |r.value| == |list| + 1 && r.value[k] == info
      && (forall j :: 0 <= j < k ==> r.value[j] == list[j])
      && (forall j :: k < j <= |list| ==> r.value[j] == list[j - 1])
  {
    match prop
    case Edit(index) => if index < |list| then Ok(list[index := info]) else Err(Panic)
    case InsertAfter(index) =>
      var k := InsertIndex(index, |list|);
      InsertAt(list, k, info);
      Ok(list[..k] + [info] + list[k..])
  }

  /** Saving an insertion and then dropping the inserted entry gives the list back. */
  lemma {:induction false} InsertThenDrop(list: seq<ServerInfo>, index: nat, info: ServerInfo)
    ensures var k := InsertIndex(index, |list|);
      var r := SaveTo(list, InsertAfter(index), info).value;
      r[..k] + r[k + 1..] == list
  {
    var k := InsertIndex(index, |list|);
    var r := SaveTo(list, InsertAfter(index), info).value;
    assert r[..k] == list[..k];
    assert r[k + 1..] == list[k..];
    assert list == list[..k] + list[k..];
  }

  /** Saving an edit of the old entry back restores the list. */
  lemma {:induction false} EditThenRestore(list: seq<ServerInfo>, index: nat, info: ServerInfo)
    requires index < |list|
    ensures SaveTo(SaveTo(list, Edit(index), info).value, Edit(index), list[index]) == Ok(list)
  {
    var r := SaveTo(list, Edit(index), info).value;
    var back := SaveTo(r, Edit(index), list[index]).value;
    assert back == list;
  }

  /** The outcome of one `update`: the scene, the server list, the messages still
      queued, and whether the save file was written. */
  datatype Updated = Updated(scene: EditScene, list: seq<ServerInfo>, queue: seq<UiMessage>, saved: bool)

  /** Handles one message, if any: name and address edits change only their field,
      Cancel leaves, Save writes the list and leaves. */
  function HandleMessage(s: EditScene, list: seq<ServerInfo>, m: UiMessage): (r: Result<(EditScene, seq<ServerInfo>, bool)>)
    ensures m.NameUpdated? ==> r == Ok((s.(info := s.info.(name := m.name)), list, false))
    ensures m.AddressUpdated? ==> r == Ok((s.(info := s.info.(address := m.address)), list, false))
    ensures m.Cancel? ==> r == Ok((s.(leaving := true), list, false))
    ensures m.Save? ==> (r.Ok? <==> SaveTo(list, s.prop, s.info).Ok?)
    ensures m.Save? && r.Ok? ==> r.value == (s.(leaving := true), SaveTo(list, s.prop, s.info).value, true)
  {
    match m
    case NameUpdated(name) => Ok((s.(info := s.info.(name := name)), list, false))
    case AddressUpdated(address) => Ok((s.(info := s.info.(address := address)), list, false))
    case Cancel => Ok((s.(leaving := true), list, false))
    case Save =>
      var saved :- SaveTo(list, s.prop, s.info);
      Ok((s.(leaving := true), saved, true))
  }

  /**
   * `ServerEditScene::update`: nothing happens during a transition; otherwise at
   * most one queued message is handled, and a Cancel press with the focus free
   * also leaves.
   */
  function Update(s: EditScene, list: seq<ServerInfo>, queue: seq<UiMessage>, inTransition: bool, cancelPressed: bool)
    : (r: Result<Updated>)
    ensures inTransition ==> r == Ok(Updated(s, list, queue, false))
    ensures r.Ok? ==> r.value.queue == queue || (queue != [] && r.value.queue == queue[1..])
    ensures r.Ok? && !inTransition && queue != [] ==> r.value.queue == queue[1..]
    ensures r.Ok? && !inTransition && cancelPressed ==> r.value.scene.leaving
    ensures r.Ok? ==> r.value.scene.prop == s.prop
    ensures r.Ok? && r.value.saved ==> !inTransition && queue != [] && queue[0].Save?
  {
    if inTransition then Ok(Updated(s, list, queue, false))
    else if queue == [] then Ok(Updated(s.(leaving := s.leaving || cancelPressed), list, queue, false))
    else
      var (s1, list1, saved) :- HandleMessage(s, list, queue[0]);
      Ok(Updated(s1.(leaving := s1.leaving || cancelPressed), list1, queue[1..], saved))
  }
}
