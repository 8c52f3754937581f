/**
 * The script-facing animator table: getters, setters and updaters that look an
 * animator up by arena index, the 1-based frame numbers scripts use, and the
 * conversion of `derive_state` frame data.
 */
module AnimationApi {
  import opened Wrappers
  import opened BattleWorld
  import opened BattleSimulation
  import opened CallbackQueue

  datatype DerivedFrame = DerivedFrame(frameIndex: nat, duration: nat)

  /** Scripts count frames from 1; 0 is read as the first frame too. */
  function ZeroBased(frame: nat): (r: nat)
    ensures frame <= 1 ==> r == 0
    ensures frame >= 1 ==> r + 1 == frame
  {
    Max(frame, 1) - 1
  }

  /** One `derive_state` entry: its first number is the frame, its second the duration;
      an entry with fewer than two numbers yields nothing. */
  function DeriveFrame(item: seq<nat>): (r: Option<DerivedFrame>)
    ensures r.Some? <==> |item| >= 2
    ensures r.Some? ==> r.value.frameIndex + 1 == Max(item[0], 1) && r.value.duration == item[1]
  {
    if |item| < 2 then None else Some(DerivedFrame(ZeroBased(item[0]), item[1]))
  }

  function DeriveFrames(frameData: seq<seq<nat>>): (r: seq<DerivedFrame>)
    ensures |r| <= |frameData|
  {
    if frameData == [] then []
    else
      var rest := DeriveFrames(frameData[1..]);
      match DeriveFrame(frameData[0])
      case Some(f) => [f] + rest
      case None => rest
  }

  /** The conversion works entry by entry and keeps input order. */
  lemma {:induction false} DeriveFramesAppend(a: seq<seq<nat>>, b: seq<seq<nat>>)
    ensures DeriveFrames(a + b) == DeriveFrames(a) + DeriveFrames(b)
    decreases |a|
  {
    if a == [] {
      assert a + b == b;
    } else {
      assert (a + b)[1..] == a[1..] + b;
      assert (a + b)[0] == a[0];
      DeriveFramesAppend(a[1..], b);
    }
  }

  lemma {:induction false} DeriveFramesSingle(item: seq<nat>)
    ensures |item| < 2 ==> DeriveFrames([item]) == []
    ensures |item| >= 2 ==> DeriveFrames([item]) == [DerivedFrame(ZeroBased(item[0]), item[1])]
  {
    assert [item][1..] == [];
  }

  /** Frames 0 and 1 both name the first frame. */
  lemma {:induction false} FirstFrameAliases(d: nat)
    ensures DeriveFrames([[0, d]]) == DeriveFrames([[1, d]]) == [DerivedFrame(0, d)]
  {
    DeriveFramesSingle([0, d]);
    DeriveFramesSingle([1, d]);
  }

  /** A read-only operation: fails with `AnimatorNotFound` on a missing index. */
  function Get<T>(w: World, index: nat, read: Animator -> T): (r: Result<T>)
    ensures index !in w.animators ==> r == Err(AnimatorNotFound)
    ensures index in w.animators ==> r == Ok(read(w.animators[index]))
  {
    if index in w.animators then Ok(read(w.animators[index])) else Err(AnimatorNotFound)
  }

  /** An operation that changes the animator and nothing else. */
  function Set(w: World, index: nat, update: Animator -> Animator): (r: Result<World>)
    ensures index !in w.animators <==> r == Err(AnimatorNotFound)
    ensures r.Ok? ==> r.value == w.(animators := w.animators[index := update(w.animators[index])])
  {
    if index in w.animators then Ok(w.(animators := w.animators[index := update(w.animators[index])]))
    else Err(AnimatorNotFound)
  }

  /**
   * An operation that changes the animator and returns callbacks: they are
   * appended to the pending queue, which is then flushed once.
   */
  function Update(w: World, host: Host, index: nat, update: Animator -> (Animator, seq<Callback>)): (r: Result<World>)
    ensures index !in w.animators <==> r == Err(AnimatorNotFound)
    ensures r.Ok? ==> var (a, cbs) := update(w.animators[index]);
      && r.value.animators == w.animators[index := a]
      && r.value.fired == w.fired + w.pending + cbs
      && r.value.pending == Enqueued(host, w.pending + cbs)
      && r.value.entities == w.entities && r.value.cardActions == w.cardActions
      && r.value.components == w.components && r.value.tiles == w.tiles
  {
    if index !in w.animators then Err(AnimatorNotFound)
    else
      var (a, cbs) := update(w.animators[index]);
      Ok(CallPendingCallbacks(w.(animators := w.animators[index := a], pending := w.pending + cbs), host))
  }

  function HasState(w: World, index: nat, state: string): (r: Result<bool>)
    ensures r.Ok? <==> index in w.animators
    ensures r.Ok? ==> (r.value <==> state in w.animators[index].states)
  {
    Get(w, index, (a: Animator) => state in a.states)
  }

  function HasPoint(w: World, index: nat, name: string): (r: Result<bool>)
    ensures r.Ok? <==> index in w.animators
    ensures r.Ok? ==> (r.value <==> name in w.animators[index].points)
  {
    Get(w, index, (a: Animator) => name in a.points)
  }

  /** A missing point reads as the origin `(0, 0)`. */
  function GetPoint(w: World, index: nat, name: string): (r: Result<Pos>)
    ensures r.Ok? <==> index in w.animators
    ensures r.Ok? && name in w.animators[index].points ==> r.value == w.animators[index].points[name]
    ensures r.Ok? && name !in w.animators[index].points ==> r.value == (0, 0)
  {
    Get(w, index, (a: Animator) => if name in a.points then a.points[name] else (0, 0))
  }

  function Pause(w: World, index: nat): (r: Result<World>)
    ensures r.Ok? <==> index in w.animators
    ensures r.Ok? ==> index in r.value.animators && !r.value.animators[index].enabled
  {
    Set(w, index, (a: Animator) => a.(enabled := false))
  }

  function Resume(w: World, index: nat): (r: Result<World>)
    ensures r.Ok? <==> index in w.animators
    ensures r.Ok? ==> index in r.value.animators && r.value.animators[index].enabled
  {
    Set(w, index, (a: Animator) => a.(enabled := true))
  }

  /** Pausing then resuming restores the animator. */
  lemma {:induction false} PauseResume(w: World, index: nat)
    requires index in w.animators && w.animators[index].enabled
    ensures Pause(w, index).Ok? && Resume(Pause(w, index).value, index) == Ok(w)
  {
    assert Pause(w, index).value.animators[index := w.animators[index]] == w.animators;
  }

  /** `set_state` through the updater: the state's callbacks are queued and flushed. */
  function SetState(w: World, host: Host, index: nat, state: string): (r: Result<World>)
    ensures r.Ok? <==> index in w.animators
    ensures r.Ok? ==> index in r.value.animators && r.value.animators[index].state == state
    ensures r.Ok? ==> r.value.fired == w.fired + w.pending + host.stateCallbacks(index, state)
  {
    Update(w, host, index, (a: Animator) => (a.(state := state), host.stateCallbacks(index, state)))
  }

  /** `on_frame` registers the callback for the zero-based frame. */
  function OnFrame(w: World, index: nat, frame: nat, cb: Callback): (r: Result<World>)
    ensures r.Ok? <==> index in w.animators
    ensures r.Ok? ==>
      index in r.value.animators && r.value.animators[index].frameCallbacks == w.animators[index].frameCallbacks + [(ZeroBased(frame), cb)]
  {
    Set(w, index, (a: Animator) => a.(frameCallbacks := a.frameCallbacks + [(ZeroBased(frame), cb)]))
  }

  /** `derive_state`: the converted frames handed to the animator, whose derivation is
      not part of this model. */
  function DeriveState(w: World, index: nat, frameData: seq<seq<nat>>): (r: Result<seq<DerivedFrame>>)
    ensures r.Ok? <==> index in w.animators
    ensures r.Ok? ==> r.value == DeriveFrames(frameData)
  {
    Get(w, index, _ => DeriveFrames(frameData))
  }

  /** `derive_state` and `on_frame` read script frame numbers the same way. */
  lemma {:induction false} DeriveMatchesOnFrame(frame: nat, d: nat, w: World, index: nat, cb: Callback)
    requires index in w.animators
    ensures DeriveFrames([[frame, d]])[0].frameIndex == OnFrame(w, index, frame, cb).value.animators[index].frameCallbacks[|w.animators[index].frameCallbacks|].0
  {
    DeriveFramesSingle([frame, d]);
  }
}
