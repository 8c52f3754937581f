/**
 * Switching states and frames of a loaded `Animation` (bnAnimation.cpp).
 *
 * The animator and its callbacks are reduced to what `Animation` does with them:
 * the frame it last told the animator to show, the list of queued callbacks
 * (opaque tokens) and the interrupt callback. `FrameList` is not part of this
 * model: a state's total duration is taken to be the sum of its frame durations,
 * and `GetFrame(i)` its frame `i`.
 */
module LegacyAnimation {
  import opened Wrappers
  import opened AnimationFile

  datatype Animation = Animation(
    path: string,
    animations: map<string, FrameList>,
    current: string,
    noAnim: bool,
    progress: real,
    shownFrame: int,
    callbacks: seq<nat>,
    interrupt: Option<nat>)

  /** The summed durations of `frames`. */
  function Sum(frames: seq<Frame>): real
    decreases |frames|
  {
    if frames == [] then 0.0 else frames[0].duration + Sum(frames[1..])
  }

  predicate NonNegative(frames: seq<Frame>) {
    forall k :: 0 <= k < |frames| ==> frames[k].duration >= 0.0
  }

  /** With no negative duration, a prefix never lasts longer than the whole. */
  lemma {:induction false} SumPrefix(frames: seq<Frame>, n: nat)
    requires n <= |frames| && NonNegative(frames)
    ensures 0.0 <= Sum(frames[..n]) <= Sum(frames)
    decreases n
  {
    if n > 0 {
      assert frames[..n][1..] == frames[1..][..n - 1];
      SumPrefix(frames[1..], n - 1);
    } else {
      SumNonNegative(frames);
    }
  }

  lemma {:induction false} SumNonNegative(frames: seq<Frame>)
    requires NonNegative(frames)
    ensures Sum(frames) >= 0.0
    decreases |frames|
  {
    if frames != [] {
      SumNonNegative(frames[1..]);
    }
  }

  /** `GetStateDuration`: the state's total duration, or 0 for a state not loaded; the name is not upper-cased. */
  function GetStateDuration(a: Animation, state: string): (r: real)
    ensures state !in a.animations ==> r == 0.0
    ensures state in a.animations && NonNegative(a.animations[state].frames) ==> r >= 0.0
  {
    if state in a.animations then
      SumNonNegativeIf(a.animations[state].frames);
      Sum(a.animations[state].frames)
    else 0.0
  }

  lemma {:induction false} SumNonNegativeIf(frames: seq<Frame>)
    ensures NonNegative(frames) ==> Sum(frames) >= 0.0
  {
    if NonNegative(frames) {
      SumNonNegative(frames);
    }
  }

  /**
   * `HandleInterrupted`: a set interrupt callback fires, and is cleared, when the
   * progress has not reached the current state's total duration. Looking the state
   * up with `operator[]` adds an empty frame list for a state not loaded.
   */
  function HandleInterrupted(a: Animation): (r: (Animation, seq<nat>))
    ensures a.interrupt.None? ==> r == (a, [])
    ensures a.interrupt.Some? ==> r.0.current in r.0.animations && r.0.animations.Keys == a.animations.Keys + {a.current}
    ensures forall k :: k in a.animations ==> k in r.0.animations && r.0.animations[k] == a.animations[k]
    ensures |r.1| <= 1 && (r.1 != [] <==> r.0.interrupt.None? && a.interrupt.Some?)
    ensures r.1 != [] ==> r.1 == [a.interrupt.value] && a.progress < GetStateDuration(r.0, a.current)
    ensures a.interrupt.Some? && a.progress < GetStateDuration(r.0, a.current) ==>
      r.1 == [a.interrupt.value] && r.0.interrupt.None?
    ensures r.1 == [] ==> r.0.interrupt == a.interrupt
    ensures r.0.current == a.current && r.0.progress == a.progress && r.0.callbacks == a.callbacks
  {
    match a.interrupt
    case None => (a, [])
    case Some(callback) =>
      var animations := if a.current in a.animations then a.animations else a.animations[a.current := FrameList([], [])];
      var b := a.(animations := animations);
      if a.progress < GetStateDuration(b, a.current) then (b.(interrupt := None), [callback]) else (b, [])
  }

  /**
   * `SetAnimation`: after the interrupt is handled, all callbacks are dropped, the
   * progress restarts, and the upper-cased state becomes current whether or not it
   * is loaded; `noAnim` records that it is not. Returns the callbacks that fired.
   */
  function SetAnimation(a: Animation, state: string): (r: (Animation, seq<nat>))
    ensures r.0.current == ToUpper(state)
    ensures r.0.noAnim <==> ToUpper(state) !in r.0.animations
    ensures r.0.progress == 0.0 && r.0.callbacks == [] && r.0.interrupt.None?
    ensures r.0.path == a.path && r.0.shownFrame == a.shownFrame
    ensures forall k :: k in a.animations ==> k in r.0.animations && r.0.animations[k] == a.animations[k]
    ensures r.0.animations.Keys <= a.animations.Keys + {a.current}
    ensures r.1 == HandleInterrupted(a).1
  {
    var (b, fired) := HandleInterrupted(a);
    var upper := ToUpper(state);
    (b.(callbacks := [], interrupt := None, progress := 0.0, noAnim := upper !in b.animations, current := upper), fired)
  }

  /** Two names that differ only in letter case select the same state. */
  lemma {:induction false} SetAnimationIgnoresCase(a: Animation, s: string, t: string)
    requires ToUpper(s) == ToUpper(t)
    ensures SetAnimation(a, s) == SetAnimation(a, t)
  {
  }

  /** A state that was loaded plays, and its duration is the one `GetStateDuration` reports for its upper-case name. */
  lemma {:induction false} SetLoadedAnimation(a: Animation, state: string)
    requires ToUpper(state) in a.animations
    ensures !SetAnimation(a, state).0.noAnim
    ensures GetStateDuration(SetAnimation(a, state).0, SetAnimation(a, state).0.current) == GetStateDuration(a, ToUpper(state))
  {
  }

  /**
   * `SetFrame`: nothing changes without a path, without states or when the current
   * state is not loaded; a frame outside `1..count` shows the last frame with
   * progress 0; otherwise frame `frame` is shown and the progress is the time spent
   * in the frames before it.
   */
  method SetFrame(a: Animation, frame: int) returns (r: Animation)
    ensures a.path == [] || a.animations == map[] || a.current !in a.animations ==> r == a
    ensures a.path != [] && a.current in a.animations ==>
      var frames := a.animations[a.current].frames;
      if frame <= 0 || frame > |frames| then r == a.(progress := 0.0, shownFrame := |frames|)
      else r == a.(progress := Sum(frames[..frame]), shownFrame := frame)
  {
    if a.path == [] || a.animations == map[] || a.current !in a.animations {
      return a;
    }
    var frames := a.animations[a.current].frames;
    var size := |frames|;
    if frame <= 0 || frame > size {
      return a.(progress := 0.0, shownFrame := size);
    }
    var progress := 0.0;
    var k := frame;
    while k > 0
      invariant 0 <= k <= frame
      invariant progress == Sum(frames[k..frame])
      decreases k
    {
      k := k - 1;
      assert frames[k..frame][1..] == frames[k + 1..frame];
      progress := progress + frames[k].duration;
    }
    assert frames[0..frame] == frames[..frame];
    return a.(progress := progress, shownFrame := frame);
  }

  /** After `SetFrame` into a state with no negative duration, the progress lies within the state's duration. */
  method SetFrameWithinDuration(a: Animation, frame: int) returns (r: Animation)
    requires a.current in a.animations && NonNegative(a.animations[a.current].frames)
    ensures 0.0 <= r.progress <= GetStateDuration(r, r.current) || r == a
    ensures r.animations == a.animations && r.current == a.current
  {
    r := SetFrame(a, frame);
    if a.path != [] {
      var frames := a.animations[a.current].frames;
      if 0 < frame <= |frames| {
        SumPrefix(frames, frame);
      }
    }
  }
}
