/**
 * The clock-driven core of animation.js: AnimMgr's queue of running
 * animations, its run loop and the frame correction that keeps a time-based
 * animation in step with the clock. Clock readings are milliseconds since the
 * animation's start, and may be anything: late, equal or going backwards.
 */
module Animations {

  const FPS := 200

  /** What an animation has come to; shown lists the frames its tween event fired for since it was started. */
  datatype Anim = Anim(
    currentFrame: nat, totalFrames: int, duration: real, useSeconds: bool, animated: bool, shown: seq<int>)

  function Ceil(x: real): int { -((-x).Floor) }

  function Quotient(x: real, y: real): (r: real)
    requires y != 0.0
    ensures r * y == x
  {
    x / y
  }

  /** Math.round: halves go up. */
  function Round(x: real): int { (x + 0.5).Floor }

  /** animate (lines 302-310) and onStart; in a frame-based animation duration is the whole number of frames. */
  function Started(duration: real, useSeconds: bool): Anim {
    Anim(0, if useSeconds then Ceil(FPS as real * duration) else duration.Floor, duration, useSeconds, true, [])
  }

  /** Time-based animations with frames to show have a positive duration. */
  predicate Timed(a: Anim) { a.useSeconds && a.totalFrames > 0 ==> a.duration > 0.0 }

  /** The milliseconds at which a frame is due. */
  function Expected(frame: nat, total: int, duration: real): (r: real)
    requires total > 0
    ensures frame >= 1 && duration > 0.0 ==> r > 0.0
  {
    var scaled := frame as real * duration * 1000.0;
    assert frame >= 1 && duration > 0.0 ==> frame as real * duration > 0.0;
    scaled / total as real
  }

  /** How many frames the clock is ahead of the given one. */
  function Lead(elapsed: int, expected: real, frame: nat): int
    requires expected > 0.0
  {
    Round(Ahead(elapsed as real, expected, frame as real))
  }

  function Ahead(elapsed: real, expected: real, frame: real): real
    requires expected != 0.0
  {
    (Quotient(elapsed, expected) - 1.0) * frame
  }

  /** correctFrame (lines 580-599): the frame to show instead of the given one. */
  function CorrectFrame(frame: nat, total: int, duration: real, elapsed: int): nat
    requires 1 <= frame <= total && duration > 0.0
  {
    var expected := Expected(frame, total, duration);
    var tweak :=
      if elapsed as real < duration * 1000.0 then Lead(elapsed, expected, frame)
      else total - (frame + 1);
    if tweak > 0 then
      if frame + tweak >= total then frame + (total - (frame + 1)) else frame + tweak
    else frame
  }

  /** One tick of a running animation that has frames left (lines 554-560). */
  function Tick(a: Anim, elapsed: int): (r: Anim)
    requires Timed(a) && a.currentFrame < a.totalFrames
    ensures Timed(r)
  {
    var next := a.currentFrame + 1;
    var frame := if a.useSeconds then CorrectFrame(next, a.totalFrames, a.duration, elapsed) else next;
    a.(currentFrame := frame, shown := a.shown + [frame])
  }

  /**
   * The rest of a run over the queue, from index i of the length read at the
   * start (lines 547-563). A finished animation is spliced out, so the one
   * behind it moves into its place and is passed over. clock gives the reading
   * each index sees. The second part lists the animations completed.
   */
  function Sweep(queue: seq<Anim>, i: nat, len: nat, clock: int -> int): (r: (seq<Anim>, seq<Anim>))
    requires forall a :: a in queue ==> Timed(a)
    decreases len - i
  {
    if i >= len then (queue, [])
    else if i >= |queue| || !queue[i].animated then Sweep(queue, i + 1, len, clock)
    else if queue[i].currentFrame < queue[i].totalFrames then
      Sweep(queue[i := Tick(queue[i], clock(i))], i + 1, len, clock)
    else
      var rest := Sweep(queue[..i] + queue[i + 1..], i + 1, len, clock);
      (rest.0, [queue[i].(animated := false)] + rest.1)
  }

  lemma {:induction false} SweepTick(queue: seq<Anim>, i: nat, len: nat, clock: int -> int)
    requires (forall a :: a in queue ==> Timed(a)) && i < len
    requires i < |queue| && queue[i].animated && queue[i].currentFrame < queue[i].totalFrames
    ensures forall a :: a in queue[i := Tick(queue[i], clock(i))] ==> Timed(a)
    ensures Sweep(queue, i, len, clock) == Sweep(queue[i := Tick(queue[i], clock(i))], i + 1, len, clock)
  {
    hide Tick, Timed;
  }

  lemma {:induction false} SweepDone(queue: seq<Anim>, i: nat, len: nat, clock: int -> int, done: seq<Anim>)
    requires (forall a :: a in queue ==> Timed(a)) && i < len
    requires i < |queue| && queue[i].animated && queue[i].currentFrame >= queue[i].totalFrames
    ensures forall a :: a in queue[..i] + queue[i + 1..] ==> Timed(a)
    ensures Sweep(queue, i, len, clock).0 == Sweep(queue[..i] + queue[i + 1..], i + 1, len, clock).0
    ensures done + Sweep(queue, i, len, clock).1
      == (done + [queue[i].(animated := false)]) + Sweep(queue[..i] + queue[i + 1..], i + 1, len, clock).1
  {
    hide Tick, Timed;
  }

  lemma {:induction false} SweepSkip(queue: seq<Anim>, i: nat, len: nat, clock: int -> int)
    requires (forall a :: a in queue ==> Timed(a)) && i < len
    requires i >= |queue| || !queue[i].animated
    ensures Sweep(queue, i, len, clock) == Sweep(queue, i + 1, len, clock)
  {
    hide Tick, Timed;
  }

  lemma {:induction false} SweepEnd(queue: seq<Anim>, len: nat, clock: int -> int)
    requires forall a :: a in queue ==> Timed(a)
    ensures Sweep(queue, len, len, clock) == (queue, [])
  {}

  class Tween {
    const duration: real
    const useSeconds: bool
    var currentFrame: nat
    var totalFrames: int
    var animated: bool
    var shown: seq<int>

    constructor (duration: real, useSeconds: bool)
      ensures this.duration == duration && this.useSeconds == useSeconds
      ensures !animated
    {
      this.duration, this.useSeconds := duration, useSeconds;
      currentFrame, totalFrames, animated, shown := 0, FPS, false, [];
    }

    ghost function State(): Anim
      reads this
    {
      Anim(currentFrame, totalFrames, duration, useSeconds, animated, shown)
    }

    /** correctFrame, assigning the tween's own field. */
    method Correct(elapsed: int)
      requires 1 <= currentFrame <= totalFrames && duration > 0.0
      modifies this`currentFrame
      ensures currentFrame == CorrectFrame(old(currentFrame), totalFrames, duration, elapsed)
    {
      hide Lead, Expected;
      var frames, frame := totalFrames, currentFrame;
      var expected := Expected(frame, frames, duration);
      var tweak := 0;
      if elapsed as real < duration * 1000.0 {
        tweak := Lead(elapsed, expected, frame);
      } else {
        tweak := frames - (frame + 1);
      }
      if tweak > 0 {
        if currentFrame + tweak >= frames {
          tweak := frames - (frame + 1);
        }
        currentFrame := currentFrame + tweak;
      }
    }

    /** The tick of the run loop (lines 554-560); the tween event draws the frame. */
    method Advance(elapsed: int)
      requires Timed(State()) && currentFrame < totalFrames
      modifies this
      ensures State() == Tick(old(State()), elapsed)
    {
      hide CorrectFrame;
      currentFrame := currentFrame + 1;
      if useSeconds {
        Correct(elapsed);
      }
      shown := shown + [currentFrame];
    }
  }

  /** The values of a list of animations. */
  ghost function StatesOf(tweens: seq<Tween>): (r: seq<Anim>)
    reads tweens
    ensures |r| == |tweens| && forall k :: 0 <= k < |tweens| ==> r[k] == tweens[k].State()
  {
    seq(|tweens|, k requires 0 <= k < |tweens| reads tweens => tweens[k].State())
  }

  ghost predicate Distinct(tweens: seq<Tween>) {
    forall i, j :: 0 <= i < j < |tweens| ==> tweens[i] != tweens[j]
  }

  class AnimMgr {
    var queue: seq<Tween>
    var tweenCount: int
    var running: bool

    constructor ()
      ensures queue == [] && tweenCount == 0 && !running
    {
      queue, tweenCount, running := [], 0, false;
    }

    /** The queue holds each running animation once and is counted, and the interval thread runs while there is one. */
    ghost predicate Valid()
      reads this, queue
    {
      && Distinct(queue)
      && (forall k :: 0 <= k < |queue| ==> Timed(queue[k].State()))
      && tweenCount == |queue|
      && (running <==> queue != [])
    }

    /** Anim.animate with registerElement (lines 302-310 and 487-492). */
    method Animate(tween: Tween) returns (ok: bool)
      requires Valid()
      requires tween in queue <==> tween.animated
      modifies this, tween
      ensures Valid()
      ensures ok == !old(tween.animated)
      ensures !ok ==> queue == old(queue) && tween.State() == old(tween.State())
      ensures ok ==> queue == old(queue) + [tween]
      ensures ok ==> StatesOf(queue) == old(StatesOf(queue)) + [Started(tween.duration, tween.useSeconds)]
    {
      if tween.animated {
        return false;
      }
      ghost var before := queue;
      tween.currentFrame := 0;
      tween.totalFrames := if tween.useSeconds then Ceil(FPS as real * tween.duration) else tween.duration.Floor;
      StartedIsTimed(tween.duration, tween.useSeconds);
      queue := queue + [tween];
      tweenCount := tweenCount + 1;
      tween.animated, tween.shown := true, [];
      running := true;
      assert forall k :: 0 <= k < |before| ==> queue[k] != tween;
      return true;
    }

    /** getIndex (lines 565-572): the first place of an animation, or -1. */
    method GetIndex(anim: Tween) returns (index: int)
      ensures index == -1 ==> anim !in queue
      ensures index != -1 ==> 0 <= index < |queue| && queue[index] == anim && anim !in queue[..index]
    {
      for i := 0 to |queue|
        invariant anim !in queue[..i]
      {
        if queue[i] == anim {
          return i;
        }
      }
      return -1;
    }

    /**
     * stop and unRegister for one animation (lines 502-541): the complete event
     * fires and its place, found again by getIndex, is spliced out.
     */
    method Stop(tween: Tween, ghost at: nat)
      requires Distinct(queue) && tweenCount == |queue|
      requires at < |queue| && queue[at] == tween
      modifies this, tween
      ensures queue == old(queue)[..at] + old(queue)[at + 1..]
      ensures StatesOf(queue) == old(StatesOf(queue))[..at] + old(StatesOf(queue))[at + 1..]
      ensures Distinct(queue) && tween !in queue && tweenCount == |queue|
      ensures running == (old(running) && queue != [])
      ensures tween.State() == old(tween.State()).(animated := false)
    {
      tween.animated := false;
      var index := GetIndex(tween);
      assert index == at;
      queue := queue[..index] + queue[index + 1..];
      tweenCount := tweenCount - 1;
      if tweenCount <= 0 {
        queue, running, tweenCount := [], false, 0;
      }
      assert forall k :: 0 <= k < |queue| ==> queue[k] != tween;
    }

    /** The tick of the animation at index i (lines 554-560). */
    method TickAt(i: nat, elapsed: int)
      requires Distinct(queue) && i < |queue|
      requires Timed(queue[i].State()) && queue[i].currentFrame < queue[i].totalFrames
      modifies queue[i]
      ensures StatesOf(queue) == old(StatesOf(queue))[i := Tick(old(StatesOf(queue))[i], elapsed)]
    {
      hide Tick, Timed;
      queue[i].Advance(elapsed);
    }

    /** run (lines 547-563), once per interval. */
    method Run(clock: int -> int) returns (ghost completed: seq<Tween>)
      requires Valid()
      modifies this, queue
      ensures Valid()
      ensures (StatesOf(queue), StatesOf(completed)) == Sweep(old(StatesOf(queue)), 0, |old(queue)|, clock)
      ensures forall t :: t in queue || t in completed ==> t in old(queue)
    {
      hide Sweep, Tick, Timed, Distinct, StatesOf;
      completed := [];
      var len := |queue|;
      ghost var all := Sweep(StatesOf(queue), 0, len, clock);
      assert StatesOf(completed) + all.1 == all.1;
      for i := 0 to len
        invariant Distinct(queue) && tweenCount == |queue| && (running <==> queue != [])
        invariant forall t :: t in queue || t in completed ==> t in old(queue)
        invariant forall t :: t in queue ==> t !in completed
        invariant forall a :: a in StatesOf(queue) ==> Timed(a)
        invariant all.0 == Sweep(StatesOf(queue), i, len, clock).0
        invariant all.1 == StatesOf(completed) + Sweep(StatesOf(queue), i, len, clock).1
      {
        ghost var before, done := StatesOf(queue), StatesOf(completed);
        if i < |queue| && queue[i].animated {
          var tween := queue[i];
          assert tween in queue;
          if tween.currentFrame < tween.totalFrames {
            SweepTick(before, i, len, clock);
            TickAt(i, clock(i));
            assert StatesOf(completed) == done;
          } else {
            SweepDone(before, i, len, clock, done);
            Stop(tween, i);
            completed := completed + [tween];
            assert StatesOf(completed) == done + [before[i].(animated := false)];
          }
        } else {
          SweepSkip(before, i, len, clock);
        }
      }
      SweepEnd(StatesOf(queue), len, clock);
      assert StatesOf(completed) + [] == StatesOf(completed);
    }
  }

  lemma {:induction false} StartedIsTimed(duration: real, useSeconds: bool)
    ensures Timed(Started(duration, useSeconds))
  {
    if useSeconds && duration <= 0.0 {
      assert FPS as real * duration <= 0.0;
    }
  }
}
