/** What the animation loop promises: frames that keep time, only go forward, and end on the last one. */
module AnimationTheorems {
  import opened Animations

  // ---------- frame correction keeps time ----------

  /** The frame the clock stands at; the last frame is never jumped to. */
  function OnTime(elapsed: int, total: int, duration: real): int
    requires total > 0 && duration > 0.0
  {
    if elapsed as real >= duration * 1000.0 then total - 1
    else
      var due := Round(Due(elapsed as real, total as real, duration * 1000.0));
      if due < total then due else total - 1
  }

  /** The share of the frames that the elapsed share of the duration stands for. */
  function Due(elapsed: real, total: real, length: real): real
    requires length > 0.0
  {
    Quotient(elapsed * total, length)
  }

  lemma {:induction false} RoundShift(x: real, k: int)
    ensures Round(x - k as real) == Round(x) - k
  {}

  lemma {:induction false} RoundBelow(x: real, k: int)
    requires x < k as real
    ensures Round(x) <= k
  {}

  /** How far ahead of the frame the clock is does not depend on the frame's own due time. */
  lemma {:induction false} LeadIsDistance(elapsed: int, frame: nat, total: int, duration: real)
    requires 1 <= frame && total > 0 && duration > 0.0
    ensures Lead(elapsed, Expected(frame, total, duration), frame)
      == Round(Due(elapsed as real, total as real, duration * 1000.0)) - frame
  {
    hide Round, Due, Expected, Quotient;
    var e, f, n, d := elapsed as real, frame as real, total as real, duration * 1000.0;
    var expected := Expected(frame, total, duration);
    ExpectedTimes(frame, total, duration);
    DueTimes(e, n, d);
    var p, q := Quotient(e, expected), Due(e, n, d);
    LeadRounds(elapsed, expected, frame, p, q);
    RoundShift(q, frame);
  }

  lemma {:induction false} DueTimes(e: real, n: real, d: real)
    requires d > 0.0
    ensures Due(e, n, d) * d == e * n
  {
    hide Quotient;
  }

  lemma {:induction false} LeadRounds(elapsed: int, expected: real, frame: nat, p: real, q: real)
    requires expected > 0.0 && p * expected == elapsed as real && p * frame as real == q
    ensures Lead(elapsed, expected, frame) == Round(q - frame as real)
  {
    hide Round, Ahead;
    AheadIs(elapsed as real, expected, frame as real, p);
  }

  lemma {:induction false} AheadIs(e: real, expected: real, f: real, p: real)
    requires expected != 0.0 && p * expected == e
    ensures Ahead(e, expected, f) == p * f - f
  {
    hide Quotient;
    var q := Quotient(e, expected);
    assert (q - 1.0) * f == q * f - f;
  }

  lemma {:induction false} ExpectedTimes(frame: nat, total: int, duration: real)
    requires total > 0
    ensures Expected(frame, total, duration) * total as real == frame as real * (duration * 1000.0)
  {
    var scaled := frame as real * duration * 1000.0;
    assert scaled == frame as real * (duration * 1000.0);
  }

  /** correctFrame shows the frame the clock stands at, unless that would not be going forward. */
  lemma {:induction false} CorrectionKeepsTime(frame: nat, total: int, duration: real, elapsed: int)
    requires 1 <= frame <= total && duration > 0.0
    ensures CorrectFrame(frame, total, duration, elapsed)
      == (var due := OnTime(elapsed, total, duration); if due > frame then due else frame)
  {
    hide Round, Lead, Expected, Due;
    LeadIsDistance(elapsed, frame, total, duration);
    if elapsed as real < duration * 1000.0 {
      var x := Due(elapsed as real, total as real, duration * 1000.0);
      DueTimes(elapsed as real, total as real, duration * 1000.0);
      RoundBelow(x, total);
    }
  }

  lemma {:induction false} RoundIsNearest(x: real)
    ensures Round(x) as real - 0.5 <= x < Round(x) as real + 0.5
  {}

  lemma {:induction false} Unscaled(x: real, y: real, d: real)
    requires d > 0.0 && x * d <= y * d
    ensures x <= y
  {}

  /** The frame, fractions included, that the clock stands at. */
  function Clock(elapsed: int, total: int, duration: real): real
    requires duration > 0.0
  {
    elapsed as real * total as real / (duration * 1000.0)
  }

  lemma {:induction false} ClockIsDue(elapsed: int, total: int, duration: real)
    requires duration > 0.0
    ensures Clock(elapsed, total, duration) == Due(elapsed as real, total as real, duration * 1000.0)
    ensures Clock(elapsed, total, duration) * (duration * 1000.0) == elapsed as real * total as real
  {
    DueTimes(elapsed as real, total as real, duration * 1000.0);
  }

  /**
   * A frame jumped to is at most half a frame ahead of the clock, and short of the last one the frame
   * shown is less than half a frame behind it.
   */
  lemma {:induction false} ShownIsNearest(frame: nat, total: int, duration: real, elapsed: int)
    requires 1 <= frame <= total && duration > 0.0
    ensures var shown, clock := CorrectFrame(frame, total, duration, elapsed), Clock(elapsed, total, duration);
      && frame <= shown <= total
      && (shown > frame ==> shown as real - 0.5 <= clock)
      && (shown < total - 1 ==> clock < shown as real + 0.5)
  {
    hide Round, Due, CorrectFrame, Clock;
    var clock := Clock(elapsed, total, duration);
    CorrectionKeepsTime(frame, total, duration, elapsed);
    ClockIsDue(elapsed, total, duration);
    RoundIsNearest(clock);
    if elapsed as real >= duration * 1000.0 { PastTheEnd(elapsed, total, duration); }
  }

  lemma {:induction false} PastTheEnd(elapsed: int, total: int, duration: real)
    requires total > 0 && duration > 0.0 && elapsed as real >= duration * 1000.0
    ensures Clock(elapsed, total, duration) >= total as real
  {
    hide Clock;
    var e, n, length := elapsed as real, total as real, duration * 1000.0;
    ClockIsDue(elapsed, total, duration);
    assert n * length <= n * e;
    Unscaled(n, Clock(elapsed, total, duration), length);
  }

  // ---------- one animation ----------

  /** Each frame shown is later than the one before, the last one is the current one, none is past the end. */
  predicate Steady(a: Anim) {
    && Timed(a)
    && (forall i, j :: 0 <= i < j < |a.shown| ==> a.shown[i] < a.shown[j])
    && (forall i :: 0 <= i < |a.shown| ==> 1 <= a.shown[i] <= a.totalFrames)
    && a.currentFrame == (if a.shown == [] then 0 else a.shown[|a.shown| - 1])
  }

  /** Frames still to come, at most. */
  function Left(a: Anim): nat { if a.currentFrame < a.totalFrames then a.totalFrames - a.currentFrame else 0 }

  /** A tick goes at least one frame forward and never past the last, whatever the clock says. */
  lemma {:induction false} TickGoesForward(a: Anim, elapsed: int)
    requires Steady(a) && a.currentFrame < a.totalFrames
    ensures Steady(Tick(a, elapsed)) && a.currentFrame < Tick(a, elapsed).currentFrame <= a.totalFrames
    ensures Left(Tick(a, elapsed)) < Left(a)
    ensures Tick(a, elapsed) == a.(currentFrame := Tick(a, elapsed).currentFrame, shown := Tick(a, elapsed).shown)
  {
    hide CorrectFrame, Round;
    if a.useSeconds {
      CorrectionKeepsTime(a.currentFrame + 1, a.totalFrames, a.duration, elapsed);
    }
  }

  /** A lone animation given one clock reading a tick until it has no frames left. */
  function Play(a: Anim, readings: seq<int>): Anim
    requires Timed(a)
    decreases |readings|
  {
    if readings == [] || a.currentFrame >= a.totalFrames then a else Play(Tick(a, readings[0]), readings[1..])
  }

  lemma {:induction false} PlayIsSteady(a: Anim, readings: seq<int>)
    requires Steady(a)
    ensures Steady(Play(a, readings))
    ensures Play(a, readings).totalFrames == a.totalFrames
    ensures |readings| >= Left(a) ==> Left(Play(a, readings)) == 0
    decreases |readings|
  {
    hide Tick, Steady, Timed;
    assert Timed(a) by { SteadyIsTimed(a); }
    if readings != [] && a.currentFrame < a.totalFrames {
      TickGoesForward(a, readings[0]);
      PlayIsSteady(Tick(a, readings[0]), readings[1..]);
    }
  }

  lemma {:induction false} SteadyIsTimed(a: Anim)
    requires Steady(a)
    ensures Timed(a)
  {}

  /**
   * A time-based animation of positive duration has 200 frames a second and, whatever the clock says,
   * shows strictly increasing frames, never passes totalFrames, and has ended
   * on exactly that frame after totalFrames ticks at the latest.
   */
  lemma {:induction false} AnimationEnds(duration: real, readings: seq<int>)
    requires duration > 0.0
    ensures var a := Started(duration, true); var end := Play(a, readings);
      && a.totalFrames >= 1 && a.totalFrames == end.totalFrames
      && a.totalFrames as real - 1.0 < 200.0 * duration <= a.totalFrames as real
      && (forall i, j :: 0 <= i < j < |end.shown| ==> end.shown[i] < end.shown[j])
      && (forall i :: 0 <= i < |end.shown| ==> 1 <= end.shown[i] <= a.totalFrames)
      && (|readings| >= a.totalFrames ==> end.shown != [] && end.shown[|end.shown| - 1] == a.totalFrames)
  {
    hide Play, Round, Tick;
    var a := Started(duration, true);
    PlayIsSteady(a, readings);
  }

  /** A frame-based animation has as many frames as its duration says and shows each of them, one a tick. */
  lemma {:induction false} EveryFrameIsShown(duration: real, readings: seq<int>)
    ensures var a := Started(duration, false); var shown := Play(a, readings).shown;
      && a.totalFrames as real <= duration < a.totalFrames as real + 1.0
      && |shown| == (if a.totalFrames <= 0 then 0 else if |readings| < a.totalFrames then |readings| else a.totalFrames)
      && forall i :: 0 <= i < |shown| ==> shown[i] == i + 1
  {
    hide Play, Tick;
    PlayCounts(Started(duration, false), readings);
  }

  lemma {:induction false} PlayCounts(a: Anim, readings: seq<int>)
    requires !a.useSeconds && |a.shown| == a.currentFrame && forall i :: 0 <= i < |a.shown| ==> a.shown[i] == i + 1
    ensures var shown := Play(a, readings).shown;
      && |shown| == a.currentFrame + (if |readings| < Left(a) then |readings| else Left(a))
      && forall i :: 0 <= i < |shown| ==> shown[i] == i + 1
    decreases |readings|
  {
    hide CorrectFrame;
    if readings != [] && a.currentFrame < a.totalFrames { PlayCounts(Tick(a, readings[0]), readings[1..]); }
  }

  // ---------- the queue ----------

  /** A running animation, and a completed one. */
  predicate Alive(a: Anim) { a.animated && Steady(a) }

  predicate Finished(a: Anim) {
    && !a.animated && Steady(a) && Left(a) == 0
    && (a.totalFrames > 0 ==> a.shown != [] && a.shown[|a.shown| - 1] == a.totalFrames)
  }

  /** The run calls an animation needs: its frames and the one that removes it. */
  function Work(queue: seq<Anim>): nat { if queue == [] then 0 else Left(queue[0]) + 1 + Work(queue[1..]) }

  lemma {:induction false} WorkSplit(left: seq<Anim>, right: seq<Anim>)
    ensures Work(left + right) == Work(left) + Work(right)
    decreases |left|
  {
    hide Left;
    if left == [] {
      assert left + right == right;
    } else {
      WorkSplit(left[1..], right);
      assert (left + right)[1..] == left[1..] + right;
    }
  }

  lemma {:induction false} WorkAt(queue: seq<Anim>, i: nat, a: Anim)
    requires i < |queue|
    ensures Work(queue) == Work(queue[..i] + queue[i + 1..]) + Left(queue[i]) + 1
    ensures Work(queue[i := a]) == Work(queue[..i] + queue[i + 1..]) + Left(a) + 1
  {
    hide Left, Work;
    WorkSplit(queue[..i], queue[i + 1..]);
    WorkSplit(queue[..i], [queue[i]]);
    WorkSplit(queue[..i], [a]);
    WorkSplit(queue[..i] + [queue[i]], queue[i + 1..]);
    WorkSplit(queue[..i] + [a], queue[i + 1..]);
    assert queue == queue[..i] + [queue[i]] + queue[i + 1..];
    assert queue[i := a] == queue[..i] + [a] + queue[i + 1..];
    WorkOne(queue[i]);
    WorkOne(a);
  }

  lemma {:induction false} WorkOne(a: Anim)
    ensures Work([a]) == Left(a) + 1
  {
    assert Work([a][1..]) == 0;
  }

  /** What no tick changes about an animation. */
  datatype Kind = Kind(totalFrames: int, duration: real, useSeconds: bool)

  function KindOf(a: Anim): Kind { Kind(a.totalFrames, a.duration, a.useSeconds) }

  /** How many animations of a kind there are. */
  function Count(kind: Kind, queue: seq<Anim>): nat
    decreases |queue|
  {
    if queue == [] then 0 else (if KindOf(queue[0]) == kind then 1 else 0) + Count(kind, queue[1..])
  }

  lemma {:induction false} CountSplit(kind: Kind, left: seq<Anim>, right: seq<Anim>)
    ensures Count(kind, left + right) == Count(kind, left) + Count(kind, right)
    decreases |left|
  {
    hide KindOf;
    if left == [] {
      assert left + right == right;
    } else {
      CountSplit(kind, left[1..], right);
      assert (left + right)[1..] == left[1..] + right && (left + right)[0] == left[0];
    }
  }

  lemma {:induction false} CountAt(kind: Kind, queue: seq<Anim>, i: nat, a: Anim)
    requires i < |queue|
    ensures Count(kind, queue) == Count(kind, queue[..i] + queue[i + 1..]) + Count(kind, [queue[i]])
    ensures Count(kind, queue[i := a]) == Count(kind, queue[..i] + queue[i + 1..]) + Count(kind, [a])
  {
    hide Count, KindOf;
    CountSplit(kind, queue[..i], queue[i + 1..]);
    CountSplit(kind, queue[..i], [queue[i]]);
    CountSplit(kind, queue[..i], [a]);
    CountSplit(kind, queue[..i] + [queue[i]], queue[i + 1..]);
    CountSplit(kind, queue[..i] + [a], queue[i + 1..]);
    assert queue == queue[..i] + [queue[i]] + queue[i + 1..];
    assert queue[i := a] == queue[..i] + [a] + queue[i + 1..];
  }

  ghost predicate AllAlive(queue: seq<Anim>) { forall a :: a in queue ==> Alive(a) }

  ghost predicate AllFinished(queue: seq<Anim>) { forall a :: a in queue ==> Finished(a) }

  lemma {:induction false} AliveIsTimed(queue: seq<Anim>)
    requires AllAlive(queue)
    ensures forall a :: a in queue ==> Timed(a)
  {}

  /**
   * One run call, from any index: what stays is alive, what is completed ended
   * on its last frame, nothing is lost, and no work is added; work is done
   * whenever there is something at the index.
   */
  lemma {:induction false} SweepProgress(queue: seq<Anim>, i: nat, len: nat, clock: int -> int, kind: Kind)
    requires AllAlive(queue)
    ensures var r := Sweep(queue, i, len, clock);
      && AllAlive(r.0) && AllFinished(r.1)
      && Count(kind, r.0) + Count(kind, r.1) == Count(kind, queue)
      && (if i < len && i < |queue| then Work(r.0) < Work(queue) else Work(r.0) <= Work(queue))
    decreases len - i
  {
    hide Alive, Finished, Work, Count, Tick, Timed, Left;
    AliveIsTimed(queue);
    if i >= len {
      CountNone(kind);
    } else if i >= |queue| || !queue[i].animated {
      SweepProgress(queue, i + 1, len, clock, kind);
      AliveFacts(queue, i);
    } else if queue[i].currentFrame < queue[i].totalFrames {
      var next := Tick(queue[i], clock(i));
      AliveTick(queue[i], clock(i), kind);
      WorkAt(queue, i, next);
      CountAt(kind, queue, i, next);
      SweepProgress(queue[i := next], i + 1, len, clock, kind);
    } else {
      var done := queue[i].(animated := false);
      var others := queue[..i] + queue[i + 1..];
      AliveEnd(queue[i], kind);
      WorkAt(queue, i, done);
      CountAt(kind, queue, i, done);
      SweepProgress(others, i + 1, len, clock, kind);
      var rest := Sweep(others, i + 1, len, clock);
      CountSplit(kind, [done], rest.1);
    }
  }

  lemma {:induction false} AliveFacts(queue: seq<Anim>, i: nat)
    requires AllAlive(queue)
    ensures i < |queue| ==> queue[i].animated
  {
    hide Steady;
    if i < |queue| { assert Alive(queue[i]); }
  }

  lemma {:induction false} AliveTick(a: Anim, elapsed: int, kind: Kind)
    requires Alive(a) && Timed(a) && a.currentFrame < a.totalFrames
    ensures Alive(Tick(a, elapsed)) && Left(Tick(a, elapsed)) < Left(a)
    ensures Count(kind, [Tick(a, elapsed)]) == Count(kind, [a])
  {
    hide Tick, Steady, Left;
    TickGoesForward(a, elapsed);
  }

  lemma {:induction false} CountNone(kind: Kind)
    ensures Count(kind, []) == 0
  {}

  lemma {:induction false} AliveEnd(a: Anim, kind: Kind)
    requires Alive(a) && a.currentFrame >= a.totalFrames
    ensures Finished(a.(animated := false))
    ensures Count(kind, [a.(animated := false)]) == Count(kind, [a])
  {
  }

  lemma {:induction false} StartedIsAlive(duration: real, useSeconds: bool)
    ensures Alive(Started(duration, useSeconds))
  {
    hide Ceil;
    StartedIsTimed(duration, useSeconds);
  }

  /** Run calls with the clock readings of each, collecting the completed. */
  function Sweeps(queue: seq<Anim>, clocks: seq<int -> int>): (r: (seq<Anim>, seq<Anim>))
    requires AllAlive(queue)
    ensures AllAlive(r.0) && AllFinished(r.1)
    decreases |clocks|
  {
    if clocks == [] then (queue, [])
    else
      SweepProgress(queue, 0, |queue|, clocks[0], KindOf(Anim(0, 0, 0.0, false, false, [])));
      var first := Sweep(queue, 0, |queue|, clocks[0]);
      var rest := Sweeps(first.0, clocks[1..]);
      (rest.0, first.1 + rest.1)
  }

  lemma {:induction false} SweepsProgress(queue: seq<Anim>, clocks: seq<int -> int>, kind: Kind)
    requires AllAlive(queue)
    ensures var r := Sweeps(queue, clocks);
      && Count(kind, r.0) + Count(kind, r.1) == Count(kind, queue)
      && (|clocks| >= Work(queue) ==> r.0 == [])
    decreases |clocks|
  {
    hide Alive, Finished, Count, Tick, Timed, Left, Sweep;
    if clocks == [] {
      CountNone(kind);
    } else {
      AliveIsTimed(queue);
      SweepProgress(queue, 0, |queue|, clocks[0], kind);
      var first := Sweep(queue, 0, |queue|, clocks[0]);
      SweepsProgress(first.0, clocks[1..], kind);
      CountSplit(kind, first.1, Sweeps(first.0, clocks[1..]).1);
    }
  }

  /**
   * Every animation in the queue ends, on its own last frame and through
   * increasing frames, although a completed one costs its neighbour a turn:
   * after as many run calls as there are frames to come plus one for each
   * animation, the queue is empty and the completed are as many, of each kind,
   * as were there.
   */
  lemma {:induction false} QueueRunsOut(queue: seq<Anim>, clocks: seq<int -> int>)
    requires AllAlive(queue) && |clocks| >= Work(queue)
    ensures var r := Sweeps(queue, clocks);
      r.0 == [] && AllFinished(r.1) && forall kind :: Count(kind, r.1) == Count(kind, queue)
  {
    hide Alive, Finished, Count, Tick, Timed, Left, Sweep, Work, Sweeps;
    forall kind ensures Sweeps(queue, clocks).0 == [] && Count(kind, Sweeps(queue, clocks).1) == Count(kind, queue) {
      SweepsProgress(queue, clocks, kind);
      CountNone(kind);
    }
    SweepsProgress(queue, clocks, Kind(0, 0.0, false));
  }

  // ---------- animations as animate registers them ----------

  datatype Request = Request(duration: real, useSeconds: bool)

  /** The queue after animate was called for each, none of them ticked yet. */
  function StartedAll(requests: seq<Request>): seq<Anim> {
    if requests == [] then []
    else [Started(requests[0].duration, requests[0].useSeconds)] + StartedAll(requests[1..])
  }

  /** Their total frames, and one run call each. */
  function CallsNeeded(requests: seq<Request>): nat {
    if requests == [] then 0
    else
      var total := Started(requests[0].duration, requests[0].useSeconds).totalFrames;
      (if total > 0 then total else 0) + 1 + CallsNeeded(requests[1..])
  }

  lemma {:induction false} StartedQueue(requests: seq<Request>)
    ensures AllAlive(StartedAll(requests)) && Work(StartedAll(requests)) == CallsNeeded(requests)
  {
    hide Alive, Ceil;
    if requests != [] {
      StartedIsAlive(requests[0].duration, requests[0].useSeconds);
      StartedQueue(requests[1..]);
      var a := Started(requests[0].duration, requests[0].useSeconds);
      assert ([a] + StartedAll(requests[1..]))[1..] == StartedAll(requests[1..]);
    }
  }

  /**
   * Whatever was started, of positive duration or not, and whatever the clock says: after so many run
   * calls the queue is empty, and every animation has ended on its last frame.
   */
  lemma {:induction false} StartedRunOut(requests: seq<Request>, clocks: seq<int -> int>)
    requires |clocks| >= CallsNeeded(requests)
    ensures AllAlive(StartedAll(requests))
    ensures var r := Sweeps(StartedAll(requests), clocks);
      r.0 == [] && AllFinished(r.1) && forall kind :: Count(kind, r.1) == Count(kind, StartedAll(requests))
  {
    hide AllAlive, AllFinished, Work, Count, Sweeps, StartedAll, CallsNeeded;
    StartedQueue(requests);
    QueueRunsOut(StartedAll(requests), clocks);
  }
}
