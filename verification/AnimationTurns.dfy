/** Which animations get a turn in one run call, and exactly when all do. */
module AnimationTurns {
  import opened Animations
  import opened AnimationTheorems

  /** What lies before the index is not touched again. */
  lemma {:induction false} SweepKeepsPrefix(queue: seq<Anim>, i: nat, len: nat, clock: int -> int)
    requires AllAlive(queue) && i <= |queue|
    ensures var r := Sweep(queue, i, len, clock); i <= |r.0| && r.0[..i] == queue[..i]
    decreases len - i
  {
    hide Alive, Tick, Timed;
    AliveIsTimed(queue);
    if i < len && i < |queue| {
      AliveFacts(queue, i);
      if queue[i].currentFrame < queue[i].totalFrames {
        var next := Tick(queue[i], clock(i));
        AliveTick(queue[i], clock(i), Kind(0, 0.0, false));
        SweepKeepsPrefix(queue[i := next], i + 1, len, clock);
        AliveIsTimed(queue[i := next]);
        var r := Sweep(queue[i := next], i + 1, len, clock).0;
        assert r[..i] == r[..i + 1][..i];
      } else {
        var others := queue[..i] + queue[i + 1..];
        AliveIsTimed(others);
        if i < |others| {
          SweepKeepsPrefix(others, i + 1, len, clock);
          var r := Sweep(others, i + 1, len, clock).0;
          assert r[..i] == r[..i + 1][..i];
        } else {
          SweepPastEnd(others, i + 1, len, clock);
        }
      }
    } else {
      SweepPastEnd(queue, i, len, clock);
    }
  }

  lemma {:induction false} SweepPastEnd(queue: seq<Anim>, i: nat, len: nat, clock: int -> int)
    requires AllAlive(queue) && (i >= |queue| || i >= len)
    ensures Sweep(queue, i, len, clock) == (queue, [])
    decreases len - i
  {
    hide Alive, Tick, Timed;
    AliveIsTimed(queue);
    if i < len { SweepPastEnd(queue, i + 1, len, clock); }
  }

  /** The queue after the first k of it have had their tick. */
  ghost function Ticked(queue: seq<Anim>, k: nat, clock: int -> int): (r: seq<Anim>)
    requires k <= |queue|
    requires forall j :: 0 <= j < k ==> Timed(queue[j]) && queue[j].currentFrame < queue[j].totalFrames
    ensures |r| == |queue|
  {
    seq(|queue|, j requires 0 <= j < |queue| => if j < k then Tick(queue[j], clock(j)) else queue[j])
  }

  /** A run reaches index k having ticked all before it once, each with its own reading, if they have frames left. */
  lemma {:induction false} RunReaches(queue: seq<Anim>, k: nat, len: nat, clock: int -> int)
    requires AllAlive(queue) && k <= |queue| && k <= len
    requires forall j :: 0 <= j < k ==> Timed(queue[j]) && queue[j].currentFrame < queue[j].totalFrames
    ensures AllAlive(Ticked(queue, k, clock))
    ensures Sweep(queue, 0, len, clock) == Sweep(Ticked(queue, k, clock), k, len, clock)
    decreases k
  {
    hide Alive, Tick, Timed;
    AliveIsTimed(queue);
    if k == 0 {
      assert Ticked(queue, 0, clock) == queue;
    } else {
      RunReaches(queue, k - 1, len, clock);
      var before := Ticked(queue, k - 1, clock);
      AliveIsTimed(before);
      AliveFacts(before, k - 1);
      AliveTick(before[k - 1], clock(k - 1), Kind(0, 0.0, false));
      assert Ticked(queue, k, clock) == before[k - 1 := Tick(before[k - 1], clock(k - 1))];
    }
  }

  /** When all have frames left, one run call ticks each exactly once and completes none. */
  lemma {:induction false} EveryoneTicks(queue: seq<Anim>, clock: int -> int)
    requires AllAlive(queue)
    requires forall j :: 0 <= j < |queue| ==> Timed(queue[j]) && queue[j].currentFrame < queue[j].totalFrames
    ensures Sweep(queue, 0, |queue|, clock) == (Ticked(queue, |queue|, clock), [])
  {
    hide Alive, Tick, Timed, Sweep, Ticked;
    RunReaches(queue, |queue|, |queue|, clock);
    SweepPastEnd(Ticked(queue, |queue|, clock), |queue|, |queue|, clock);
  }

  /**
   * When the first without frames left is at k, it is the first completed, and
   * the one behind it moves to k without getting its tick in this call.
   */
  lemma {:induction false} NeighbourMissesTurn(queue: seq<Anim>, k: nat, clock: int -> int)
    requires AllAlive(queue) && k + 1 < |queue|
    requires forall j :: 0 <= j < k ==> Timed(queue[j]) && queue[j].currentFrame < queue[j].totalFrames
    requires queue[k].currentFrame >= queue[k].totalFrames
    ensures var r := Sweep(queue, 0, |queue|, clock);
      && |r.0| > k && r.0[k] == queue[k + 1]
      && r.1 != [] && r.1[0] == queue[k].(animated := false)
  {
    hide Alive, Tick, Timed;
    RunReaches(queue, k, |queue|, clock);
    var ticked := Ticked(queue, k, clock);
    AliveIsTimed(ticked);
    AliveFacts(ticked, k);
    assert ticked[k] == queue[k] && ticked[k + 1] == queue[k + 1];
    var others := ticked[..k] + ticked[k + 1..];
    AliveIsTimed(others);
    assert others[k] == queue[k + 1];
    SweepKeepsPrefix(others, k + 1, |queue|, clock);
    var r := Sweep(others, k + 1, |queue|, clock).0;
    assert r[k] == r[..k + 1][k] == others[..k + 1][k];
  }

  // ---------- when everyone gets a turn ----------

  predicate HasFrames(a: Anim) { a.currentFrame < a.totalFrames }

  /** Each animation with frames left ticked, with the clock reading of its own index. */
  ghost function TurnsOf(queue: seq<Anim>, i: nat, clock: int -> int): seq<Anim>
    requires forall a :: a in queue ==> Timed(a)
  {
    if queue == [] then [] else TurnOf(queue[0], clock(i)) + TurnsOf(queue[1..], i + 1, clock)
  }

  ghost function TurnOf(a: Anim, elapsed: int): seq<Anim>
    requires Timed(a)
  {
    if HasFrames(a) then [Tick(a, elapsed)] else []
  }

  /** Each animation without frames left completed. */
  function CompletedOf(queue: seq<Anim>): seq<Anim> {
    if queue == [] then [] else CompletionOf(queue[0]) + CompletedOf(queue[1..])
  }

  function CompletionOf(a: Anim): seq<Anim> { if HasFrames(a) then [] else [a.(animated := false)] }

  /** One run call gives every animation of the queue its turn. */
  ghost predicate EveryTurnTaken(queue: seq<Anim>, clock: int -> int)
    requires forall a :: a in queue ==> Timed(a)
  {
    Sweep(queue, 0, |queue|, clock) == (TurnsOf(queue, 0, clock), CompletedOf(queue))
  }

  predicate OnlyLastMayBeDone(queue: seq<Anim>) { forall j :: 0 <= j && j + 1 < |queue| ==> HasFrames(queue[j]) }

  lemma {:induction false} TurnsConcat(x: seq<Anim>, y: seq<Anim>, i: nat, clock: int -> int)
    requires forall a :: a in x || a in y ==> Timed(a)
    ensures TurnsOf(x + y, i, clock) == TurnsOf(x, i, clock) + TurnsOf(y, i + |x|, clock)
    decreases |x|
  {
    hide TurnOf, Timed;
    if x == [] {
      assert x + y == y;
    } else {
      assert (x + y)[0] == x[0] && (x + y)[1..] == x[1..] + y;
      TurnsConcat(x[1..], y, i + 1, clock);
    }
  }

  lemma {:induction false} CompletedConcat(x: seq<Anim>, y: seq<Anim>)
    ensures CompletedOf(x + y) == CompletedOf(x) + CompletedOf(y)
    decreases |x|
  {
    hide CompletionOf;
    if x == [] {
      assert x + y == y;
    } else {
      assert (x + y)[0] == x[0] && (x + y)[1..] == x[1..] + y;
      CompletedConcat(x[1..], y);
    }
  }

  lemma {:induction false} TurnsOfLive(queue: seq<Anim>, i: nat, clock: int -> int)
    requires forall j :: 0 <= j < |queue| ==> Timed(queue[j]) && queue[j].currentFrame < queue[j].totalFrames
    ensures forall a :: a in queue ==> Timed(a)
    ensures |TurnsOf(queue, i, clock)| == |queue| && CompletedOf(queue) == []
    ensures forall j :: 0 <= j < |queue| ==> TurnsOf(queue, i, clock)[j] == Tick(queue[j], clock(i + j))
  {
    hide Tick, Timed;
    if queue != [] {
      TurnsOfLive(queue[1..], i + 1, clock);
      var head, tail := Tick(queue[0], clock(i)), TurnsOf(queue[1..], i + 1, clock);
      assert TurnOf(queue[0], clock(i)) == [head] && CompletionOf(queue[0]) == [];
      hide TurnOf, CompletionOf;
      assert TurnsOf(queue, i, clock) == [head] + tail;
      forall j | 0 <= j < |queue| ensures ([head] + tail)[j] == Tick(queue[j], clock(i + j)) {
        if j > 0 { assert ([head] + tail)[j] == tail[j - 1] && queue[1..][j - 1] == queue[j]; }
      }
    }
  }

  lemma {:induction false} TurnOfOne(a: Anim, i: nat, clock: int -> int)
    requires Timed(a)
    ensures TurnsOf([a], i, clock) == TurnOf(a, clock(i)) && CompletedOf([a]) == CompletionOf(a)
  {
    hide TurnOf, CompletionOf, Timed;
    assert [a][1..] == [];
    assert TurnsOf([], i + 1, clock) == [] && CompletedOf([]) == [];
    assert TurnOf(a, clock(i)) + [] == TurnOf(a, clock(i)) && CompletionOf(a) + [] == CompletionOf(a);
  }

  /** All with frames left before index k: what a run has done when it gets there, and what it should have. */
  lemma {:induction false} TurnsBefore(queue: seq<Anim>, k: nat, clock: int -> int)
    requires AllAlive(queue) && k <= |queue|
    requires forall j :: 0 <= j < k ==> queue[j].currentFrame < queue[j].totalFrames
    ensures (forall a :: a in queue ==> Timed(a)) && forall j :: 0 <= j < |queue| ==> Timed(queue[j])
    ensures Ticked(queue, k, clock)[..k] == TurnsOf(queue[..k], 0, clock) && CompletedOf(queue[..k]) == []
    ensures TurnsOf(queue, 0, clock) == Ticked(queue, k, clock)[..k] + TurnsOf(queue[k..], k, clock)
    ensures CompletedOf(queue) == CompletedOf(queue[k..])
  {
    hide Alive, Tick, Timed, TurnsOf, CompletedOf;
    AliveIsTimed(queue);
    TurnsOfLive(queue[..k], 0, clock);
    assert queue == queue[..k] + queue[k..];
    TurnsConcat(queue[..k], queue[k..], 0, clock);
    CompletedConcat(queue[..k], queue[k..]);
    assert [] + CompletedOf(queue[k..]) == CompletedOf(queue[k..]);
  }

  /** Only the last may be done: it is completed, the others tick. */
  lemma {:induction false} AllTurns(queue: seq<Anim>, clock: int -> int)
    requires AllAlive(queue) && OnlyLastMayBeDone(queue)
    ensures (forall a :: a in queue ==> Timed(a)) && EveryTurnTaken(queue, clock)
  {
    hide Alive, Tick, Timed, Sweep, Ticked, TurnsOf, CompletedOf, HasFrames;
    AliveIsTimed(queue);
    if queue == [] {
      SweepPastEnd(queue, 0, 0, clock);
      NoTurns(clock);
    } else {
      var n := |queue| - 1;
      FramesMeans(queue, n);
      TurnsBefore(queue, n, clock);
      assert queue[n..] == [queue[n]];
      TurnOfOne(queue[n], n, clock);
      RunReaches(queue, n, |queue|, clock);
      TickedRest(queue, n, clock);
      assert Ticked(queue, n, clock)[n] == Ticked(queue, n, clock)[n..][0] == queue[n];
      LastTurn(Ticked(queue, n, clock), clock);
    }
  }

  lemma {:induction false} NoTurns(clock: int -> int)
    ensures TurnsOf([], 0, clock) == [] && CompletedOf([]) == []
  {}

  lemma {:induction false} FramesMeans(queue: seq<Anim>, k: nat)
    requires k <= |queue|
    ensures (forall j :: 0 <= j < k ==> HasFrames(queue[j])) <==>
      forall j :: 0 <= j < k ==> queue[j].currentFrame < queue[j].totalFrames
  {}

  lemma {:induction false} LastTurn(queue: seq<Anim>, clock: int -> int)
    requires AllAlive(queue) && queue != []
    ensures var n := |queue| - 1; var last := queue[n];
      && (forall a :: a in queue ==> Timed(a)) && Timed(last)
      && Sweep(queue, n, |queue|, clock) == (queue[..n] + TurnOf(last, clock(n)), CompletionOf(last))
  {
    hide Alive, Tick, Timed;
    var n := |queue| - 1;
    var last := queue[n];
    AliveIsTimed(queue);
    AliveFacts(queue, n);
    if HasFrames(last) {
      var next := queue[n := Tick(last, clock(n))];
      SweepTick(queue, n, |queue|, clock);
      SweepEnd(next, |queue|, clock);
      assert next == queue[..n] + [Tick(last, clock(n))];
    } else {
      var others := queue[..n] + queue[n + 1..];
      assert others == queue[..n] == queue[..n] + [];
      SweepDone(queue, n, |queue|, clock, []);
      SweepEnd(others, |queue|, clock);
      assert [] + Sweep(queue, n, |queue|, clock).1 == Sweep(queue, n, |queue|, clock).1;
      assert ([] + [last.(animated := false)]) + [] == [last.(animated := false)];
    }
  }

  /** At most the animations from index i on that have no frames left are completed. */
  lemma {:induction false} FewCompleted(queue: seq<Anim>, i: nat, len: nat, clock: int -> int)
    requires AllAlive(queue)
    ensures |Sweep(queue, i, len, clock).1| <= |CompletedOf(if i <= |queue| then queue[i..] else [])|
    decreases len - i
  {
    hide Alive, Tick, Timed, Left, Count, Work;
    AliveIsTimed(queue);
    if i < len && i < |queue| {
      AliveFacts(queue, i);
      var rest := queue[i..];
      assert rest[0] == queue[i] && rest[1..] == queue[i + 1..];
      if HasFrames(queue[i]) {
        var next := queue[i := Tick(queue[i], clock(i))];
        AliveTick(queue[i], clock(i), Kind(0, 0.0, false));
        FewCompleted(next, i + 1, len, clock);
        assert next[i + 1..] == queue[i + 1..];
      } else {
        var others := queue[..i] + queue[i + 1..];
        FewCompleted(others, i + 1, len, clock);
        if i + 1 <= |others| {
          assert others[i + 1..] == rest[1..][1..];
        }
      }
    } else {
      SweepPastEnd(queue, i, len, clock);
    }
  }

  /** A done animation that is not the last: its neighbour stays as it is, so some turn is not taken. */
  lemma {:induction false} SomeTurnMissed(queue: seq<Anim>, k: nat, clock: int -> int)
    requires AllAlive(queue) && k + 1 < |queue| && !HasFrames(queue[k])
    requires forall j :: 0 <= j < k ==> HasFrames(queue[j])
    ensures (forall a :: a in queue ==> Timed(a)) && !EveryTurnTaken(queue, clock)
  {
    hide Alive, Tick, Timed, Sweep, Ticked, TurnsOf, CompletedOf, HasFrames, Left, Steady;
    AliveIsTimed(queue);
    FramesMeans(queue, k);
    DoneMeans(queue[k]);
    NeighbourMissesTurn(queue, k, clock);
    TurnsBefore(queue, k, clock);
    var done, next := queue[k], queue[k + 1];
    var late := queue[k + 2..];
    assert queue[k..] == [done] + ([next] + late);
    TurnsConcat([next], late, k + 1, clock);
    CompletedConcat([next], late);
    TurnsConcat([done], [next] + late, k, clock);
    CompletedConcat([done], [next] + late);
    TurnOfOne(done, k, clock);
    TurnOfOne(next, k + 1, clock);
    if HasFrames(next) {
      // index k should hold its tick, and holds the animation itself
      AliveHasFrames(queue, k + 1, clock(k + 1));
      DoneMeans(next);
      assert TurnsOf(queue, 0, clock)[k] == Tick(next, clock(k + 1));
    } else {
      TooFew(queue, k, clock);
    }
  }

  lemma {:induction false} DoneMeans(a: Anim)
    ensures !HasFrames(a) <==> a.currentFrame >= a.totalFrames
  {}

  lemma {:induction false} AliveHasFrames(queue: seq<Anim>, i: nat, elapsed: int)
    requires AllAlive(queue) && i < |queue| && HasFrames(queue[i]) && Timed(queue[i])
    ensures Tick(queue[i], elapsed) != queue[i]
  {
    hide Tick, Steady;
    assert Alive(queue[i]);
    TickGoesForward(queue[i], elapsed);
  }

  /** Two done ones in a row: the second is not completed. */
  lemma {:induction false} TooFew(queue: seq<Anim>, k: nat, clock: int -> int)
    requires AllAlive(queue) && k + 1 < |queue| && !HasFrames(queue[k]) && !HasFrames(queue[k + 1])
    requires forall j :: 0 <= j < k ==> HasFrames(queue[j])
    ensures (forall a :: a in queue ==> Timed(a)) && |Sweep(queue, 0, |queue|, clock).1| < |CompletedOf(queue)|
  {
    hide Alive, Tick, Timed, Ticked, TurnsOf, CompletedOf, HasFrames, Sweep;
    AliveIsTimed(queue);
    FramesMeans(queue, k);
    DoneMeans(queue[k]);
    RunReaches(queue, k, |queue|, clock);
    TurnsBefore(queue, k, clock);
    var ticked := Ticked(queue, k, clock);
    TickedRest(queue, k, clock);
    AliveIsTimed(ticked);
    AliveFacts(ticked, k);
    var others := ticked[..k] + ticked[k + 1..];
    AliveIsTimed(others);
    SweepDone(ticked, k, |queue|, clock, []);
    FewCompleted(others, k + 1, |queue|, clock);
    var late := queue[k + 2..];
    assert others[k + 1..] == late;
    assert queue[k..] == [queue[k]] + ([queue[k + 1]] + late);
    TurnsConcat([queue[k + 1]], late, k + 1, clock);
    CompletedConcat([queue[k + 1]], late);
    TurnsConcat([queue[k]], [queue[k + 1]] + late, k, clock);
    CompletedConcat([queue[k]], [queue[k + 1]] + late);
    TurnOfOne(queue[k], k, clock);
    TurnOfOne(queue[k + 1], k + 1, clock);
  }

  lemma {:induction false} TickedRest(queue: seq<Anim>, k: nat, clock: int -> int)
    requires k <= |queue|
    requires forall j :: 0 <= j < k ==> Timed(queue[j]) && queue[j].currentFrame < queue[j].totalFrames
    ensures Ticked(queue, k, clock)[k..] == queue[k..]
  {
    hide Tick, Timed;
  }

  /** The first done animation before the last, if there is one. */
  lemma {:induction false} FirstDone(queue: seq<Anim>, n: nat) returns (k: nat)
    requires n < |queue| && exists j :: 0 <= j < n && !HasFrames(queue[j])
    ensures k < n && !HasFrames(queue[k]) && forall j :: 0 <= j < k ==> HasFrames(queue[j])
    decreases n
  {
    hide HasFrames;
    if j :| 0 <= j < n - 1 && !HasFrames(queue[j]) {
      k := FirstDone(queue, n - 1);
    } else {
      k := n - 1;
    }
  }

  /** Every animation takes its turn in a run call if and only if all but the last have frames left. */
  lemma {:induction false} EveryTurnTakenIff(queue: seq<Anim>, clock: int -> int)
    requires AllAlive(queue)
    ensures forall a :: a in queue ==> Timed(a)
    ensures EveryTurnTaken(queue, clock) <==> OnlyLastMayBeDone(queue)
  {
    hide Alive, Timed, EveryTurnTaken, HasFrames;
    AliveIsTimed(queue);
    if OnlyLastMayBeDone(queue) {
      AllTurns(queue, clock);
    } else {
      var n := |queue| - 1;
      assert exists j :: 0 <= j < n && !HasFrames(queue[j]);
      var k := FirstDone(queue, n);
      SomeTurnMissed(queue, k, clock);
    }
  }
}
