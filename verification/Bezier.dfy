/** Bezier.getPosition of animation.js: de Casteljau's triangle, computed in place. */
module Beziers {

  datatype Point = Point(x: real, y: real)

  function Mix(a: real, b: real, t: real): real { (1.0 - t) * a + t * b }

  function Xs(points: seq<Point>): (r: seq<real>)
    ensures |r| == |points| && forall i :: 0 <= i < |points| ==> r[i] == points[i].x
  {
    seq(|points|, i requires 0 <= i < |points| => points[i].x)
  }

  function Ys(points: seq<Point>): (r: seq<real>)
    ensures |r| == |points| && forall i :: 0 <= i < |points| ==> r[i] == points[i].y
  {
    seq(|points|, i requires 0 <= i < |points| => points[i].y)
  }

  /** Entry i of the triangle after j rounds, for one coordinate. */
  function Blend(p: seq<real>, t: real, j: nat, i: nat): real
    requires i + j < |p|
    decreases j
  {
    if j == 0 then p[i] else Mix(Blend(p, t, j - 1, i), Blend(p, t, j - 1, i + 1), t)
  }

  /** The pair of coordinates at entry i after j rounds. */
  function Entry(points: seq<Point>, t: real, j: nat, i: nat): Point
    requires i + j < |points|
  {
    Point(Blend(Xs(points), t, j, i), Blend(Ys(points), t, j, i))
  }

  /** Where the curve is at t: the tip of the triangle. */
  function Position(points: seq<Point>, t: real): Point
    requires points != []
  {
    Entry(points, t, |points| - 1, 0)
  }

  lemma {:induction false} EntryStart(points: seq<Point>, t: real, i: nat)
    requires i < |points|
    ensures Entry(points, t, 0, i) == points[i]
  {}

  lemma {:induction false} EntryStep(points: seq<Point>, t: real, j: nat, i: nat)
    requires i + j + 1 < |points|
    ensures Entry(points, t, j + 1, i).x == Mix(Entry(points, t, j, i).x, Entry(points, t, j, i + 1).x, t)
    ensures Entry(points, t, j + 1, i).y == Mix(Entry(points, t, j, i).y, Entry(points, t, j, i + 1).y, t)
  {}

  /** lines 620-637: each round overwrites the entries from the left, reading the one to the right. */
  method GetPosition(points: seq<Point>, t: real) returns (position: Point)
    requires points != []
    ensures position == Position(points, t)
  {
    hide Entry, Mix, Blend, Xs, Ys;
    var n := |points|;
    var tmp := new Point[n];
    for i := 0 to n
      invariant forall k :: 0 <= k < i ==> tmp[k] == Entry(points, t, 0, k)
    {
      tmp[i] := Point(points[i].x, points[i].y);
      EntryStart(points, t, i);
    }
    for j := 1 to n
      invariant forall k :: 0 <= k <= n - j ==> tmp[k] == Entry(points, t, j - 1, k)
    {
      for i := 0 to n - j
        invariant forall k :: 0 <= k < i ==> tmp[k] == Entry(points, t, j, k)
        invariant forall k :: i <= k <= n - j ==> tmp[k] == Entry(points, t, j - 1, k)
      {
        EntryStep(points, t, j - 1, i);
        tmp[i] := Point(Mix(tmp[i].x, tmp[i + 1].x, t), Mix(tmp[i].y, tmp[i + 1].y, t));
      }
    }
    position := Point(tmp[0].x, tmp[0].y);
  }

  // ---------- the Bernstein form ----------

  function Choose(n: nat, k: nat): nat {
    if k == 0 then 1 else if n == 0 then 0 else Choose(n - 1, k - 1) + Choose(n - 1, k)
  }

  function Pow(x: real, n: nat): real { if n == 0 then 1.0 else x * Pow(x, n - 1) }

  /** C(n, k) t^k (1 - t)^(n - k) */
  function Weight(t: real, n: nat, k: nat): real {
    if k > n then 0.0 else Choose(n, k) as real * (Pow(t, k) * Pow(1.0 - t, n - k))
  }

  /** The first m terms of the degree n sum over the points from i on. */
  function Sum(p: seq<real>, t: real, n: nat, i: nat, m: nat): real
    requires i + m <= |p|
  {
    if m == 0 then 0.0 else Sum(p, t, n, i, m - 1) + Weight(t, n, m - 1) * p[i + m - 1]
  }

  /** The Bernstein polynomial of the points. */
  function Bernstein(p: seq<real>, t: real): real
    requires p != []
  {
    Sum(p, t, |p| - 1, 0, |p|)
  }

  lemma {:induction false} ChooseZero(n: nat, k: nat)
    requires k > n
    ensures Choose(n, k) == 0
  {
    if n > 0 { ChooseZero(n - 1, k - 1); ChooseZero(n - 1, k); }
  }

  /** C(n, k) = C(n-1, k-1) + C(n-1, k), weighted. */
  lemma {:induction false} WeightStep(t: real, n: nat, k: nat)
    requires 1 <= k <= n
    ensures Weight(t, n, k) == (1.0 - t) * Weight(t, n - 1, k) + t * Weight(t, n - 1, k - 1)
  {
    hide Choose, Pow;
    var u := 1.0 - t;
    var c, d := Choose(n - 1, k - 1) as real, Choose(n - 1, k) as real;
    assert Choose(n, k) as real == c + d by { Pascal(n, k); }
    PowStep(t, k);
    var a, b := Pow(t, k - 1), Pow(u, n - k);
    WeightLeft(t, a, b, c);
    if k < n {
      PowStep(u, n - k);
      var b' := Pow(u, n - k - 1);
      WeightRight(u, t * a, b', d);
      assert (c + d) * (t * a * b) == c * (t * a * b) + d * (t * a * b);
    } else {
      ChooseZero(n - 1, k);
    }
  }

  lemma {:induction false} Pascal(n: nat, k: nat)
    requires 1 <= k <= n
    ensures Choose(n, k) == Choose(n - 1, k - 1) + Choose(n - 1, k)
  {}

  lemma {:induction false} PowStep(x: real, n: nat)
    requires n >= 1
    ensures Pow(x, n) == x * Pow(x, n - 1)
  {}

  lemma {:induction false} WeightLeft(t: real, a: real, b: real, c: real)
    ensures t * (c * (a * b)) == c * (t * a * b)
  {}

  lemma {:induction false} WeightRight(u: real, a: real, b: real, d: real)
    ensures u * (d * (a * b)) == d * (a * (u * b))
  {}

  /** The degree n partial sum is the mix of two of degree n - 1. */
  lemma {:induction false} SumStep(p: seq<real>, t: real, n: nat, i: nat, m: nat)
    requires n >= 1 && 1 <= m <= n + 1 && i + m <= |p|
    ensures Sum(p, t, n, i, m) == Mix(Sum(p, t, n - 1, i, m), Sum(p, t, n - 1, i + 1, m - 1), t)
    decreases m
  {
    hide Weight;
    if m == 1 {
      FirstWeight(t, n);
      FirstWeight(t, n - 1);
      PowStep(1.0 - t, n);
      var w := Pow(1.0 - t, n - 1);
      assert Sum(p, t, n, i, 0) == 0.0 && Sum(p, t, n - 1, i, 0) == 0.0 && Sum(p, t, n - 1, i + 1, 0) == 0.0;
      MulAssoc(1.0 - t, w, p[i]);
    } else {
      SumStep(p, t, n, i, m - 1);
      WeightStep(t, n, m - 1);
      var a, b := Sum(p, t, n - 1, i, m - 1), Sum(p, t, n - 1, i + 1, m - 2);
      var v, w, q := Weight(t, n - 1, m - 1), Weight(t, n - 1, m - 2), p[i + m - 1];
      MixStep(a, b, v, w, q, t);
    }
  }

  lemma {:induction false} FirstWeight(t: real, n: nat)
    ensures Weight(t, n, 0) == Pow(1.0 - t, n)
  {
    assert Choose(n, 0) == 1 && Pow(t, 0) == 1.0;
  }

  lemma {:induction false} MulAssoc(x: real, y: real, z: real)
    ensures x * y * z == x * (y * z)
  {}

  lemma {:induction false} MixStep(a: real, b: real, v: real, w: real, q: real, t: real)
    ensures Mix(a, b, t) + ((1.0 - t) * v + t * w) * q == Mix(a + v * q, b + w * q, t)
  {
    var u := 1.0 - t;
    assert (u * v + t * w) * q == u * (v * q) + t * (w * q);
    assert u * (a + v * q) == u * a + u * (v * q);
    assert t * (b + w * q) == t * b + t * (w * q);
  }

  lemma {:induction false} BlendIsSum(p: seq<real>, t: real, j: nat, i: nat)
    requires i + j < |p|
    ensures Blend(p, t, j, i) == Sum(p, t, j, i, j + 1)
    decreases j
  {
    if j == 0 {
      FirstWeight(t, 0);
      assert Sum(p, t, 0, i, 0) == 0.0 && Weight(t, 0, 0) == 1.0;
    } else {
      hide Weight;
      BlendIsSum(p, t, j - 1, i);
      BlendIsSum(p, t, j - 1, i + 1);
      SumStep(p, t, j, i, j + 1);
      LastWeight(p, t, j, i);
    }
  }

  /** A term past the degree adds nothing. */
  lemma {:induction false} LastWeight(p: seq<real>, t: real, j: nat, i: nat)
    requires j >= 1 && i + j < |p|
    ensures Sum(p, t, j - 1, i, j + 1) == Sum(p, t, j - 1, i, j)
  {
    assert Weight(t, j - 1, j) == 0.0;
  }

  /** getPosition computes the Bernstein polynomial of any number of points, coordinate by coordinate. */
  lemma {:induction false} PositionIsBernstein(points: seq<Point>, t: real)
    requires points != []
    ensures Position(points, t) == Point(Bernstein(Xs(points), t), Bernstein(Ys(points), t))
  {
    BlendIsSum(Xs(points), t, |points| - 1, 0);
    BlendIsSum(Ys(points), t, |points| - 1, 0);
  }

  // ---------- shape ----------

  lemma {:induction false} MixBetween(a: real, b: real, t: real, lo: real, hi: real)
    requires 0.0 <= t <= 1.0 && lo <= a <= hi && lo <= b <= hi
    ensures lo <= Mix(a, b, t) <= hi
  {
    MixSpread(a, lo, b, t);
    NonNegative(1.0 - t, a - lo);
    NonNegative(t, b - lo);
    NonNegative(1.0 - t, hi - a);
    NonNegative(t, hi - b);
    MixSpread(a, hi, b, t);
  }

  lemma {:induction false} NonNegative(x: real, y: real)
    requires x >= 0.0 && y >= 0.0
    ensures x * y >= 0.0 && x * -y <= 0.0
  {}

  lemma {:induction false} MixSpread(a: real, c: real, b: real, t: real)
    ensures Mix(a, b, t) == c + (1.0 - t) * (a - c) + t * (b - c)
  {}

  lemma {:induction false} BlendBetween(p: seq<real>, t: real, j: nat, i: nat, lo: real, hi: real)
    requires i + j < |p| && 0.0 <= t <= 1.0
    requires forall k :: i <= k <= i + j ==> lo <= p[k] <= hi
    ensures lo <= Blend(p, t, j, i) <= hi
    decreases j
  {
    if j > 0 {
      BlendBetween(p, t, j - 1, i, lo, hi);
      BlendBetween(p, t, j - 1, i + 1, lo, hi);
      MixBetween(Blend(p, t, j - 1, i), Blend(p, t, j - 1, i + 1), t, lo, hi);
    }
  }

  lemma {:induction false} BlendEnds(p: seq<real>, j: nat, i: nat)
    requires i + j < |p|
    ensures Blend(p, 0.0, j, i) == p[i] && Blend(p, 1.0, j, i) == p[i + j]
    decreases j
  {
    if j > 0 {
      BlendEnds(p, j - 1, i);
      BlendEnds(p, j - 1, i + 1);
    }
  }

  function Reversed<T>(p: seq<T>): (r: seq<T>)
    ensures |r| == |p| && forall i :: 0 <= i < |p| ==> r[i] == p[|p| - 1 - i]
  {
    seq(|p|, i requires 0 <= i < |p| => p[|p| - 1 - i])
  }

  lemma {:induction false} BlendReversed(p: seq<real>, t: real, j: nat, i: nat)
    requires i + j < |p|
    ensures Blend(Reversed(p), 1.0 - t, j, i) == Blend(p, t, j, |p| - 1 - j - i)
    decreases j
  {
    if j > 0 {
      BlendReversed(p, t, j - 1, i);
      BlendReversed(p, t, j - 1, i + 1);
      var a, b := Blend(p, t, j - 1, |p| - j - i), Blend(p, t, j - 1, |p| - 1 - j - i);
      assert Mix(a, b, 1.0 - t) == Mix(b, a, t);
    }
  }

  predicate InBox(p: Point, lo: Point, hi: Point) { lo.x <= p.x <= hi.x && lo.y <= p.y <= hi.y }

  /** For 0 <= t <= 1 the curve stays inside every box that holds all the points. */
  lemma {:induction false} StaysInBox(points: seq<Point>, t: real, lo: Point, hi: Point)
    requires points != [] && 0.0 <= t <= 1.0
    requires forall k :: 0 <= k < |points| ==> InBox(points[k], lo, hi)
    ensures InBox(Position(points, t), lo, hi)
  {
    forall k | 0 <= k < |points| ensures lo.x <= Xs(points)[k] <= hi.x && lo.y <= Ys(points)[k] <= hi.y {
      assert InBox(points[k], lo, hi);
    }
    BlendBetween(Xs(points), t, |points| - 1, 0, lo.x, hi.x);
    BlendBetween(Ys(points), t, |points| - 1, 0, lo.y, hi.y);
  }

  /** The curve runs from the first point to the last. */
  lemma {:induction false} HitsEnds(points: seq<Point>)
    requires points != []
    ensures Position(points, 0.0) == points[0] && Position(points, 1.0) == points[|points| - 1]
  {
    BlendEnds(Xs(points), |points| - 1, 0);
    BlendEnds(Ys(points), |points| - 1, 0);
  }

  /** Walking the points backwards with t replaced by 1 - t is the same walk. */
  lemma {:induction false} ReversalSymmetry(points: seq<Point>, t: real)
    requires points != []
    ensures Position(Reversed(points), 1.0 - t) == Position(points, t)
  {
    BlendReversed(Xs(points), t, |points| - 1, 0);
    BlendReversed(Ys(points), t, |points| - 1, 0);
    assert Xs(Reversed(points)) == Reversed(Xs(points));
    assert Ys(Reversed(points)) == Reversed(Ys(points));
  }
}
