/**
  The pointer smoothing of the light-rays frame loop: each frame the smoothed
  pointer moves 8% of the way towards the latest raw pointer sample, on each
  axis separately. With the raw sample held still, the smoothed value closes
  in on it monotonically, never overshoots, and gets within any distance.
*/
module PointerSmoothing {
  import opened RayGeometry

  /** The weight the previous smoothed value keeps each frame. */
  const Smoothing: real := 0.92

  function Abs(x: real): real {
    if x < 0.0 then -x else x
  }

  /** `t` lies on the closed segment between `a` and `b`. */
  predicate Between(t: real, a: real, b: real) {
    (a <= t <= b) || (b <= t <= a)
  }

  function Pow(b: real, n: nat): real {
    if n == 0 then 1.0 else b * Pow(b, n - 1)
  }

  /**
    One frame of smoothing on one axis, `s * 0.92 + r * (1 - 0.92)`: the
    result lies between the old smoothed value and the sample, and its
    distance to the sample is 0.92 of the old distance.
  */
  function SmoothStep(s: real, r: real): (t: real)
    ensures Between(t, s, r)
    ensures Abs(t - r) == Smoothing * Abs(s - r)
  {
    s * Smoothing + r * (1.0 - Smoothing)
  }

  /** One frame on the pointer: each axis is smoothed from that axis alone. */
  function SmoothPoint(s: Vec2, raw: Vec2): (t: Vec2)
    ensures Between(t.x, s.x, raw.x) && Between(t.y, s.y, raw.y)
    ensures Abs(t.x - raw.x) == Smoothing * Abs(s.x - raw.x)
    ensures Abs(t.y - raw.y) == Smoothing * Abs(s.y - raw.y)
  {
    Vec2(SmoothStep(s.x, raw.x), SmoothStep(s.y, raw.y))
  }

  /** The smoothed value after `n` frames with the raw sample held at `r`. */
  function SmoothIter(s: real, r: real, n: nat): real {
    if n == 0 then s else SmoothStep(SmoothIter(s, r, n - 1), r)
  }

  /** After `n` frames the signed offset from the sample is 0.92^n of the starting offset. */
  lemma {:induction false} SmoothIterOffset(s: real, r: real, n: nat)
    ensures SmoothIter(s, r, n) - r == Pow(Smoothing, n) * (s - r)
  {
    if n > 0 {
      SmoothIterOffset(s, r, n - 1);
      var x := SmoothIter(s, r, n - 1);
      var p := Pow(Smoothing, n - 1);
      assert SmoothIter(s, r, n) - r == Smoothing * (x - r);
      MulAssoc(Smoothing, p, s - r);
    }
  }

  /** After `n` frames the distance to the sample is 0.92^n of the starting distance. */
  lemma SmoothIterDistance(s: real, r: real, n: nat)
    ensures Abs(SmoothIter(s, r, n) - r) == Pow(Smoothing, n) * Abs(s - r)
  {
    SmoothIterOffset(s, r, n);
    PowPositive(Smoothing, n);
    AbsScale(Pow(Smoothing, n), s - r);
  }

  lemma AbsScale(p: real, x: real)
    requires p > 0.0
    ensures Abs(p * x) == p * Abs(x)
  {
    if x < 0.0 {
      MulStrict(p, x, 0.0);
    } else {
      MulMonotone(p, 0.0, x);
    }
  }

  lemma MulAssoc(a: real, b: real, c: real)
    ensures a * (b * c) == (a * b) * c
  {
  }

  /**
    Monotone approach without overshoot: starting below the sample, the
    smoothed value rises frame by frame and stays at or below it; starting
    above, it falls and stays at or above it.
  */
  lemma {:induction false} SmoothIterMonotone(s: real, r: real, n: nat)
    ensures s <= r ==> s <= SmoothIter(s, r, n) <= SmoothIter(s, r, n + 1) <= r
    ensures r <= s ==> r <= SmoothIter(s, r, n + 1) <= SmoothIter(s, r, n) <= s
  {
    if n > 0 {
      SmoothIterMonotone(s, r, n - 1);
    }
  }

  lemma {:induction false} PowPositive(b: real, n: nat)
    requires b > 0.0
    ensures Pow(b, n) > 0.0
  {
    if n > 0 {
      PowPositive(b, n - 1);
    }
  }

  /** A Bernoulli-style bound: 0.92^n * (1 + 0.08 n) never exceeds 1. */
  lemma {:induction false} PowDecay(n: nat)
    ensures Pow(Smoothing, n) * (1.0 + 0.08 * n as real) <= 1.0
  {
    if n > 0 {
      PowDecay(n - 1);
      PowPositive(Smoothing, n - 1);
      var p := Pow(Smoothing, n - 1);
      var k := (n - 1) as real;
      assert Pow(Smoothing, n) * (1.0 + 0.08 * n as real) == p * (0.9936 + 0.0736 * k);
      assert p * (0.9936 + 0.0736 * k) <= p * (1.0 + 0.08 * k);
    }
  }

  /** A number of frames after which the smoothed value is within `eps` of the sample. */
  function FramesWithin(d: real, eps: real): (n: nat)
    requires d >= 0.0 && eps > 0.0
    ensures 0.08 * eps * n as real > d
  {
    var q := d / (0.08 * eps);
    assert q >= 0.0;
    var n := (q.Floor + 1) as nat;
    assert n as real > q;
    assert 0.08 * eps * n as real > 0.08 * eps * q;
    n
  }

  /**
    Convergence: with the sample held at `r`, from `FramesWithin(|s - r|, eps)`
    frames on the smoothed value stays within `eps` of `r`.
  */
  lemma SmoothIterConverges(s: real, r: real, eps: real, m: nat)
    requires eps > 0.0
    requires m >= FramesWithin(Abs(s - r), eps)
    ensures Abs(SmoothIter(s, r, m) - r) < eps
  {
    SmoothIterDistance(s, r, m);
    DecayBelow(Abs(s - r), eps, m);
  }

  /** 0.92^m times a distance `d` is below `eps` from `FramesWithin(d, eps)` frames on. */
  lemma DecayBelow(d: real, eps: real, m: nat)
    requires d >= 0.0 && eps > 0.0
    requires m >= FramesWithin(d, eps)
    ensures Pow(Smoothing, m) * d < eps
  {
    var p := Pow(Smoothing, m);
    PowDecay(m);
    PowPositive(Smoothing, m);
    var n0 := FramesWithin(d, eps);
    var c := 0.08 * m as real;
    MulMonotone(0.08 * eps, n0 as real, m as real);
    assert 0.08 * eps * m as real == eps * c;
    ShrunkDistance(p, d, eps, c);
  }

  /** The arithmetic core: if p * (1 + c) <= 1 and d < eps * c then p * d < eps. */
  lemma ShrunkDistance(p: real, d: real, eps: real, c: real)
    requires p > 0.0 && eps > 0.0
    requires p * (1.0 + c) <= 1.0
    requires d < eps * c
    ensures p * d < eps
  {
    assert p * c <= 1.0 - p;
    MulStrict(p, d, eps * c);
    assert p * (eps * c) == eps * (p * c);
    MulMonotone(eps, p * c, 1.0 - p);
  }

  lemma MulStrict(p: real, a: real, b: real)
    requires p > 0.0 && a < b
    ensures p * a < p * b
  {
  }

  lemma MulMonotone(p: real, a: real, b: real)
    requires p >= 0.0 && a <= b
    ensures p * a <= p * b
  {
  }
}
