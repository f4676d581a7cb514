/**
 * One diffusion timestep of the cathode's charge curve (battery/diffusion_battery.py).
 *
 * The charge curve is clamped to the driving potential at index 0, padded on the left
 * with a run of zeros and a run of the driving potential, mirrored on the right, smoothed
 * with a kernel by a numpy-style "same" convolution, and cropped back to its length.
 * The Gaussian kernel itself is floating-point numerics and is taken as a parameter.
 */
module Diffusion {

  /** A charge curve: index 0 is the driven boundary, the last index the current collector. */
  type Curve = s: seq<real> | |s| >= 1 witness [0.0]

  /** The smoothing kernel that the source derives from the cathode width. */
  type Kernel = g: seq<real> | |g| >= 1 witness [1.0]

  /** Sum of a sequence (numpy `sum`), peeling off the last element. */
  function Sum(s: seq<real>): real
    decreases |s|
  {
    if |s| == 0 then 0.0 else Sum(s[..|s| - 1]) + s[|s| - 1]
  }

  function Zeros(k: nat): seq<real> { seq(k, _ => 0.0) }

  function Repeat(v: real, k: nat): seq<real> { seq(k, _ => v) }

  /** numpy `flip`: the sequence read backwards. */
  function Flip(s: seq<real>): seq<real>
  {
    seq(|s|, i requires 0 <= i < |s| => s[|s| - 1 - i])
  }

  /** Term m of the full convolution of a with g at output index t. */
  function Tap(a: seq<real>, g: seq<real>, t: int, m: nat): real
    requires m < |g|
  {
    if 0 <= t - m < |a| then g[m] * a[t - m] else 0.0
  }

  /** The first m terms of the full convolution of a with g at output index t. */
  function ConvAt(a: seq<real>, g: seq<real>, t: int, m: nat): real
    requires m <= |g|
  {
    if m == 0 then 0.0 else ConvAt(a, g, t, m - 1) + Tap(a, g, t, m - 1)
  }

  /** numpy `convolve(a, g, mode="full")`: |a| + |g| - 1 outputs. */
  function FullConvolve(a: seq<real>, g: Kernel): seq<real>
  {
    seq(|a| + |g| - 1, t => ConvAt(a, g, t, |g|))
  }

  /**
   * numpy `convolve(a, g, mode="same")` for |a| >= |g| (numpy swaps the operands
   * otherwise, which never happens here): the |a| central outputs of the full
   * convolution, starting at (|g| - 1) / 2.
   */
  function SameConvolve(a: seq<real>, g: Kernel): (r: seq<real>)
    requires |a| >= |g|
    ensures |r| == |a|
    ensures forall i :: 0 <= i < |a| ==> r[i] == ConvAt(a, g, i + (|g| - 1) / 2, |g|)
  {
    var h := (|g| - 1) / 2;
    FullConvolve(a, g)[h .. h + |a|]
  }

  /**
   * The array that is convolved: k zeros, k copies of the driving potential, the curve
   * with index 0 clamped to the driving potential, then that clamped curve reversed.
   */
  function Padded(p: real, y: Curve, k: nat): (b: seq<real>)
    ensures |b| == 2 * k + 2 * |y|
    ensures forall j :: 0 <= j < k ==> b[j] == 0.0
    ensures forall j :: k <= j < 2 * k ==> b[j] == p
    ensures b[2 * k] == p && b[2 * k + 2 * |y| - 1] == p
    ensures forall j :: 2 * k < j < 2 * k + |y| ==> b[j] == y[j - 2 * k]
    ensures forall j :: 2 * k + |y| <= j < 2 * k + 2 * |y| - 1 ==> b[j] == y[2 * k + 2 * |y| - 1 - j]
  {
    var clamped := y[0 := p];
    Zeros(k) + Repeat(p, k) + clamped + Flip(clamped)
  }

  /** The curve after one timestep under driving potential p (`compute_charge_curve`). */
  function ComputeChargeCurve(g: Kernel, p: real, y: Curve): (r: Curve)
    ensures |r| == |y|
  {
    var k := |g|;
    var conv := SameConvolve(Padded(p, y, k), g);
    conv[2 * k .. |conv| - |y|]
  }

  /**
   * A kernel that sums to 1 and fits in the curve, and a flat curve driven at its own value:
   * the state in which a timestep changes nothing.
   */
  ghost predicate InEquilibrium(g: Kernel, p: real, y: Curve)
  {
    Sum(g) == 1.0 && |g| <= |y| && forall i :: 0 <= i < |y| ==> y[i] == p
  }

  /** Charge moved into the curve by one timestep (`compute_current`); none at equilibrium. */
  function ComputeCurrent(g: Kernel, p: real, y: Curve): (r: real)
    ensures InEquilibrium(g, p, y) ==> r == 0.0
  {
    var next := ComputeChargeCurve(g, p, y);
    assert InEquilibrium(g, p, y) ==> next == y by {
      if InEquilibrium(g, p, y) {
        Equilibrium(g, y, p);
      }
    }
    Sum(next) - Sum(y)
  }

  /** Index 0 of the curve after one timestep (`compute_ocp`); the driving potential at equilibrium. */
  function ComputeOcp(g: Kernel, p: real, y: Curve): (r: real)
    ensures InEquilibrium(g, p, y) ==> r == p
  {
    var next := ComputeChargeCurve(g, p, y);
    assert InEquilibrium(g, p, y) ==> next == y by {
      if InEquilibrium(g, p, y) {
        Equilibrium(g, y, p);
      }
    }
    next[0]
  }

  /**
   * The closure returned by `get_calc_current`: the curve with index 0 set to p, observed.
   * It is affine in p, which is the linear model the secant solver assumes.
   */
  function CalcCurrent(g: Kernel, y: Curve): (f: real -> real)
    ensures Affine(f)
  {
    var f := p => ComputeCurrent(g, p, y[0 := p]);
    assert Affine(f) by {
      forall p
        ensures Interpolates(f(0.0), f(1.0), f(p), p)
      {
        ClampedCurrentAffine(g, y, p);
      }
    }
    f
  }

  /** The closure returned by `get_calc_ocp`; affine in p as well. */
  function CalcOcp(g: Kernel, y: Curve): (f: real -> real)
    ensures Affine(f)
  {
    var f := p => ComputeOcp(g, p, y[0 := p]);
    assert Affine(f) by {
      forall p
        ensures Interpolates(f(0.0), f(1.0), f(p), p)
      {
        ClampedOcpAffine(g, y, p);
      }
    }
    f
  }

  // ---------------------------------------------------------------------------
  // Shape of one step

  /** Output i of a step is the convolution sum centred on padded index 2k + i + (k - 1) / 2. */
  lemma ChargeCurveAt(g: Kernel, p: real, y: Curve, i: nat)
    requires i < |y|
    ensures ComputeChargeCurve(g, p, y)[i]
         == ConvAt(Padded(p, y, |g|), g, 2 * |g| + i + (|g| - 1) / 2, |g|)
  {
    var conv := SameConvolve(Padded(p, y, |g|), g);
    assert ComputeChargeCurve(g, p, y)[i] == conv[2 * |g| + i];
  }

  /** The step overwrites index 0, so the boundary value the curve held has no influence. */
  lemma BoundaryValueOverwritten(g: Kernel, p: real, y: Curve, q: real)
    ensures ComputeChargeCurve(g, p, y[0 := q]) == ComputeChargeCurve(g, p, y)
  {
    assert y[0 := q][0 := p] == y[0 := p];
  }

  // ---------------------------------------------------------------------------
  // Equilibrium

  /** Convolution taps that all read the value c, inside a flat stretch, sum to c times the kernel prefix. */
  lemma {:induction false} ConvAtFlat(a: seq<real>, g: seq<real>, t: int, m: nat, c: real, lo: int, hi: int)
    requires m <= |g|
    requires 0 <= lo <= t - m + 1 && t < hi <= |a|
    requires forall j :: lo <= j < hi ==> a[j] == c
    ensures ConvAt(a, g, t, m) == c * Sum(g[..m])
  {
    if m > 0 {
      ConvAtFlat(a, g, t, m - 1, c, lo, hi);
      assert g[..m][..m - 1] == g[..m - 1];
      assert Tap(a, g, t, m - 1) == g[m - 1] * c;
    }
  }

  /**
   * Equilibrium: with a kernel that sums to 1 and fits in the curve, driving a flat curve
   * at its own value leaves it unchanged and moves no charge.
   */
  lemma Equilibrium(g: Kernel, y: Curve, c: real)
    requires Sum(g) == 1.0 && |g| <= |y|
    requires forall i :: 0 <= i < |y| ==> y[i] == c
    ensures ComputeChargeCurve(g, c, y) == y
  {
    var r := ComputeChargeCurve(g, c, y);
    forall i | 0 <= i < |y|
      ensures r[i] == y[i]
    {
      FlatAt(g, y, c, i);
    }
    assert r == y;
  }

  /** Driving a flat curve at its own value leaves each point at that value. */
  lemma FlatAt(g: Kernel, y: Curve, c: real, i: nat)
    requires Sum(g) == 1.0 && |g| <= |y| && i < |y|
    requires forall i :: 0 <= i < |y| ==> y[i] == c
    ensures ComputeChargeCurve(g, c, y)[i] == c
  {
    FlatWindow(g, y, c, i);
    ChargeCurveAt(g, c, y, i);
  }

  /** The convolution sum behind point i reads only the flat part of the padded array. */
  lemma FlatWindow(g: Kernel, y: Curve, c: real, i: nat)
    requires Sum(g) == 1.0 && |g| <= |y| && i < |y|
    requires forall i :: 0 <= i < |y| ==> y[i] == c
    ensures ConvAt(Padded(c, y, |g|), g, 2 * |g| + i + (|g| - 1) / 2, |g|) == c
  {
    var k := |g|;
    FlatPadded(y, c, k);
    ConvAtFlat(Padded(c, y, k), g, 2 * k + i + (k - 1) / 2, k, c, k, 2 * k + 2 * |y|);
    assert g[..k] == g;
  }

  /** Past the leading zeros, the padded array of a flat curve driven at its value is flat. */
  lemma FlatPadded(y: Curve, c: real, k: nat)
    requires forall i :: 0 <= i < |y| ==> y[i] == c
    ensures |Padded(c, y, k)| == 2 * k + 2 * |y|
    ensures forall j :: k <= j < 2 * k + 2 * |y| ==> Padded(c, y, k)[j] == c
  {
  }

  // ---------------------------------------------------------------------------
  // The step is affine in the driving potential

  /** xp is the point at parameter p on the line through x0 (at 0) and x1 (at 1). */
  ghost predicate Interpolates(x0: real, x1: real, xp: real, p: real)
  {
    xp == x0 + p * (x1 - x0)
  }

  /** f(p) is f(0) + p * (f(1) - f(0)) for every p: f is affine. */
  ghost predicate Affine(f: real -> real)
  {
    forall p :: Interpolates(f(0.0), f(1.0), f(p), p)
  }

  /** ap is the point at parameter p between a0 and a1, index by index. */
  ghost predicate AffineIn(a0: seq<real>, a1: seq<real>, ap: seq<real>, p: real)
  {
    && |a0| == |ap| && |a1| == |ap|
    && forall j :: 0 <= j < |ap| ==> OnLineAt(a0, a1, ap, p, j)
  }

  ghost predicate OnLineAt(a0: seq<real>, a1: seq<real>, ap: seq<real>, p: real, j: int)
    requires 0 <= j < |a0| && j < |a1| && j < |ap|
  {
    Interpolates(a0[j], a1[j], ap[j], p)
  }

  // The algebra of interpolation, kept apart from the sequence facts.

  lemma InterpolatesConst(c: real, p: real)
    ensures Interpolates(c, c, c, p)
  {
  }

  lemma InterpolatesScale(w: real, x0: real, x1: real, xp: real, p: real)
    requires Interpolates(x0, x1, xp, p)
    ensures Interpolates(w * x0, w * x1, w * xp, p)
  {
    assert w * xp == w * x0 + p * (w * x1 - w * x0);
  }

  lemma InterpolatesAdd(x0: real, x1: real, xp: real, z0: real, z1: real, zp: real, p: real)
    requires Interpolates(x0, x1, xp, p) && Interpolates(z0, z1, zp, p)
    ensures Interpolates(x0 + z0, x1 + z1, xp + zp, p)
  {
  }

  lemma InterpolatesSub(x0: real, x1: real, xp: real, z0: real, z1: real, zp: real, p: real)
    requires Interpolates(x0, x1, xp, p) && Interpolates(z0, z1, zp, p)
    ensures Interpolates(x0 - z0, x1 - z1, xp - zp, p)
  {
  }

  lemma InterpolatesSame(x0: real, x1: real, xp: real, z0: real, z1: real, zp: real, p: real)
    requires Interpolates(x0, x1, xp, p) && x0 == z0 && x1 == z1 && xp == zp
    ensures Interpolates(z0, z1, zp, p)
  {
  }

  // Each stage of a step preserves affinity in the driving potential.

  lemma {:induction false} ConvAtAffine(a0: seq<real>, a1: seq<real>, ap: seq<real>, p: real,
                                        g: seq<real>, t: int, m: nat)
    requires AffineIn(a0, a1, ap, p) && m <= |g|
    ensures Interpolates(ConvAt(a0, g, t, m), ConvAt(a1, g, t, m), ConvAt(ap, g, t, m), p)
  {
    if m > 0 {
      ConvAtAffine(a0, a1, ap, p, g, t, m - 1);
      var j := t - (m - 1);
      if 0 <= j < |ap| {
        assert OnLineAt(a0, a1, ap, p, j);
        InterpolatesScale(g[m - 1], a0[j], a1[j], ap[j], p);
      } else {
        InterpolatesConst(0.0, p);
      }
      InterpolatesAdd(ConvAt(a0, g, t, m - 1), ConvAt(a1, g, t, m - 1), ConvAt(ap, g, t, m - 1),
                      Tap(a0, g, t, m - 1), Tap(a1, g, t, m - 1), Tap(ap, g, t, m - 1), p);
    }
  }

  lemma {:induction false} SumAffine(a0: seq<real>, a1: seq<real>, ap: seq<real>, p: real)
    requires AffineIn(a0, a1, ap, p)
    ensures Interpolates(Sum(a0), Sum(a1), Sum(ap), p)
  {
    if |ap| == 0 {
      InterpolatesConst(0.0, p);
    } else {
      var n := |ap| - 1;
      assert AffineIn(a0[..n], a1[..n], ap[..n], p) by {
        forall j | 0 <= j < n
          ensures OnLineAt(a0[..n], a1[..n], ap[..n], p, j)
        {
          assert OnLineAt(a0, a1, ap, p, j);
          assert ap[..n][j] == ap[j] && a0[..n][j] == a0[j] && a1[..n][j] == a1[j];
        }
      }
      SumAffine(a0[..n], a1[..n], ap[..n], p);
      assert OnLineAt(a0, a1, ap, p, n);
      InterpolatesAdd(Sum(a0[..n]), Sum(a1[..n]), Sum(ap[..n]), a0[n], a1[n], ap[n], p);
    }
  }

  lemma PaddedAffine(y: Curve, k: nat, p: real)
    ensures AffineIn(Padded(0.0, y, k), Padded(1.0, y, k), Padded(p, y, k), p)
  {
    var b0, b1, bp := Padded(0.0, y, k), Padded(1.0, y, k), Padded(p, y, k);
    forall j | 0 <= j < |bp|
      ensures OnLineAt(b0, b1, bp, p, j)
    {
    }
  }

  /** Smoothing preserves affinity: "same" convolution is linear in the convolved array. */
  lemma SameConvolveAffine(b0: seq<real>, b1: seq<real>, bp: seq<real>, p: real, g: Kernel)
    requires AffineIn(b0, b1, bp, p) && |bp| >= |g|
    ensures AffineIn(SameConvolve(b0, g), SameConvolve(b1, g), SameConvolve(bp, g), p)
  {
    var c0, c1, cp := SameConvolve(b0, g), SameConvolve(b1, g), SameConvolve(bp, g);
    forall i | 0 <= i < |cp|
      ensures OnLineAt(c0, c1, cp, p, i)
    {
      ConvAtAffine(b0, b1, bp, p, g, i + (|g| - 1) / 2, |g|);
    }
  }

  /** Cropping preserves affinity. */
  lemma SliceAffine(c0: seq<real>, c1: seq<real>, cp: seq<real>, p: real, lo: nat, hi: nat)
    requires AffineIn(c0, c1, cp, p) && lo <= hi <= |cp|
    ensures AffineIn(c0[lo..hi], c1[lo..hi], cp[lo..hi], p)
  {
    forall i | 0 <= i < hi - lo
      ensures OnLineAt(c0[lo..hi], c1[lo..hi], cp[lo..hi], p, i)
    {
      assert OnLineAt(c0, c1, cp, p, lo + i);
      assert cp[lo..hi][i] == cp[lo + i];
      assert c0[lo..hi][i] == c0[lo + i];
      assert c1[lo..hi][i] == c1[lo + i];
    }
  }

  /** Clamping index 0 to p is affine in p. */
  lemma ClampAffine(y: Curve, p: real)
    ensures AffineIn(y[0 := 0.0], y[0 := 1.0], y[0 := p], p)
  {
    var y0, y1, yp := y[0 := 0.0], y[0 := 1.0], y[0 := p];
    forall j | 0 <= j < |y|
      ensures OnLineAt(y0, y1, yp, p, j)
    {
    }
  }

  /** Every output of a step is affine in the driving potential. */
  lemma ChargeCurveAffine(g: Kernel, y: Curve, p: real)
    ensures AffineIn(ComputeChargeCurve(g, 0.0, y), ComputeChargeCurve(g, 1.0, y), ComputeChargeCurve(g, p, y), p)
  {
    var k := |g|;
    var b0, b1, bp := Padded(0.0, y, k), Padded(1.0, y, k), Padded(p, y, k);
    PaddedAffine(y, k, p);
    SameConvolveAffine(b0, b1, bp, p, g);
    var c0, c1, cp := SameConvolve(b0, g), SameConvolve(b1, g), SameConvolve(bp, g);
    SliceAffine(c0, c1, cp, p, 2 * k, |cp| - |y|);
  }

  /** The solver's potential for p is index 0 of the step from the original curve. */
  lemma OcpObserved(g: Kernel, y: Curve, p: real)
    ensures CalcOcp(g, y)(p) == ComputeChargeCurve(g, p, y)[0]
  {
    BoundaryValueOverwritten(g, p, y, p);
  }

  /**
   * The solver's current for p (`compute_current` on the curve clamped to p) compares the step
   * from the original curve with the clamped curve.
   */
  lemma CurrentObserved(g: Kernel, y: Curve, p: real)
    ensures ComputeCurrent(g, p, y[0 := p]) == Sum(ComputeChargeCurve(g, p, y)) - Sum(y[0 := p])
  {
    BoundaryValueOverwritten(g, p, y, p);
  }

  /** The current observed on the curve clamped to p is affine in p. */
  lemma ClampedCurrentAffine(g: Kernel, y: Curve, p: real)
    ensures Interpolates(ComputeCurrent(g, 0.0, y[0 := 0.0]), ComputeCurrent(g, 1.0, y[0 := 1.0]),
                         ComputeCurrent(g, p, y[0 := p]), p)
  {
    var a0 := Sum(ComputeChargeCurve(g, 0.0, y)) - Sum(y[0 := 0.0]);
    var a1 := Sum(ComputeChargeCurve(g, 1.0, y)) - Sum(y[0 := 1.0]);
    var ap := Sum(ComputeChargeCurve(g, p, y)) - Sum(y[0 := p]);
    assert Interpolates(a0, a1, ap, p) by {
      NetChargeAffine(g, y, p);
    }
    assert ComputeCurrent(g, 0.0, y[0 := 0.0]) == a0 by {
      CurrentObserved(g, y, 0.0);
    }
    assert ComputeCurrent(g, 1.0, y[0 := 1.0]) == a1 by {
      CurrentObserved(g, y, 1.0);
    }
    assert ComputeCurrent(g, p, y[0 := p]) == ap by {
      CurrentObserved(g, y, p);
    }
    InterpolatesSame(a0, a1, ap, ComputeCurrent(g, 0.0, y[0 := 0.0]), ComputeCurrent(g, 1.0, y[0 := 1.0]),
                     ComputeCurrent(g, p, y[0 := p]), p);
  }

  /** The potential observed on the curve clamped to p is affine in p. */
  lemma ClampedOcpAffine(g: Kernel, y: Curve, p: real)
    ensures Interpolates(ComputeOcp(g, 0.0, y[0 := 0.0]), ComputeOcp(g, 1.0, y[0 := 1.0]),
                         ComputeOcp(g, p, y[0 := p]), p)
  {
    var r0, r1, rp := ComputeChargeCurve(g, 0.0, y), ComputeChargeCurve(g, 1.0, y), ComputeChargeCurve(g, p, y);
    BoundaryValueOverwritten(g, 0.0, y, 0.0);
    BoundaryValueOverwritten(g, 1.0, y, 1.0);
    BoundaryValueOverwritten(g, p, y, p);
    ChargeCurveAffine(g, y, p);
    assert OnLineAt(r0, r1, rp, p, 0);
  }

  /** The charge a step moves, measured against the clamped curve, is affine in p. */
  lemma NetChargeAffine(g: Kernel, y: Curve, p: real)
    ensures Interpolates(Sum(ComputeChargeCurve(g, 0.0, y)) - Sum(y[0 := 0.0]),
                         Sum(ComputeChargeCurve(g, 1.0, y)) - Sum(y[0 := 1.0]),
                         Sum(ComputeChargeCurve(g, p, y)) - Sum(y[0 := p]), p)
  {
    var r0, r1, rp := ComputeChargeCurve(g, 0.0, y), ComputeChargeCurve(g, 1.0, y), ComputeChargeCurve(g, p, y);
    var y0, y1, yp := y[0 := 0.0], y[0 := 1.0], y[0 := p];
    ChargeCurveAffine(g, y, p);
    ClampAffine(y, p);
    SumAffine(r0, r1, rp, p);
    SumAffine(y0, y1, yp, p);
    InterpolatesSub(Sum(r0), Sum(r1), Sum(rp), Sum(y0), Sum(y1), Sum(yp), p);
  }

  // ---------------------------------------------------------------------------
  // The solver's current and the current of an applied step

  lemma {:induction false} SumUpdateFirst(s: seq<real>, v: real)
    requires |s| >= 1
    ensures Sum(s[0 := v]) == Sum(s) + v - s[0]
  {
    var n := |s| - 1;
    if n > 0 {
      assert s[0 := v][..n] == s[..n][0 := v];
      SumUpdateFirst(s[..n], v);
    }
  }

  /**
   * Against the curve it was given, a step under driving potential p moves the charge the
   * solver predicts for p plus (p - y[0]): the solver measures against the clamped curve.
   */
  lemma AppliedCurrentOffset(g: Kernel, y: Curve, p: real)
    ensures Sum(ComputeChargeCurve(g, p, y)) - Sum(y) == CalcCurrent(g, y)(p) + (p - y[0])
  {
    BoundaryValueOverwritten(g, p, y, p);
    SumUpdateFirst(y, p);
  }
}
