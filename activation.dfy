// The elementwise functions of the network: the sigmoid, its derivative expressed in
// terms of the sigmoid's output, and the clamped binary cross-entropy loss.
// The exponential and the logarithm have no exact real model: the sigmoid and the
// natural logarithm are parameters, and only properties that hold for every choice
// of them (or for every choice with a stated sign) are proved.

module Activation {
  import opened LinAlg

  /** The sigmoid applied entry by entry; `sigma` stands for x => 1 / (1 + exp(-x)). */
  function SigmoidVec(sigma: real -> real, z: Vector): (a: Vector)
    ensures |a| == |z| && forall i :: 0 <= i < |z| ==> a[i] == sigma(z[i])
  {
    seq(|z|, i requires 0 <= i < |z| => sigma(z[i]))
  }

  /** Derivative of the sigmoid, given the sigmoid's output a: a * (1 - a), entry by entry. */
  function DSigmoid(a: Vector): (d: Vector)
    ensures |d| == |a|
    ensures forall i :: 0 <= i < |a| ==> d[i] == a[i] * (1.0 - a[i])
  {
    seq(|a|, i requires 0 <= i < |a| => a[i] * (1.0 - a[i]))
  }

  /** On outputs in [0, 1] the derivative lies in [0, 1/4]. */
  lemma DSigmoidBounds(a: Vector)
    ensures forall i :: 0 <= i < |a| && 0.0 <= a[i] <= 1.0 ==>
      0.0 <= DSigmoid(a)[i] <= 0.25
  {
    forall i | 0 <= i < |a| && 0.0 <= a[i] <= 1.0
      ensures 0.0 <= DSigmoid(a)[i] <= 0.25
    {
      var x := a[i];
      assert DSigmoid(a)[i] == x * (1.0 - x);
      assert 0.25 - x * (1.0 - x) == (x - 0.5) * (x - 0.5);
      MulSigns(x - 0.5, x - 0.5);
      MulSigns(x, 1.0 - x);
    }
  }

  /** The derivative vanishes exactly where the output is 0 or 1. */
  lemma DSigmoidVanishes(a: Vector)
    ensures forall i :: 0 <= i < |a| ==> (DSigmoid(a)[i] == 0.0 <==> a[i] == 0.0 || a[i] == 1.0)
  {
    forall i | 0 <= i < |a|
      ensures DSigmoid(a)[i] == 0.0 <==> a[i] == 0.0 || a[i] == 1.0
    {
      var x := a[i];
      assert DSigmoid(a)[i] == x * (1.0 - x);
      MulSigns(x, 1.0 - x);
    }
  }

  lemma DSigmoidSamples()
    ensures DSigmoid([0.0, 0.5, 1.0]) == [0.0, 0.25, 0.0]
  {
  }

  /** The clamping bound of the loss. */
  const Epsilon: real := 0.000000000001

  /** Each entry clamped into [Epsilon, 1 - Epsilon]: max with Epsilon first, then min with 1 - Epsilon. */
  function Clamp(v: Vector): (c: Vector)
    ensures |c| == |v|
    ensures forall i :: 0 <= i < |v| ==> Epsilon <= c[i] <= 1.0 - Epsilon
    ensures forall i :: 0 <= i < |v| && Epsilon <= v[i] <= 1.0 - Epsilon ==> c[i] == v[i]
  {
    seq(|v|, i requires 0 <= i < |v| =>
      var lo := if v[i] < Epsilon then Epsilon else v[i];
      if lo > 1.0 - Epsilon then 1.0 - Epsilon else lo)
  }

  /** Sum over the units of t * ln(a) + (1 - t) * ln(1 - a). With a logarithm that is
      non-positive on (0, 1], entries of a inside (0, 1) and targets in [0, 1], every term,
      and so the sum, is non-positive. */
  function LogLikelihood(ln: real -> real, a: Vector, t: Vector): (r: real)
    requires |a| == |t|
    ensures (forall x :: 0.0 < x <= 1.0 ==> ln(x) <= 0.0)
         && (forall i :: 0 <= i < |a| ==> 0.0 < a[i] < 1.0)
         && (forall i :: 0 <= i < |t| ==> 0.0 <= t[i] <= 1.0)
         ==> r <= 0.0
    decreases |a|
  {
    if |a| == 0 then 0.0
    else
      var n := |a| - 1;
      MulSigns(t[n], ln(a[n]));
      MulSigns(1.0 - t[n], ln(1.0 - a[n]));
      LogLikelihood(ln, a[..n], t[..n]) + (t[n] * ln(a[n]) + (1.0 - t[n]) * ln(1.0 - a[n]))
  }

  /** Binary cross-entropy of the clamped output against the desired output. For targets in
      [0, 1] and a logarithm that is non-positive on (0, 1], the loss is never negative: the
      clamp is what keeps both logarithm arguments inside (0, 1], whatever the output. */
  function CrossEntropy(ln: real -> real, output: Vector, desired: Vector): (c: real)
    requires |output| == |desired|
    ensures (forall x :: 0.0 < x <= 1.0 ==> ln(x) <= 0.0)
         && (forall i :: 0 <= i < |desired| ==> 0.0 <= desired[i] <= 1.0)
         ==> c >= 0.0
  {
    -LogLikelihood(ln, Clamp(output), desired)
  }

  /** Sign rules for a product of two reals. */
  lemma MulSigns(x: real, y: real)
    ensures x >= 0.0 && y >= 0.0 ==> x * y >= 0.0
    ensures x >= 0.0 && y <= 0.0 ==> x * y <= 0.0
    ensures x == y ==> x * y >= 0.0
    ensures x * y == 0.0 <==> x == 0.0 || y == 0.0
  {
    if x > 0.0 && y > 0.0 {
      assert x * y > 0.0;
    } else if x < 0.0 && y < 0.0 {
      assert x * y == (-x) * (-y);
    } else if x > 0.0 && y < 0.0 {
      assert x * y == -(x * (-y));
    } else if x < 0.0 && y > 0.0 {
      assert x * y == -((-x) * y);
    }
  }

  /** Clamping is idempotent, so the loss of an already clamped output is the same. */
  lemma CrossEntropyOfClamped(ln: real -> real, output: Vector, desired: Vector)
    requires |output| == |desired|
    ensures CrossEntropy(ln, Clamp(output), desired) == CrossEntropy(ln, output, desired)
  {
    assert Clamp(Clamp(output)) == Clamp(output);
  }
}
