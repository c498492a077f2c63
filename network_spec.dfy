// What the network computes, as functions of its parameters: the forward pass, the
// backpropagated errors, the gradient of one example and of a batch, one gradient-descent
// step, one epoch of mini-batch steps, and the count of correct predictions.
// The class in network.dfy is proved to compute exactly these.

module NetworkSpec {
  import opened LinAlg
  import opened Activation
  import opened Batching

  /** Weight matrices and bias vectors, one of each per pair of adjacent layers.
      Gradient accumulators have the same shape and are values of the same type. */
  datatype Params = Params(w: seq<Matrix>, b: seq<Vector>)

  /** Matrix i is sizes[i+1] x sizes[i] and bias i has length sizes[i+1]. */
  predicate ParamsShaped(sizes: seq<nat>, p: Params) {
    && |sizes| >= 1 && |p.w| == |sizes| - 1 && |p.b| == |sizes| - 1
    && (forall i {:trigger p.w[i]} :: 0 <= i < |p.w| ==> IsMatrix(p.w[i], sizes[i + 1], sizes[i]))
    && (forall i {:trigger p.b[i]} :: 0 <= i < |p.b| ==> |p.b[i]| == sizes[i + 1])
  }

  /** One activation vector per layer, layer i of length sizes[i]. */
  predicate ActivationsShaped(sizes: seq<nat>, al: seq<Vector>) {
    |al| == |sizes| && forall i :: 0 <= i < |sizes| ==> |al[i]| == sizes[i]
  }

  /** Every input has the input layer's length and every target the output layer's. */
  predicate ExamplesShaped(sizes: seq<nat>, xs: seq<Vector>, ys: seq<Vector>) {
    |sizes| >= 1 && |xs| == |ys| &&
    forall k :: 0 <= k < |xs| ==> |xs[k]| == sizes[0] && |ys[k]| == sizes[|sizes| - 1]
  }

  // ---------------------------------------------------------------------------
  // Forward pass

  /** z = W a + b. */
  function PreActivation(w: Matrix, b: Vector, a: Vector): (z: Vector)
    requires |b| == |w| && forall r :: 0 <= r < |w| ==> |w[r]| == |a|
    ensures |z| == |w|
  {
    Add(MatVec(w, a), b)
  }

  /** Activation of layer i on input x: x itself for i = 0, sigmoid(W a + b) of the layer below otherwise. */
  function ActivationAt(sigma: real -> real, sizes: seq<nat>, p: Params, x: Vector, i: nat): (a: Vector)
    requires ParamsShaped(sizes, p) && |x| == sizes[0] && i < |sizes|
    ensures |a| == sizes[i]
    decreases i
  {
    if i == 0 then x
    else SigmoidVec(sigma, PreActivation(p.w[i - 1], p.b[i - 1], ActivationAt(sigma, sizes, p, x, i - 1)))
  }

  /** All layer activations on input x. */
  function Forward(sigma: real -> real, sizes: seq<nat>, p: Params, x: Vector): (al: seq<Vector>)
    requires ParamsShaped(sizes, p) && |x| == sizes[0]
    ensures ActivationsShaped(sizes, al) && al[0] == x
  {
    seq(|sizes|, i requires 0 <= i < |sizes| => ActivationAt(sigma, sizes, p, x, i))
  }

  /** Each layer's activation is the sigmoid of the weighted input from the layer below. */
  lemma ForwardStep(sigma: real -> real, sizes: seq<nat>, p: Params, x: Vector, i: nat)
    requires ParamsShaped(sizes, p) && |x| == sizes[0] && i < |p.w|
    ensures Forward(sigma, sizes, p, x)[i + 1] ==
      SigmoidVec(sigma, PreActivation(p.w[i], p.b[i], Forward(sigma, sizes, p, x)[i]))
  {
    var al := Forward(sigma, sizes, p, x);
    assert al[i] == ActivationAt(sigma, sizes, p, x, i);
    assert al[i + 1] == ActivationAt(sigma, sizes, p, x, i + 1);
  }

  /** The network's prediction: the last layer's activation. */
  function Output(sigma: real -> real, sizes: seq<nat>, p: Params, x: Vector): (y: Vector)
    requires ParamsShaped(sizes, p) && |x| == sizes[0]
    ensures y == Forward(sigma, sizes, p, x)[|sizes| - 1]
  {
    ActivationAt(sigma, sizes, p, x, |sizes| - 1)
  }

  /** With all weights and biases zero and sigma(0) = 1/2, every unit past the input layer
      outputs 1/2, whatever the input. */
  lemma ForwardOfZeroParams(sigma: real -> real, sizes: seq<nat>, p: Params, x: Vector)
    requires ParamsShaped(sizes, p) && |x| == sizes[0] && sigma(0.0) == 0.5
    requires forall i {:trigger p.w[i]} :: 0 <= i < |p.w| ==> p.w[i] == ZeroMatrix(sizes[i + 1], sizes[i])
    requires forall i {:trigger p.b[i]} :: 0 <= i < |p.b| ==> p.b[i] == Zeros(sizes[i + 1])
    ensures forall i :: 1 <= i < |sizes| ==> Forward(sigma, sizes, p, x)[i] == seq(sizes[i], _ => 0.5)
  {
    var al := Forward(sigma, sizes, p, x);
    forall i | 1 <= i < |sizes|
      ensures al[i] == seq(sizes[i], _ => 0.5)
    {
      MatVecZeroMatrix(sizes[i], al[i - 1]);
      assert PreActivation(p.w[i - 1], p.b[i - 1], al[i - 1]) == Zeros(sizes[i]);
    }
  }

  // ---------------------------------------------------------------------------
  // Backward pass

  /** The error used at layer pair i: output minus target at the top pair, and below it
      (W_{i+1}^T delta_{i+1}) .* dSigmoid(a_{i+1}). */
  function DeltaAt(sizes: seq<nat>, p: Params, al: seq<Vector>, y: Vector, i: nat): (d: Vector)
    requires ParamsShaped(sizes, p) && ActivationsShaped(sizes, al) && |y| == sizes[|sizes| - 1]
    requires i < |p.w|
    ensures |d| == sizes[i + 1]
    decreases |p.w| - i
  {
    if i == |p.w| - 1 then Sub(al[|sizes| - 1], y)
    else Hadamard(MatTVec(p.w[i + 1], sizes[i + 1], DeltaAt(sizes, p, al, y, i + 1)), DSigmoid(al[i + 1]))
  }

  /** What backprop adds for one example: delta_i a_i^T to weight gradient i, delta_i to bias gradient i. */
  function ExampleGrads(sizes: seq<nat>, p: Params, al: seq<Vector>, y: Vector): (g: Params)
    requires ParamsShaped(sizes, p) && ActivationsShaped(sizes, al) && |y| == sizes[|sizes| - 1]
    ensures ParamsShaped(sizes, g)
  {
    Params(seq(|p.w|, i requires 0 <= i < |p.w| => Outer(DeltaAt(sizes, p, al, y, i), al[i])),
           seq(|p.w|, i requires 0 <= i < |p.w| => DeltaAt(sizes, p, al, y, i)))
  }

  function ZeroParams(sizes: seq<nat>): (z: Params)
    requires |sizes| >= 1
    ensures ParamsShaped(sizes, z)
    ensures forall i {:trigger z.w[i]} :: 0 <= i < |sizes| - 1 ==> z.w[i] == ZeroMatrix(sizes[i + 1], sizes[i])
    ensures forall i {:trigger z.b[i]} :: 0 <= i < |sizes| - 1 ==> z.b[i] == Zeros(sizes[i + 1])
  {
    Params(seq(|sizes| - 1, i requires 0 <= i < |sizes| - 1 => ZeroMatrix(sizes[i + 1], sizes[i])),
           seq(|sizes| - 1, i requires 0 <= i < |sizes| - 1 => Zeros(sizes[i + 1])))
  }

  /** Entry-by-entry sum of two equally shaped parameter sets (the `+=` of backprop). */
  function AddParams(sizes: seq<nat>, g: Params, h: Params): (s: Params)
    requires ParamsShaped(sizes, g) && ParamsShaped(sizes, h)
    ensures ParamsShaped(sizes, s)
    ensures forall i :: 0 <= i < |g.w| ==> s.w[i] == MatAdd(g.w[i], h.w[i]) && s.b[i] == Add(g.b[i], h.b[i])
  {
    Params(seq(|g.w|, i requires 0 <= i < |g.w| => MatAdd(g.w[i], h.w[i])),
           seq(|g.b|, i requires 0 <= i < |g.b| => Add(g.b[i], h.b[i])))
  }

  /** If the output already equals the target, every backpropagated error is the zero vector. */
  lemma {:induction false} DeltasVanish(sizes: seq<nat>, p: Params, al: seq<Vector>, y: Vector, i: nat)
    requires ParamsShaped(sizes, p) && ActivationsShaped(sizes, al) && |y| == sizes[|sizes| - 1]
    requires i < |p.w| && al[|sizes| - 1] == y
    ensures DeltaAt(sizes, p, al, y, i) == Zeros(sizes[i + 1])
    decreases |p.w| - i
  {
    if i == |p.w| - 1 {
      SubSelf(y);
    } else {
      DeltasVanish(sizes, p, al, y, i + 1);
      MatTVecZero(p.w[i + 1], sizes[i + 1]);
      HadamardZeroLeft(DSigmoid(al[i + 1]));
    }
  }

  /** Zero error means zero gradient: adding one example's gradients to an accumulator whose
      example is already predicted exactly leaves the accumulator as it was. */
  lemma ZeroErrorLeavesAccumulator(sizes: seq<nat>, p: Params, al: seq<Vector>, y: Vector, acc: Params)
    requires ParamsShaped(sizes, p) && ActivationsShaped(sizes, al) && |y| == sizes[|sizes| - 1]
    requires ParamsShaped(sizes, acc) && al[|sizes| - 1] == y
    ensures ExampleGrads(sizes, p, al, y) == ZeroParams(sizes)
    ensures AddParams(sizes, acc, ExampleGrads(sizes, p, al, y)) == acc
  {
    var g := ExampleGrads(sizes, p, al, y);
    forall i | 0 <= i < |p.w|
      ensures g.w[i] == ZeroMatrix(sizes[i + 1], sizes[i]) && g.b[i] == Zeros(sizes[i + 1])
    {
      DeltasVanish(sizes, p, al, y, i);
      OuterZeroLeft(sizes[i + 1], al[i]);
    }
    AddZeroParams(sizes, acc);
  }

  lemma AddZeroParams(sizes: seq<nat>, acc: Params)
    requires ParamsShaped(sizes, acc)
    ensures AddParams(sizes, acc, ZeroParams(sizes)) == acc
  {
    var s := AddParams(sizes, acc, ZeroParams(sizes));
    forall i | 0 <= i < |acc.w|
      ensures s.w[i] == acc.w[i] && s.b[i] == acc.b[i]
    {
      MatAddZeroRight(acc.w[i], sizes[i + 1], sizes[i]);
      AddZeroRight(acc.b[i]);
    }
  }

  // ---------------------------------------------------------------------------
  // One batch

  /** The accumulators after zeroing and then running feedforward + backprop on every example
      of the batch in order, all with the same parameters p. */
  function BatchGrads(sigma: real -> real, sizes: seq<nat>, p: Params, xs: seq<Vector>, ys: seq<Vector>): (g: Params)
    requires ParamsShaped(sizes, p) && ExamplesShaped(sizes, xs, ys)
    ensures ParamsShaped(sizes, g)
    decreases |xs|
  {
    if |xs| == 0 then ZeroParams(sizes)
    else
      var n := |xs| - 1;
      AddParams(sizes, BatchGrads(sigma, sizes, p, xs[..n], ys[..n]),
                ExampleGrads(sizes, p, Forward(sigma, sizes, p, xs[n]), ys[n]))
  }

  /** Running the batch one example further adds that example's gradient to the sum so far. */
  lemma BatchGradsExtend(sigma: real -> real, sizes: seq<nat>, p: Params, xs: seq<Vector>, ys: seq<Vector>, k: nat)
    requires ParamsShaped(sizes, p) && ExamplesShaped(sizes, xs, ys) && k < |xs|
    ensures BatchGrads(sigma, sizes, p, xs[..k + 1], ys[..k + 1]) ==
      AddParams(sizes, BatchGrads(sigma, sizes, p, xs[..k], ys[..k]),
                ExampleGrads(sizes, p, Forward(sigma, sizes, p, xs[k]), ys[k]))
  {
    assert xs[..k + 1][..k] == xs[..k] && ys[..k + 1][..k] == ys[..k];
  }

  /** p - c * g, matrix by matrix and vector by vector. */
  function ApplyUpdate(sizes: seq<nat>, p: Params, c: real, g: Params): (q: Params)
    requires ParamsShaped(sizes, p) && ParamsShaped(sizes, g)
    ensures ParamsShaped(sizes, q)
    ensures forall i :: 0 <= i < |p.w| ==> q.w[i] == MatSub(p.w[i], MatScale(c, g.w[i])) && q.b[i] == Sub(p.b[i], Scale(c, g.b[i]))
  {
    Params(seq(|p.w|, i requires 0 <= i < |p.w| => MatSub(p.w[i], MatScale(c, g.w[i]))),
           seq(|p.b|, i requires 0 <= i < |p.b| => Sub(p.b[i], Scale(c, g.b[i]))))
  }

  /** One gradient-descent step on a non-empty batch: subtract learnRate / N times the summed gradient. */
  function DescentStep(sigma: real -> real, sizes: seq<nat>, learnRate: real, p: Params, xs: seq<Vector>, ys: seq<Vector>): (q: Params)
    requires ParamsShaped(sizes, p) && ExamplesShaped(sizes, xs, ys) && |xs| > 0
    ensures ParamsShaped(sizes, q)
  {
    ApplyUpdate(sizes, p, learnRate / (|xs| as real), BatchGrads(sigma, sizes, p, xs, ys))
  }

  /** Every example's output equals its target exactly. */
  predicate AllExact(sigma: real -> real, sizes: seq<nat>, p: Params, xs: seq<Vector>, ys: seq<Vector>)
    requires ParamsShaped(sizes, p) && ExamplesShaped(sizes, xs, ys)
  {
    forall k :: 0 <= k < |xs| ==> Output(sigma, sizes, p, xs[k]) == ys[k]
  }

  lemma {:induction false} BatchGradsVanish(sigma: real -> real, sizes: seq<nat>, p: Params, xs: seq<Vector>, ys: seq<Vector>)
    requires ParamsShaped(sizes, p) && ExamplesShaped(sizes, xs, ys)
    requires AllExact(sigma, sizes, p, xs, ys)
    ensures BatchGrads(sigma, sizes, p, xs, ys) == ZeroParams(sizes)
    decreases |xs|
  {
    if |xs| > 0 {
      var n := |xs| - 1;
      AllExactPrefix(sigma, sizes, p, xs, ys, n);
      BatchGradsVanish(sigma, sizes, p, xs[..n], ys[..n]);
      ExactExampleVanishes(sigma, sizes, p, xs[n], ys[n]);
    }
  }

  /** A prefix of an exactly predicted batch is exactly predicted. */
  lemma AllExactPrefix(sigma: real -> real, sizes: seq<nat>, p: Params, xs: seq<Vector>, ys: seq<Vector>, n: nat)
    requires ParamsShaped(sizes, p) && ExamplesShaped(sizes, xs, ys) && n <= |xs|
    requires AllExact(sigma, sizes, p, xs, ys)
    ensures ExamplesShaped(sizes, xs[..n], ys[..n]) && AllExact(sigma, sizes, p, xs[..n], ys[..n])
  {
    var xs', ys' := xs[..n], ys[..n];
    assert ExamplesShaped(sizes, xs', ys');
    forall k | 0 <= k < n
      ensures Output(sigma, sizes, p, xs'[k]) == ys'[k]
    {
      assert xs'[k] == xs[k] && ys'[k] == ys[k];
    }
  }

  /** An example predicted exactly contributes nothing to the batch gradient. */
  lemma ExactExampleVanishes(sigma: real -> real, sizes: seq<nat>, p: Params, x: Vector, y: Vector)
    requires ParamsShaped(sizes, p) && |x| == sizes[0] && |y| == sizes[|sizes| - 1]
    requires Output(sigma, sizes, p, x) == y
    ensures AddParams(sizes, ZeroParams(sizes), ExampleGrads(sizes, p, Forward(sigma, sizes, p, x), y)) == ZeroParams(sizes)
  {
    var al := Forward(sigma, sizes, p, x);
    ZeroErrorLeavesAccumulator(sizes, p, al, y, ZeroParams(sizes));
  }

  /** If every example of the batch is already predicted exactly, the step changes nothing. */
  lemma DescentStepFixedWhenExact(sigma: real -> real, sizes: seq<nat>, learnRate: real, p: Params, xs: seq<Vector>, ys: seq<Vector>)
    requires ParamsShaped(sizes, p) && ExamplesShaped(sizes, xs, ys) && |xs| > 0
    requires AllExact(sigma, sizes, p, xs, ys)
    ensures DescentStep(sigma, sizes, learnRate, p, xs, ys) == p
  {
    BatchGradsVanish(sigma, sizes, p, xs, ys);
    ApplyZeroUpdate(sizes, p, learnRate / (|xs| as real));
  }

  lemma ApplyZeroUpdate(sizes: seq<nat>, p: Params, c: real)
    requires ParamsShaped(sizes, p)
    ensures ApplyUpdate(sizes, p, c, ZeroParams(sizes)) == p
  {
    var z := ZeroParams(sizes);
    var q := ApplyUpdate(sizes, p, c, z);
    forall i | 0 <= i < |p.w|
      ensures q.w[i] == p.w[i]
    {
      assert z.w[i] == ZeroMatrix(sizes[i + 1], sizes[i]);
      MatSubScaledZero(p.w[i], c, sizes[i + 1], sizes[i]);
    }
    forall i | 0 <= i < |p.b|
      ensures q.b[i] == p.b[i]
    {
      assert z.b[i] == Zeros(sizes[i + 1]);
    }
    assert q.w == p.w && q.b == p.b;
  }

  // ---------------------------------------------------------------------------
  // One epoch

  /** The parameters after one descent step per chunk, chunks taken in order, each step on the
      examples (and the targets) the chunk's indices name. As with `Dot`, the step is split
      off into `LastChunkParams` so that the verifier unfolds one chunk at a time. */
  function EpochParams(sigma: real -> real, sizes: seq<nat>, learnRate: real, p: Params,
                       xs: seq<Vector>, ys: seq<Vector>, cs: seq<seq<nat>>): (q: Params)
    requires ParamsShaped(sizes, p) && ExamplesShaped(sizes, xs, ys) && ChunksIndexBelow(cs, |xs|)
    ensures ParamsShaped(sizes, q)
    decreases |cs|, 1
  {
    if |cs| == 0 then p else LastChunkParams(sigma, sizes, learnRate, p, xs, ys, cs)
  }

  /** The descent step on the last chunk of cs, taken from where the earlier chunks left off. */
  function LastChunkParams(sigma: real -> real, sizes: seq<nat>, learnRate: real, p: Params,
                           xs: seq<Vector>, ys: seq<Vector>, cs: seq<seq<nat>>): (q: Params)
    requires ParamsShaped(sizes, p) && ExamplesShaped(sizes, xs, ys) && ChunksIndexBelow(cs, |xs|) && |cs| > 0
    ensures ParamsShaped(sizes, q)
    decreases |cs|, 0
  {
    var n := |cs| - 1;
    assert ChunksIndexBelow(cs[..n], |xs|);
    DescentStep(sigma, sizes, learnRate, EpochParams(sigma, sizes, learnRate, p, xs, ys, cs[..n]),
                Gather(xs, cs[n]), Gather(ys, cs[n]))
  }

  /** Training on one more chunk takes one more descent step from where the earlier chunks left off. */
  lemma EpochParamsExtend(sigma: real -> real, sizes: seq<nat>, learnRate: real, p: Params,
                          xs: seq<Vector>, ys: seq<Vector>, cs: seq<seq<nat>>, c: seq<nat>)
    requires ParamsShaped(sizes, p) && ExamplesShaped(sizes, xs, ys) && ChunksIndexBelow(cs, |xs|)
    requires ChunkIndexBelow(c, |xs|)
    ensures ChunksIndexBelow(cs + [c], |xs|)
    ensures EpochParams(sigma, sizes, learnRate, p, xs, ys, cs + [c]) ==
      DescentStep(sigma, sizes, learnRate, EpochParams(sigma, sizes, learnRate, p, xs, ys, cs), Gather(xs, c), Gather(ys, c))
  {
    assert (cs + [c])[..|cs|] == cs;
  }

  // ---------------------------------------------------------------------------
  // Evaluation

  /** The prediction's first maximal index equals the target's first maximal index. */
  predicate Correct(sigma: real -> real, sizes: seq<nat>, p: Params, x: Vector, y: Vector)
    requires ParamsShaped(sizes, p) && |x| == sizes[0] && sizes[|sizes| - 1] > 0 && |y| > 0
  {
    ArgMax(Output(sigma, sizes, p, x)) == ArgMax(y)
  }

  /** Inputs fit the input layer, and targets are non-empty and as many as the inputs. */
  predicate EvalShaped(sizes: seq<nat>, xs: seq<Vector>, ys: seq<Vector>) {
    |sizes| >= 1 && sizes[|sizes| - 1] > 0 && |xs| == |ys| &&
    forall k :: 0 <= k < |xs| ==> |xs[k]| == sizes[0] && |ys[k]| > 0
  }

  /** Whether each example is predicted correctly, in example order. */
  function Outcomes(sigma: real -> real, sizes: seq<nat>, p: Params, xs: seq<Vector>, ys: seq<Vector>): (hits: seq<bool>)
    requires ParamsShaped(sizes, p) && EvalShaped(sizes, xs, ys)
    ensures |hits| == |xs| && forall k :: 0 <= k < |xs| ==> hits[k] == Correct(sigma, sizes, p, xs[k], ys[k])
  {
    seq(|xs|, k requires 0 <= k < |xs| => Correct(sigma, sizes, p, xs[k], ys[k]))
  }

  /** The number of true entries. */
  function CountTrue(bs: seq<bool>): nat
    decreases |bs|
  {
    if |bs| == 0 then 0 else CountTrue(bs[..|bs| - 1]) + if bs[|bs| - 1] then 1 else 0
  }

  lemma {:induction false} CountTrueBounds(bs: seq<bool>)
    ensures CountTrue(bs) <= |bs|
    ensures CountTrue(bs) == |bs| <==> forall k :: 0 <= k < |bs| ==> bs[k]
    ensures CountTrue(bs) == 0 <==> forall k :: 0 <= k < |bs| ==> !bs[k]
    decreases |bs|
  {
    if |bs| > 0 {
      var n := |bs| - 1;
      CountTrueBounds(bs[..n]);
      assert forall k :: 0 <= k < n ==> bs[..n][k] == bs[k];
    }
  }

  /** How many examples are predicted correctly. */
  function CountCorrect(sigma: real -> real, sizes: seq<nat>, p: Params, xs: seq<Vector>, ys: seq<Vector>): nat
    requires ParamsShaped(sizes, p) && EvalShaped(sizes, xs, ys)
  {
    CountTrue(Outcomes(sigma, sizes, p, xs, ys))
  }

  /** The count lies between 0 and the number of examples; it is the number of examples exactly
      when every prediction is correct, and 0 exactly when none is. */
  lemma CountCorrectBounds(sigma: real -> real, sizes: seq<nat>, p: Params, xs: seq<Vector>, ys: seq<Vector>)
    requires ParamsShaped(sizes, p) && EvalShaped(sizes, xs, ys)
    ensures CountCorrect(sigma, sizes, p, xs, ys) <= |xs|
    ensures CountCorrect(sigma, sizes, p, xs, ys) == |xs| <==>
      forall k :: 0 <= k < |xs| ==> Correct(sigma, sizes, p, xs[k], ys[k])
    ensures CountCorrect(sigma, sizes, p, xs, ys) == 0 <==>
      forall k :: 0 <= k < |xs| ==> !Correct(sigma, sizes, p, xs[k], ys[k])
  {
    CountTrueBounds(Outcomes(sigma, sizes, p, xs, ys));
  }

  /** Accuracy in percent, as reported after a full pass. */
  function AccuracyPercent(correct: nat, total: nat): (r: real)
    requires 0 < total && correct <= total
    ensures 0.0 <= r <= 100.0
    ensures r == 100.0 <==> correct == total
    ensures r == 0.0 <==> correct == 0
  {
    (correct as real) / (total as real) * 100.0
  }
}
