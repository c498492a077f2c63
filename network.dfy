// The network object: its layer sizes, its parameters, the activation scratch buffers that
// every forward pass overwrites, and the training and evaluation loops that drive them.
// Each method is proved to leave the object in the state the functions of NetworkSpec describe.

module NeuralNetwork {
  import opened LinAlg
  import opened Activation
  import opened Batching
  import opened NetworkSpec

  /** Gradient accumulators owned by the caller of Backprop, which adds into them in place. */
  class Gradients {
    var nablaW: seq<Matrix>
    var nablaB: seq<Vector>

    function Value(): Params
      reads this
    {
      Params(nablaW, nablaB)
    }

    /** Zero accumulators shaped like the parameters of a network with these layer sizes. */
    constructor Zero(sizes: seq<nat>)
      requires |sizes| >= 1
      ensures Value() == ZeroParams(sizes)
    {
      var n := |sizes| - 1;
      nablaW := seq(n, _ => []);
      nablaB := seq(n, _ => []);
      new;
      for i := 0 to n
        invariant |nablaW| == n && |nablaB| == n
        invariant forall k {:trigger nablaW[k]} :: 0 <= k < i ==> nablaW[k] == ZeroMatrix(sizes[k + 1], sizes[k])
        invariant forall k {:trigger nablaB[k]} :: 0 <= k < i ==> nablaB[k] == Zeros(sizes[k + 1])
      {
        nablaW := nablaW[i := ZeroMatrix(sizes[i + 1], sizes[i])];
        nablaB := nablaB[i := Zeros(sizes[i + 1])];
      }
      assert nablaW == ZeroParams(sizes).w;
      assert nablaB == ZeroParams(sizes).b;
    }
  }

  /** The first n entries of s are those of t. */
  ghost predicate AgreeUpTo<T>(s: seq<T>, t: seq<T>, n: nat)
  {
    n <= |s| && n <= |t| && forall k :: 0 <= k < n ==> s[k] == t[k]
  }

  /** Writing t's entry n into s extends the agreement by one entry. */
  lemma AgreeExtend<T>(s: seq<T>, t: seq<T>, n: nat, v: T)
    requires AgreeUpTo(s, t, n) && n < |s| && n < |t| && v == t[n]
    ensures AgreeUpTo(s[n := v], t, n + 1)
  {
  }

  /** The weighted inputs W a + b of every layer pair on the forward pass of x. */
  ghost function WeightedInputs(sigma: real -> real, sizes: seq<nat>, p: Params, x: Vector): (zs: seq<Vector>)
    requires ParamsShaped(sizes, p) && |x| == sizes[0]
    ensures |zs| == |p.w|
  {
    var al := Forward(sigma, sizes, p, x);
    seq(|p.w|, k requires 0 <= k < |p.w| => PreActivation(p.w[k], p.b[k], al[k]))
  }

  /** The layer loop of feedforward on the buffers a (activations) and z (pre-activations):
      a[0] := x, then z[i] := w[i] a[i] + b[i] and a[i+1] := sigma(z[i]) for each layer pair. */
  method ForwardLayers(sigma: real -> real, sizes: seq<nat>, p: Params, x: Vector,
                       a0: seq<Vector>, z0: seq<Vector>) returns (a: seq<Vector>, z: seq<Vector>)
    requires ParamsShaped(sizes, p) && |x| == sizes[0] && |a0| == |sizes| && |z0| == |sizes|
    ensures a == Forward(sigma, sizes, p, x)
    ensures |z| == |sizes| && z[|sizes| - 1] == z0[|sizes| - 1]
    ensures forall i {:trigger p.w[i]} :: 0 <= i < |p.w| ==> z[i] == PreActivation(p.w[i], p.b[i], a[i])
  {
    ghost var al := Forward(sigma, sizes, p, x);
    ghost var zs := WeightedInputs(sigma, sizes, p, x);
    a, z := a0[0 := x], z0;
    for i := 0 to |p.w|
      invariant |a| == |sizes| && |z| == |sizes| && z[|sizes| - 1] == z0[|sizes| - 1]
      invariant AgreeUpTo(a, al, i + 1) && AgreeUpTo(z, zs, i)
    {
      ForwardStep(sigma, sizes, p, x, i);
      var zi := PreActivation(p.w[i], p.b[i], a[i]);
      AgreeExtend(z, zs, i, zi);
      AgreeExtend(a, al, i + 1, SigmoidVec(sigma, zi));
      z := z[i := zi];
      a := a[i + 1 := SigmoidVec(sigma, zi)];
    }
  }

  method BackwardLayers(sizes: seq<nat>, p: Params, a: seq<Vector>, y: Vector,
                        nablaW0: seq<Matrix>, nablaB0: seq<Vector>) returns (nablaW: seq<Matrix>, nablaB: seq<Vector>)
    requires ParamsShaped(sizes, p) && ActivationsShaped(sizes, a) && |y| == sizes[|sizes| - 1]
    requires ParamsShaped(sizes, Params(nablaW0, nablaB0))
    ensures Params(nablaW, nablaB) == AddParams(sizes, Params(nablaW0, nablaB0), ExampleGrads(sizes, p, a, y))
  {
    nablaW, nablaB := nablaW0, nablaB0;
    var deltaL := Sub(a[|sizes| - 1], y);
    var i := |p.w| - 1;
    while i >= 0
      invariant -1 <= i < |p.w|
      invariant |nablaW| == |p.w| && |nablaB| == |p.w|
      invariant i >= 0 ==> deltaL == DeltaAt(sizes, p, a, y, i)
      invariant forall k {:trigger nablaW[k]} :: i < k < |p.w| ==>
        nablaW[k] == MatAdd(nablaW0[k], Outer(DeltaAt(sizes, p, a, y, k), a[k]))
      invariant forall k {:trigger nablaB[k]} :: i < k < |p.w| ==>
        nablaB[k] == Add(nablaB0[k], DeltaAt(sizes, p, a, y, k))
      invariant forall k {:trigger nablaW[k]} :: 0 <= k <= i ==> nablaW[k] == nablaW0[k]
      invariant forall k {:trigger nablaB[k]} :: 0 <= k <= i ==> nablaB[k] == nablaB0[k]
      decreases i + 1
    {
      nablaW := nablaW[i := MatAdd(nablaW[i], Outer(deltaL, a[i]))];
      nablaB := nablaB[i := Add(nablaB[i], deltaL)];
      if i >= 1 {
        deltaL := Hadamard(MatTVec(p.w[i], sizes[i], deltaL), DSigmoid(a[i]));
      }
      i := i - 1;
    }
    ghost var sum := AddParams(sizes, Params(nablaW0, nablaB0), ExampleGrads(sizes, p, a, y));
    assert nablaW == sum.w && nablaB == sum.b;
  }

  /** The update loop of gradient descent: w[i] -= c * g.w[i] and b[i] -= c * g.b[i] for every layer pair. */
  method UpdateLayers(sizes: seq<nat>, p: Params, c: real, g: Params) returns (w: seq<Matrix>, b: seq<Vector>)
    requires ParamsShaped(sizes, p) && ParamsShaped(sizes, g)
    ensures Params(w, b) == ApplyUpdate(sizes, p, c, g)
  {
    w, b := p.w, p.b;
    for i := 0 to |w|
      invariant |w| == |p.w| && |b| == |p.b|
      invariant forall j {:trigger w[j]} :: 0 <= j < i ==> w[j] == MatSub(p.w[j], MatScale(c, g.w[j]))
      invariant forall j {:trigger b[j]} :: 0 <= j < i ==> b[j] == Sub(p.b[j], Scale(c, g.b[j]))
      invariant forall j {:trigger w[j]} :: i <= j < |w| ==> w[j] == p.w[j]
      invariant forall j {:trigger b[j]} :: i <= j < |b| ==> b[j] == p.b[j]
    {
      w := w[i := MatSub(w[i], MatScale(c, g.w[i]))];
      b := b[i := Sub(b[i], Scale(c, g.b[i]))];
    }
    ghost var q := ApplyUpdate(sizes, p, c, g);
    assert w == q.w && b == q.b;
  }

  /** The inner loop of an epoch: the examples indices[i], indices[i+1], ... and their targets,
      at most b of them and fewer when the list ends first. */
  method GatherChunk<T>(input: seq<T>, output: seq<T>, indices: seq<nat>, i: nat, b: int)
    returns (xs: seq<T>, ys: seq<T>, ghost chunk: seq<nat>)
    requires b > 0 && |output| == |input| && |indices| == |input| && i < |input|
    requires forall k :: 0 <= k < |indices| ==> indices[k] < |input|
    ensures chunk == indices[i..Min(i + b, |input|)] && ChunkIndexBelow(chunk, |input|)
    ensures xs == Gather(input, indices[i..Min(i + b, |input|)])
    ensures ys == Gather(output, indices[i..Min(i + b, |input|)])
  {
    var dataSize := |input|;
    xs, ys := [], [];
    var j := 0;
    while j < b && i + j < dataSize
      invariant 0 <= j <= b && i + j <= dataSize
      invariant xs == Gather(input, indices[i..i + j])
      invariant ys == Gather(output, indices[i..i + j])
    {
      xs := xs + [input[indices[i + j]]];
      ys := ys + [output[indices[i + j]]];
      j := j + 1;
    }
    chunk := indices[i..i + j];
    assert i + j == Min(i + b, dataSize);
  }

  class Network {
    /** Number of units per layer, input layer first. */
    const sizes: seq<nat>
    const learnRate: real
    /** Mini-batch size. */
    const batch: int
    /** The activation function, x => 1 / (1 + exp(-x)) in the network this models. */
    const sigma: real -> real

    /** Pre-activations per layer; the last slot is never written. */
    var zl: seq<Vector>
    /** Activations per layer. */
    var al: seq<Vector>
    var wl: seq<Matrix>
    var bl: seq<Vector>

    function Parameters(): Params
      reads this
    {
      Params(wl, bl)
    }

    ghost predicate Valid()
      reads this
    {
      ParamsShaped(sizes, Params(wl, bl)) && |zl| == |sizes| && |al| == |sizes| && zl[|sizes| - 1] == []
    }

    /** The scratch buffers hold the forward pass of input x under parameters p. */
    ghost predicate HoldsForwardPass(p: Params, x: Vector)
      reads this`al, this`zl
    {
      && ParamsShaped(sizes, p) && |x| == sizes[0] && |zl| == |sizes|
      && al == Forward(sigma, sizes, p, x)
      && forall i {:trigger p.w[i]} :: 0 <= i < |p.w| ==> zl[i] == PreActivation(p.w[i], p.b[i], al[i])
    }

    /** The initial weights and biases are arguments: any values of the right shape. */
    constructor (batch: int, learnRate: real, sizes: seq<nat>, sigma: real -> real,
                 initW: seq<Matrix>, initB: seq<Vector>)
      requires ParamsShaped(sizes, Params(initW, initB))
      ensures Valid()
      ensures this.batch == batch && this.learnRate == learnRate && this.sizes == sizes && this.sigma == sigma
      ensures wl == initW && bl == initB
      ensures zl == seq(|sizes|, _ => []) && al == seq(|sizes|, _ => [])
    {
      this.sizes := sizes;
      this.learnRate := learnRate;
      this.batch := batch;
      this.sigma := sigma;
      zl := seq(|sizes|, _ => []);
      al := seq(|sizes|, _ => []);
      wl := seq(|sizes| - 1, _ => []);
      bl := seq(|sizes| - 1, _ => []);
      new;
      for i := 0 to |sizes| - 1
        invariant |wl| == |sizes| - 1 && |bl| == |sizes| - 1
        invariant forall k :: 0 <= k < i ==> wl[k] == initW[k] && bl[k] == initB[k]
        invariant zl == seq(|sizes|, _ => []) && al == seq(|sizes|, _ => [])
      {
        wl := wl[i := initW[i]];
        bl := bl[i := initB[i]];
      }
      assert wl == initW && bl == initB;
    }

    /** Sets al[0] to the input and, layer by layer, zl[i] = wl[i] al[i] + bl[i] and
        al[i+1] = sigmoid(zl[i]). */
    method Feedforward(input: Vector)
      requires Valid() && |input| == sizes[0]
      modifies this
      ensures Valid() && wl == old(wl) && bl == old(bl)
      ensures HoldsForwardPass(Parameters(), input)
    {
      al, zl := ForwardLayers(sigma, sizes, Parameters(), input, al, zl);
    }

    /** Adds the gradient of the example whose forward pass the buffers hold into the
        accumulators, walking the layers from the top down. */
    method Backprop(desired: Vector, acc: Gradients)
      requires Valid() && ActivationsShaped(sizes, al) && |desired| == sizes[|sizes| - 1]
      requires ParamsShaped(sizes, acc.Value())
      modifies acc
      ensures acc.Value() == AddParams(sizes, old(acc.Value()), ExampleGrads(sizes, Parameters(), al, desired))
      ensures al[|sizes| - 1] == desired ==> acc.Value() == old(acc.Value())
    {
      ghost var g0 := acc.Value();
      acc.nablaW, acc.nablaB := BackwardLayers(sizes, Parameters(), al, desired, acc.nablaW, acc.nablaB);
      if al[|sizes| - 1] == desired {
        ZeroErrorLeavesAccumulator(sizes, Parameters(), al, desired, g0);
      }
    }

    /** Zeroes fresh accumulators, runs feedforward and backprop on every example of the batch,
        then subtracts learnRate / N times the accumulated gradient from every weight and bias. */
    method GradientDescent(input: seq<Vector>, desired: seq<Vector>)
      requires Valid() && ExamplesShaped(sizes, input, desired) && |input| > 0
      modifies this
      ensures Valid()
      ensures Parameters() == DescentStep(sigma, sizes, learnRate, old(Parameters()), input, desired)
      ensures AllExact(sigma, sizes, old(Parameters()), input, desired) ==> Parameters() == old(Parameters())
      ensures HoldsForwardPass(old(Parameters()), input[|input| - 1])
    {
      var p := Parameters();
      var acc := AccumulateGradients(input, desired);
      ApplyGradients(learnRate / (|input| as real), acc.Value(), input[|input| - 1]);
      if AllExact(sigma, sizes, p, input, desired) {
        DescentStepFixedWhenExact(sigma, sizes, learnRate, p, input, desired);
      }
    }

    /** The second half of a gradient-descent step: every weight matrix and bias vector moves
        by -c times its accumulated gradient; the activation buffers are left as they are. */
    method ApplyGradients(c: real, g: Params, ghost x: Vector)
      requires Valid() && ParamsShaped(sizes, g)
      modifies this
      ensures Valid() && Parameters() == ApplyUpdate(sizes, old(Parameters()), c, g)
      ensures al == old(al) && zl == old(zl)
      ensures old(HoldsForwardPass(Parameters(), x)) ==> HoldsForwardPass(old(Parameters()), x)
    {
      wl, bl := UpdateLayers(sizes, Parameters(), c, g);
    }

    /** The first half of a gradient-descent step: fresh zero accumulators, then feedforward
        and backprop on every example of the batch in order. */
    method AccumulateGradients(input: seq<Vector>, desired: seq<Vector>) returns (acc: Gradients)
      requires Valid() && ExamplesShaped(sizes, input, desired) && |input| > 0
      modifies this
      ensures fresh(acc) && Valid() && wl == old(wl) && bl == old(bl)
      ensures acc.Value() == BatchGrads(sigma, sizes, Parameters(), input, desired)
      ensures HoldsForwardPass(Parameters(), input[|input| - 1])
    {
      var p := Parameters();
      acc := new Gradients.Zero(sizes);
      for k := 0 to |input|
        invariant Valid() && Parameters() == p
        invariant acc.Value() == BatchGrads(sigma, sizes, p, input[..k], desired[..k])
        invariant k > 0 ==> HoldsForwardPass(p, input[k - 1])
      {
        AccumulateExample(input, desired, k, acc);
      }
      assert input[..|input|] == input && desired[..|input|] == desired;
    }

    /** One turn of the accumulation loop: feedforward on example k, then backprop into acc. */
    method AccumulateExample(input: seq<Vector>, desired: seq<Vector>, k: nat, acc: Gradients)
      requires Valid() && ExamplesShaped(sizes, input, desired) && k < |input|
      requires acc.Value() == BatchGrads(sigma, sizes, Parameters(), input[..k], desired[..k])
      modifies this, acc
      ensures Valid() && wl == old(wl) && bl == old(bl)
      ensures acc.Value() == BatchGrads(sigma, sizes, Parameters(), input[..k + 1], desired[..k + 1])
      ensures HoldsForwardPass(Parameters(), input[k])
    {
      Feedforward(input[k]);
      Backprop(desired[k], acc);
      BatchGradsExtend(sigma, sizes, Parameters(), input, desired, k);
    }

    /** The parameters are those reached from p0 by one descent step per chunk of cs, in order. */
    ghost predicate TrainedOn(p0: Params, input: seq<Vector>, output: seq<Vector>, cs: seq<seq<nat>>)
      reads this
    {
      && ParamsShaped(sizes, p0) && ExamplesShaped(sizes, input, output) && ChunksIndexBelow(cs, |input|)
      && Parameters() == EpochParams(sigma, sizes, learnRate, p0, input, output, cs)
    }

    /** The state after training on the chunks `done`, which cover indices[..i], starting from
        parameters p0: the parameters are the epoch's descent steps so far. */
    ghost predicate EpochSoFar(input: seq<Vector>, output: seq<Vector>, indices: seq<nat>,
                               p0: Params, i: nat, done: seq<seq<nat>>)
      reads this
    {
      && Valid() && batch > 0 && |indices| == |input| && (forall k :: 0 <= k < |indices| ==> indices[k] < |input|)
      && TrainedOn(p0, input, output, done)
      && ChunksBefore(done, indices, batch, i)
      && (done == [] <==> i == 0)
    }

    /** One epoch: walks the permuted index list in steps of `batch` and runs one
        gradient-descent step per chunk. `indices` is the shuffled 0..N-1; `batches` records
        the chunks in the order they are trained on. */
    method MiniBatchTrain(input: seq<Vector>, output: seq<Vector>, indices: seq<nat>)
      returns (ghost batches: seq<seq<nat>>)
      requires Valid() && batch > 0 && ExamplesShaped(sizes, input, output)
      requires IsPermutation(indices, |input|)
      modifies this
      ensures Valid()
      ensures batches == Chunks(indices, batch)
      ensures TrainedOn(old(Parameters()), input, output, batches)
      ensures |batches| > 0 <==> |input| > 0
    {
      PermutationEntries(indices, |input|);
      var dataSize := |input|;
      ghost var p0 := Parameters();
      batches := [];
      var i := 0;
      while i < dataSize
        invariant EpochSoFar(input, output, indices, p0, i, batches)
        decreases dataSize - i
      {
        batches := EpochStep(input, output, indices, p0, i, batches);
        i := i + batch;
      }
      assert indices[Min(i, dataSize)..] == [];
    }

    /** One turn of the epoch loop: trains on the chunk starting at i and records it. */
    method EpochStep(input: seq<Vector>, output: seq<Vector>, indices: seq<nat>,
                     ghost p0: Params, i: nat, ghost done: seq<seq<nat>>)
      returns (ghost next: seq<seq<nat>>)
      requires EpochSoFar(input, output, indices, p0, i, done) && i < |input|
      modifies this
      ensures EpochSoFar(input, output, indices, p0, i + batch, next)
      ensures next == done + [indices[i..Min(i + batch, |input|)]]
    {
      var dataSize := |input|;
      next := ChunksAdvance(indices, dataSize, batch, i, done);
      ghost var chunk := TrainChunk(input, output, indices, i, p0, done);
    }

    /** The body of the epoch loop: gathers the examples indices[i], indices[i+1], ... (at most
        `batch` of them, fewer at the end) with their targets, and takes one descent step on them. */
    method TrainChunk(input: seq<Vector>, output: seq<Vector>, indices: seq<nat>, i: nat,
                      ghost p0: Params, ghost done: seq<seq<nat>>)
      returns (ghost chunk: seq<nat>)
      requires Valid() && batch > 0 && ExamplesShaped(sizes, input, output)
      requires |indices| == |input| && i < |input| && forall k :: 0 <= k < |indices| ==> indices[k] < |input|
      requires TrainedOn(p0, input, output, done)
      modifies this
      ensures Valid()
      ensures chunk == indices[i..Min(i + batch, |input|)]
      ensures TrainedOn(p0, input, output, done + [chunk])
    {
      var miniInput, miniOutput;
      miniInput, miniOutput, chunk := GatherChunk(input, output, indices, i, batch);
      GradientDescent(miniInput, miniOutput);
      EpochParamsExtend(sigma, sizes, learnRate, p0, input, output, done, chunk);
    }

    /** Runs the network on every example and returns how many predictions pick the target's
        class (first maximal entry of each). The progress lines and the final percentage
        are console output and are not modelled. */
    method Evaluate(input: seq<Vector>, output: seq<Vector>, verbosity: int) returns (correct: nat)
      requires Valid() && EvalShaped(sizes, input, output) && verbosity != 0
      modifies this
      ensures Valid() && Parameters() == old(Parameters())
      ensures correct == CountCorrect(sigma, sizes, Parameters(), input, output)
      ensures |input| == 0 ==> al == old(al) && zl == old(zl)
    {
      var dataSize := |input|;
      ghost var hits := Outcomes(sigma, sizes, Parameters(), input, output);
      correct := 0;
      for i := 0 to dataSize
        invariant Valid() && Parameters() == old(Parameters())
        invariant correct == CountTrue(hits[..i])
        invariant i == 0 ==> al == old(al) && zl == old(zl)
      {
        var hit := Classify(input[i], output[i]);
        if hit {
          correct := correct + 1;
        }
        assert hits[..i + 1][..i] == hits[..i];
      }
      assert hits[..dataSize] == hits;
    }

    /** One example of the evaluation loop: feedforward, then compare the first maximal entry
        of the output layer with that of the target. */
    method Classify(x: Vector, y: Vector) returns (hit: bool)
      requires Valid() && |x| == sizes[0] && sizes[|sizes| - 1] > 0 && |y| > 0
      modifies this
      ensures Valid() && wl == old(wl) && bl == old(bl)
      ensures HoldsForwardPass(Parameters(), x)
      ensures hit == Correct(sigma, sizes, Parameters(), x, y)
    {
      Feedforward(x);
      var predicted := ArgMax(al[|sizes| - 1]);
      var actual := ArgMax(y);
      hit := predicted == actual;
    }
  }
}
