# A fully connected sigmoid network trained by mini-batch gradient descent, and its MNIST loader

This project models the core of a small C++ handwritten-digit classifier. It proves that the model computes what the network's mathematics says.

- **The network.** `class Network` holds the layer sizes, one weight matrix and one bias vector per pair of adjacent layers, and scratch buffers of pre-activations (`zl`) and activations (`al`). Each forward pass overwrites the buffers.
- **The training loop.** One epoch walks a shuffled list of example indices in chunks of `batch`. Each chunk gets one gradient-descent step:
  - zero the gradient accumulators;
  - run feedforward and backprop on every example of the chunk;
  - subtract `learnRate / N` times the summed gradient from every weight and bias.
- **Evaluation.** It counts the examples whose output's first maximal entry sits where the target's does.
- **The loader.** It reads the IDX files of the MNIST data set: big-endian 32-bit header words and magic numbers 2051 (images) and 2049 (labels). Pixel bytes are scaled by 1/255, and label bytes become one-hot vectors of length 10.

Files:

- `linalg.dfy` (`LinAlg`): the dense vector and matrix operations the network takes from Eigen, and `ArgMax` (Eigen's `maxCoeff(&index)`, first maximal index).
- `activation.dfy` (`Activation`): the sigmoid applied entry by entry, its derivative in terms of the sigmoid's output, and the clamped cross-entropy.
- `batching.dfy` (`Batching`): the index list `0..N-1`, permutations of it, its split into consecutive mini-batches, and the gathering of the examples a batch names.
- `network_spec.dfy` (`NetworkSpec`): the network's arithmetic as functions of the parameters, with their properties:
  - the forward pass, the backpropagated errors and the per-example gradient;
  - the batch gradient, the descent step and the parameters after an epoch;
  - the number of correct predictions.
- `network.dfy` (`NeuralNetwork`): the `Network` and `Gradients` classes, whose methods update their fields in place. Each method is proved to leave the state that `NetworkSpec` describes.
- `load_mnist.dfy` (`MnistLoader`): the IDX decoders as functions, the loader as methods that read a `ByteStream` in the source's nested loops, and round-trip lemmas against encoders.

Outside effects are parameters:

- **The logistic function.** `1/(1+exp(-x))` is a parameter `sigma: real -> real` of the network. The logarithm is a parameter `ln` of the loss.
- **The initial weights.** They are constructor arguments of the right shape.
- **The shuffle.** It is an `indices` argument that must be a permutation of `0..N-1`.
- **The file system.** It is an `Option<seq<Byte>>`: `None` is a file that cannot be opened.
- **Arithmetic.** Real arithmetic is exact.

Where the documented design and the code differ, the model follows the code:

- The design asks for at least two layer sizes. The constructor, `feedforward`, `backprop` and `gradientDescent` work just as well with one (no weights; the output is the input), so the model requires only one layer size.
- The design asks `evaluate` to report its accuracy. The code prints it and returns nothing. `Evaluate` returns the count of correct predictions. The printed percentage is `AccuracyPercent`.

## Model

| member | source | states |
|---|---|---|
| NeuralNetwork.Network.constructor | src/Network.cpp:8-25 | The object is well formed, keeps batch, learning rate and sizes, and its weights and biases are the given initial values. There is one (empty) activation and pre-activation buffer per layer. |
| NeuralNetwork.Network.Feedforward | src/Network.cpp:50-57 | Afterwards `al` is the forward pass of the input (`al[0]` = input, `al[i+1]` = sigmoid of `zl[i]`). Each `zl[i]` is `wl[i] al[i] + bl[i]`. The parameters are unchanged. |
| NeuralNetwork.ForwardLayers | src/Network.cpp:51-56 | The layer loop yields exactly `Forward` and the weighted input of every layer pair, and leaves the last pre-activation slot as it was. |
| NetworkSpec.ForwardStep | src/Network.cpp:54-55 | Each layer's activation is the sigmoid of the weight matrix times the layer below, plus the bias. |
| NetworkSpec.ForwardOfZeroParams | src/Network.cpp:50-57 | With all weights and biases zero and sigma(0) = 1/2, every unit past the input outputs 1/2 whatever the input. |
| NeuralNetwork.Network.Backprop | src/Network.cpp:59-72 | The accumulators grow by exactly the example's gradient: `delta_i a_i^T` for weight gradient i and `delta_i` for bias gradient i. They do not change when the output already equals the target. |
| NeuralNetwork.BackwardLayers | src/Network.cpp:64-71 | The downward loop adds `DeltaAt(i) a_i^T` and `DeltaAt(i)` to pair i for every pair. `DeltaAt` is output minus target at the top and `(W_{i+1}^T delta_{i+1}) .* a_{i+1}(1-a_{i+1})` below. |
| NetworkSpec.DeltasVanish | src/Network.cpp:64-70 | When the output equals the target, every backpropagated error is the zero vector. |
| NetworkSpec.ZeroErrorLeavesAccumulator | src/Network.cpp:67-68 | Zero error gives zero gradients, and adding them leaves any accumulator as it was. |
| Activation.SigmoidVec | src/Network.cpp:32-36 | Each entry of the result is the logistic function of the same entry of the input. The logistic function is a parameter. |
| Activation.DSigmoid | src/Network.cpp:28-30 | Given the sigmoid's output `a`, the derivative has one entry per unit, and entry i is `a[i] * (1 - a[i])`. |
| Activation.DSigmoidBounds | src/Network.cpp:28-30 | On outputs in [0, 1] the derivative `a(1-a)` lies in [0, 1/4]. |
| Activation.DSigmoidVanishes | src/Network.cpp:28-30 | The derivative is zero exactly where the output is 0 or 1. |
| Activation.Clamp | src/Network.cpp:39-40 | Every clamped entry lies in [1e-12, 1 - 1e-12]. Entries already inside are unchanged. |
| Activation.LogLikelihood | src/Network.cpp:41-45 | The summed log-likelihood is non-positive when every entry lies inside (0, 1), every target lies in [0, 1], and the logarithm is non-positive on (0, 1]. |
| Activation.CrossEntropy | src/Network.cpp:38-47 | For targets in [0, 1] and any logarithm that is non-positive on (0, 1], the loss of the clamped output is never negative, whatever the output. |
| Activation.CrossEntropyOfClamped | src/Network.cpp:40-45 | Clamping twice is clamping once, so the loss of a clamped output equals the loss of the output. |
| NeuralNetwork.Gradients.Zero | src/Network.cpp:78-84 | Fresh accumulators are zero matrices and vectors shaped like the parameters. |
| NeuralNetwork.Network.AccumulateGradients | src/Network.cpp:78-89 | After zeroing and the loop over the batch, the accumulators hold `BatchGrads`: the sum of every example's gradient under the unchanged parameters. The buffers then hold the last example's forward pass. |
| NeuralNetwork.Network.AccumulateExample | src/Network.cpp:86-89 | One turn adds example k's gradient to the sum over the first k examples. |
| NetworkSpec.BatchGradsExtend | src/Network.cpp:86-89 | The batch gradient over one more example is the previous sum plus that example's gradient. |
| NeuralNetwork.Network.GradientDescent | src/Network.cpp:75-95 | The new parameters are `DescentStep`: old parameters minus `learnRate / N` times the batch gradient. When every example is already predicted exactly, the parameters do not change. The buffers hold the forward pass of the batch's last example. |
| NeuralNetwork.Network.ApplyGradients | src/Network.cpp:91-94 | Every weight and bias moves by `-c` times its gradient. The buffers are untouched. |
| NeuralNetwork.UpdateLayers | src/Network.cpp:91-94 | The update loop yields `ApplyUpdate`: `w[i] - c g.w[i]` and `b[i] - c g.b[i]` for every pair. |
| NetworkSpec.BatchGradsVanish | src/Network.cpp:86-89 | If every example of the batch is predicted exactly, the batch gradient is zero. |
| NetworkSpec.DescentStepFixedWhenExact | src/Network.cpp:75-95 | If every example of the batch is predicted exactly, a descent step leaves the parameters as they are. |
| NeuralNetwork.Network.MiniBatchTrain | src/Network.cpp:97-121 | The batches trained on are the consecutive chunks of the shuffled index list. The final parameters take one descent step per chunk, in order, each on the examples and targets the chunk names. There is a batch exactly when there is data. |
| NeuralNetwork.Network.EpochStep | src/Network.cpp:110-120 | One turn of the epoch loop trains on the chunk starting at i and records it after the chunks before it. |
| NeuralNetwork.Network.TrainChunk | src/Network.cpp:111-119 | The chunk is `indices[i..min(i+batch, N)]`. The parameters take one more descent step, on exactly those examples. |
| NeuralNetwork.GatherChunk | src/Network.cpp:111-117 | The inner loop collects `input[indices[i+j]]` and `output[indices[i+j]]` for `j < batch` and `i + j < N`, in order. |
| NetworkSpec.EpochParamsExtend | src/Network.cpp:110-120 | Training on one more chunk takes one more descent step from where the earlier chunks left off. |
| Batching.ChunksAdvance | src/Network.cpp:110 | Stepping `i` by `batch` appends the chunk starting at `i` to the chunks before it. |
| Batching.ChunksFlatten | src/Network.cpp:110-117 | Concatenated in order, the batches give the index list back: they partition it. |
| Batching.ChunksSizes | src/Network.cpp:110-117 | There are ceil(N / batch) batches, each non-empty and at most `batch` long, all but the last exactly `batch` long. |
| Batching.ChunksLastSize | src/Network.cpp:114 | The last batch holds what the full ones leave: N minus `batch` for every earlier one. |
| Batching.ChunksMembers | src/Network.cpp:115-116 | Every index a batch uses comes from the index list. |
| Batching.PermutationEntries | src/Network.cpp:103-108 | A shuffle of `0..N-1` holds N entries, each below N, each index exactly once. |
| Batching.ChunksCoverEachIndexOnce | src/Network.cpp:103-117 | Over a shuffled index list, the batches of an epoch use every example exactly once and nothing else. |
| Batching.PermutationChunksIndexBelow | src/Network.cpp:103-117 | Every batch of a shuffled index list is non-empty and names only existing examples. |
| LinAlg.ArgMax | src/Network.cpp:135-136 | The index is in range, its entry is at least every entry, and every earlier entry is strictly smaller: the first maximal index. |
| NeuralNetwork.Network.Classify | src/Network.cpp:132-138 | After the forward pass, the answer is whether the output's first maximal index equals the target's. The parameters are unchanged. |
| NeuralNetwork.Network.Evaluate | src/Network.cpp:123-161 | The count returned is `CountCorrect`: the number of examples whose prediction picks the target's class. The parameters are unchanged. |
| NetworkSpec.CountCorrectBounds | src/Network.cpp:138-139 | The count lies between 0 and N. It equals N exactly when every prediction is correct, and 0 exactly when none is. |
| NetworkSpec.AccuracyPercent | src/Network.cpp:158-159 | The reported accuracy lies in [0, 100]. It is 100 exactly when every prediction is correct, and 0 exactly when none is. |
| MnistLoader.ByteStream.ReadByte | src/load_mnist.cpp:26 | Returns the byte at the read position and advances by one. |
| MnistLoader.ByteStream.ReadWord | src/load_mnist.cpp:5-9 | `extract`: returns the big-endian word at the read position and advances by four. |
| MnistLoader.DecodeEncodeWord | src/load_mnist.cpp:5-9 | Decoding the four bytes of a word gives the word back. |
| MnistLoader.EncodeDecodeWord | src/load_mnist.cpp:5-9 | The four bytes are determined by the word they encode. |
| MnistLoader.WordAtEncoded | src/load_mnist.cpp:15-20 | A word's four bytes read back as that word at whatever offset they sit. |
| MnistLoader.PixelCountWraps | src/load_mnist.cpp:22-24 | The pixel count is rows times cols modulo 2^32, the unsigned 32-bit product. It is the plain product when that fits. |
| MnistLoader.Pixel | src/load_mnist.cpp:27 | Every pixel lies in [0, 1], and 255 times the pixel is the byte it came from. |
| MnistLoader.DecodeImages | src/load_mnist.cpp:11-33 | It fails exactly when the file cannot be opened ("Could not open image file") or the first word is not 2051. Otherwise it gives as many images as the second word says, each of rows times cols pixels, every pixel in [0, 1]. |
| MnistLoader.DecodedPixel | src/load_mnist.cpp:23-29 | Pixel j of image i is the byte at offset 16 + i times rows times cols + j, divided by 255. |
| MnistLoader.ReadPixels | src/load_mnist.cpp:24-29 | The inner loop fills the image with the next `rows*cols` bytes scaled by 1/255 and advances past them. |
| MnistLoader.ReadImage | src/load_mnist.cpp:23-30 | One turn of the outer loop fills image i and leaves the images after it zero. |
| MnistLoader.LoadImages | src/load_mnist.cpp:11-33 | `load_mnist_images` returns or throws exactly what `DecodeImages` says. |
| MnistLoader.ImagesRoundTrip | src/load_mnist.cpp:11-33 | Loading an image file written from any images recovers every pixel byte. |
| MnistLoader.OneHot | src/load_mnist.cpp:45-49 | The label vector of digit k has 10 entries: 1.0 at k and 0.0 everywhere else. |
| MnistLoader.OneHotArgMax | src/load_mnist.cpp:45-49 | The first maximal index of the label vector of digit k is k, so `Evaluate` reads the label back. |
| MnistLoader.DecodeLabels | src/load_mnist.cpp:36-53 | It fails exactly when the file cannot be opened ("Could not open label file") or the first word is not 2049. Otherwise it gives as many vectors as the second word says, each of length 10, whose first maximal index is the label byte at offset 8 + i. Each vector is the one-hot vector of that byte. |
| MnistLoader.LoadLabels | src/load_mnist.cpp:36-53 | `load_mnist_labels` returns or throws exactly what `DecodeLabels` says. |
| MnistLoader.LabelsRoundTrip | src/load_mnist.cpp:36-53 | Loading a label file written from any digits gives back each digit as the index of its one-hot vector. |

## Left out

- **Random initialisation.** The constructor's `srand(time(0))`, `MatrixXd::Random` and `VectorXd::Random`, and the `sqrt(2 / sizes[i])` scale are not modelled. The constructor takes the initial weights and biases as arguments, any values of the right shape. Randomness has no place in a deterministic model.
- **`Eigen::initParallel`.** It has no effect on any value.
- **The shuffle.** `std::random_device`, `std::mt19937` and `std::shuffle` are not modelled. `MiniBatchTrain` takes the shuffled index list as an argument that must be a permutation of `0..N-1`, so every possible shuffle is covered.
- **`exp` and `log`.** They have no exact real model. The sigmoid and the logarithm are parameters, and the properties proved hold for every choice (the loss's sign holds for every logarithm that is non-positive on (0, 1]).
- **Floating point.** `double` is modelled as exact reals: rounding, overflow, infinities and NaN are not modelled.
- **Console output.** `evaluate`'s progress lines and the final accuracy line are not modelled. `verbosity` is still required to be non-zero, because the code takes `i % verbosity`. The printed percentage is `AccuracyPercent`.
- **`cross_entropy` callers.** No training code calls it. It is modelled as the function `CrossEntropy` with its properties.
- **src/main.cpp.** It is not part of this model: it only wires the loader, the constructor and the epochs together with console output.
- **32-bit loop counters.** `int` counters and sizes (`int i`, `int dataSize`, `std::vector<int> sizes`) are unbounded naturals. Data sets of 2^31 examples or more are not modelled.
- **Short reads.** The loader reads past the end of a short file without checking, which leaves bytes unspecified. `LoadImages` and `LoadLabels` require the file to hold every byte its header announces (`ImageFileComplete`, `LabelFileComplete`).
- **Out-of-range labels.** A label byte of 10 or more makes `labels[i][raw]` write out of bounds. `LoadLabels` requires every label byte to be below 10.
- MnistLoader.ByteStream.ReadWord: `extract`'s shift-and-or is written as the sum of the bytes' place values, `b0*2^24 + b1*2^16 + b2*2^8 + b3`. Each byte lands in its own eight bits, so the or is that sum. The C++ intermediate `b0 << 24` on a signed `int` is not modelled bit by bit.
- NeuralNetwork.Network.GradientDescent: requires a non-empty batch. With none, the C++ divides by zero and turns every parameter into NaN. `mini_batch_train` never passes an empty batch.
- NeuralNetwork.Network.MiniBatchTrain: does not state what the activation buffers hold at the end (the forward pass of the epoch's last example). `GradientDescent` states it for each step. `batch` must be positive, because with 0 the C++ loop never ends.
- NeuralNetwork.Network.TrainChunk: does not state what the activation buffers hold afterwards. `GradientDescent` states it.
- NeuralNetwork.Network.EpochStep: does not state what the activation buffers hold afterwards. `GradientDescent` states it.
- NeuralNetwork.Network.Evaluate: does not state what the activation buffers hold afterwards (`Classify` states it for each example). The bound `correct <= N` is stated by `NetworkSpec.CountCorrectBounds` rather than by the method.
- NetworkSpec.AccuracyPercent: requires at least one example. On an empty test set the C++ divides 0 by 0 and prints NaN.
