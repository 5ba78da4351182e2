# A verified model of the `Engine::Network` multilayer perceptron

`Engine::Network` is a fully connected multilayer perceptron trained by backpropagation
with momentum. It is a sequence of *shells* (layers). Each shell holds its functional
nodes and then one trailing *bias* node, whose output is pinned at 1.0. Every node owns
one outgoing `Connection` (a weight and the last delta applied to it) per functional node
of the next shell. Node `n` of shell `l + 1` reads the connection at position `n` of every
node of shell `l`.

The model has three modules:

- `Nodes` (`nodes.dfy`) covers one node.
  - `Connection` and `Node` are datatypes, because the program keeps them by value inside
    vectors.
  - The per-node helpers (`Node::Node`, `Node::forward`, `outputGradients`,
    `hiddenGradients`, `sumDOW`, `updateInputWeights`) become methods. Each takes the
    node, or the shell it works on, and returns the updated value.
  - `NewNode`, `Forward`, `SumDOW` and `UpdateInputWeights` keep the counted loop of the
    original; `OutputGradients` and `HiddenGradients` have none, as in the source.
  - `Forward`, `SumDOW`, `OutputGradients`, `HiddenGradients` and `UpdateInputWeights` are
    proved against specification functions: `WeightedSum`, `WeightedGradients`, `Gradient`
    and `StepConnection` (one momentum `Step` on one connection). `Gradient` scales a
    signal by `ActivationDerivative` (`Node::activationDerivative`, 1 - x² for an
    already-activated output x). `NewNode` states each connection it builds directly.
- `Shells` (`shells.dfy`) covers the network as a value, a sequence of shells.
  - `Shaped` is the shape invariant: widths, bias outputs, node indices and fan-out.
  - Predicates describe what each pass leaves behind: `ForwardResult`,
    `OutputGradientsSet`, `HiddenGradientsSet`, `WeightsUpdated` and `BackwardResult`.
  - Lemmas state what the passes promise.
- `Engine` (`network.dfy`) holds the `Network` class.
  - `shells`, `error` and `recentAvgError` are fields, updated in place by the
    constructor, `Forward` and `Backward`.
  - `Valid()` is the shape invariant that every method keeps.
  - `Results` reproduces `results()` as written. `OutputValues` is the corrected reading.

Arithmetic is over `real`. The activation function (tanh) and the square root are
function-valued parameters of the network, so nothing is assumed about them. The learning
rate `eta`, the momentum `alpha`, the smoothing factor and the initial smoothed error are
constructor arguments. The initial weights come from a `weight(shell, node, connection)`
argument instead of a random generator.

## Model

| member | source | states |
|---|---|---|
| Nodes.NewNode | src/Network.cpp:181-189 | a new node has the given index and one connection per output; each connection has the drawn weight and a zero delta |
| Nodes.Forward | src/Network.cpp:191-198 | the node's output becomes the activation of the sum, over every node of the previous shell (bias included), of its output times the weight at this node's index; nothing else in the node changes |
| Nodes.OutputGradients | src/Network.cpp:200-204 | the gradient becomes (target - output) times the derivative 1 - output²; nothing else changes |
| Nodes.SumDOW | src/Network.cpp:247-256 | the result is the sum over the next shell's nodes, bias excluded, of weight[m] times that node's gradient |
| Nodes.HiddenGradients | src/Network.cpp:206-210 | the gradient becomes that sum times the derivative at the node's output; nothing else changes |
| Nodes.UpdateInputWeights | src/Network.cpp:212-228 | every node of the previous shell, bias included, takes one momentum step on the connection at this node's index: new delta = eta·output·gradient + alpha·old delta, added to the weight; nothing else in the shell changes |
| Nodes.ActivationDerivativeRange | src/Network.cpp:236 | the derivative of tanh written in terms of its activated output, 1 - x²: on tanh's range [-1, 1] it lies in [0, 1] and is zero exactly at the saturated outputs +1 and -1 |
| Nodes.OutputGradientZeroIff | src/Network.cpp:200-204 | an output gradient is zero exactly when the output equals the target or sits at +1 or -1 |
| Nodes.WeightedSumCongruent | src/Network.cpp:191-198 | a node's input depends only on the previous shell's outputs and its weights at this node's index |
| Nodes.WeightedGradientsCongruent | src/Network.cpp:247-256 | the weighted gradient sum depends only on the gradients of the next shell's functional nodes |
| Shells.Wired | src/Network.cpp:84-98 | in a well-shaped network, functional node n of shell l has index n and every node of shell l-1 owns a connection at position n |
| Shells.ForwardDeterministic | src/Network.cpp:102-119 | the network after forward propagation is determined by the network before it and the input |
| Shells.ForwardIdempotent | src/Network.cpp:102-119 | running forward propagation a second time with the same input leaves the network unchanged |
| Shells.SquaredErrorNonNegative | src/Network.cpp:128-133 | the accumulated squared error is never negative |
| Shells.SquaredErrorZeroOnTarget | src/Network.cpp:128-133 | when every output equals its target, the accumulated squared error is zero |
| Shells.RmsErrorNonNegative | src/Network.cpp:128-137 | if the square root maps non-negative numbers to non-negative numbers, the RMS error is never negative |
| Shells.RecentAverageBetween | src/Network.cpp:139-140 | with a non-negative smoothing factor, the new smoothed error lies between the old average and the new error |
| Shells.BackwardComposes | src/Network.cpp:142-163 | the three passes, run in the source's order, give `BackwardResult`: hidden gradients read the next shell's freshly written gradients; every connection steps with the final gradient of the node it leads to |
| Shells.OutputGradientsKeep | src/Network.cpp:142-143 | the output-gradient pass changes no output and no connection |
| Shells.HiddenGradientsKeep | src/Network.cpp:145-152 | the hidden-gradient pass changes no output and no connection |
| Shells.WeightsKeep | src/Network.cpp:154-163 | the weight-update pass changes no output and no gradient |
| Shells.BackwardIgnoresStaleGradients | src/Network.cpp:124-164 | gradients are written before they are read: two networks that differ only in gradients end backward propagation with the same connections and the same written gradients |
| Shells.BackwardDeterministic | src/Network.cpp:124-164 | the network after backward propagation is determined by the network before it, the target, eta and alpha |
| Engine.Network.constructor | src/Network.cpp:81-100 | the network keeps the shape: one shell per topology entry, each with topology[l] + 1 nodes, node n indexed n, topology[l+1] connections per node (none in the last shell), every weight as drawn with a zero delta, every bias output 1.0 |
| Engine.Network.Forward | src/Network.cpp:102-119 | the shape is kept; input i is in input node i; each later functional node holds the activation of the weighted sum of the previous shell as it now stands; bias outputs, gradients and connections are unchanged |
| Engine.Network.LoadInput | src/Network.cpp:104-109 | the input nodes take the input values; the input bias node and every later shell are untouched |
| Engine.Network.FeedShell | src/Network.cpp:111-118 | every functional node of one shell is recomputed from the shell before it; no other shell changes |
| Engine.Network.Backward | src/Network.cpp:124-164 | the error is sqrt of the mean squared error over the functional output nodes, taken before any update; the smoothed error is (old·s + error)/(s + 1); the shells satisfy `BackwardResult` |
| Engine.Network.OutputGradientsPass | src/Network.cpp:142-143 | every functional output node gets its output gradient; the output bias node and every other shell are unchanged |
| Engine.Network.HiddenGradientsPass | src/Network.cpp:145-152 | from the second-to-last shell down to shell 1, every node, bias included, gets its hidden gradient from the next shell's new gradients; shell 0 and the last shell are unchanged |
| Engine.Network.HiddenShellGradients | src/Network.cpp:147-151 | every node of one hidden shell, bias included, gets its gradient from the next shell; no other shell changes |
| Engine.Network.UpdateWeightsPass | src/Network.cpp:154-163 | from the last shell down to shell 1, each connection into a functional node takes one momentum step with that node's gradient; outputs, gradients and the last shell are unchanged |
| Engine.Network.UpdateShellWeights | src/Network.cpp:156-162 | the functional nodes of one shell step the connections that lead to them; only the previous shell changes |
| Engine.Network.Results | src/Network.cpp:166-175 | as written: one value per shell except one, the outputs of output nodes 0 to the number of shells minus 2, with nothing modified |
| Engine.ResultsMiscount | src/Network.cpp:169 | with topology [2, 4, 1] the as-written count is 2 for a single-output network and the second value is the bias output; with [2, 3, 3, 1] the loop runs past the output shell |
| Engine.ResultsOnOneOutput | src/Network.cpp:166-175 | `Results` called on a network freshly built with topology [2, 4, 1] returns two values, the second being the bias output 1.0 |
| Engine.Network.OutputValues | src/Network.cpp:166-175 | corrected: exactly the outputs of the output shell's functional nodes, in order |

## Left out

- `TrainingData` (src/Network.cpp:12-77) reads files and parses numbers. It is input plumbing around library calls.
- `Node::randomWeight` samples a random generator. The initial weights are a constructor argument instead.
- src/Layers/NetworkLayer.cpp, src/Layers/NetworkLayer.h and src/Window.h are a console training driver and a window wrapper. They are not part of this model.
- Floating point is not modelled. Arithmetic is over exact reals, with no rounding, overflow or NaN.
- tanh and sqrt are uninterpreted parameters. No property that depends on their values (convergence, error bounds) is claimed.
- Node output and gradient start at 0.0, and the network's `error` starts at 0.0. In the source all three are uninitialised until first written; `backward` writes the error before reading it.
- The smoothed error and the smoothing factor are constructor arguments. The source never initialises them.
- The constructor ensures bias outputs of 1.0 for every shell. The source's `m_shells.back().back()` is the bias node of the shell just built, so the two agree.
- Unsigned widths are unbounded naturals. The model does not reproduce wrap-around of `size() - 1` or `size() - 2`. Where the source would wrap or read out of bounds, the operation has a precondition instead:
  - `Forward` needs at least one shell, and an input one shorter than shell 0, where the source asserts.
  - `Backward` needs at least two shells and at least `topology[last]` targets.
  - `Results` needs at least one shell and `|shells| - 1 <= |shells[last]|`, that is `|shells| <= topology[last] + 2`.
- Two more `Backward` preconditions exclude divisions by zero, not wrap-around: at least one functional output node (`0 < topology[last]`, src/Network.cpp:136) and a smoothing factor other than -1 (src/Network.cpp:139-140). For these inputs the source records a NaN or infinite error or smoothed error and still runs the gradient and weight passes; the model, over exact reals with no NaN, does not cover that run.
- Passes that the source writes inline in `backward` and `forward` are separate methods: `OutputGradientsPass`, `HiddenGradientsPass`, `HiddenShellGradients`, `UpdateWeightsPass`, `UpdateShellWeights`, `LoadInput` and `FeedShell`. They keep the source's loop order.
- Node methods are modelled on values. A node method returns the updated node or shell, and the class stores it back. Aliasing between shells is not modelled because the source has none.
- Shells.SquaredErrorZeroOnTarget: proves only that outputs equal to targets give zero error, not the converse.
- The header's node field name `connectionWeights` is not followed. The model uses `outputWeights`, as the implementation file does.

## Findings

| source | as written | input that shows it | evidently intended | confidence | as-written member | corrected member |
|---|---|---|---|---|---|---|
| src/Network.cpp:169 | `results()` loops over the number of shells minus one | topology [2, 4, 1]: two values are returned for one output, the second being the bias output 1.0; topology [2, 3, 3, 1]: the third read is past the end of the two-node output shell | one value per functional node of the output shell, bounded by the output shell's size minus one | high; not executed | Engine.Network.Results, Engine.ResultsOnOneOutput, Engine.ResultsMiscount | Engine.Network.OutputValues |
