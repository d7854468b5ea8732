# microgard in Dafny

This is a model of microgard, a scalar reverse-mode automatic-differentiation engine and the small
multi-layer perceptron built on it. It covers three pieces, and every number in it is a `real`:

- **The computation graph** (`ValueNode`). Each operation (`add`, `mul`, `pow`, `relu`, `sub`,
  `div`, `sum`) creates a node that holds its value, its operands and a backward rule.
- **The backward pass.**
  - `nodes()` lists the nodes reachable from a root in depth-first post-order.
  - `backpropagation()` reverses that list, zeroes the gradients, seeds the root with 1 and fires
    every backward rule in turn.
- **The network and the losses.**
  - A `Neuron` holds weight and bias nodes. A `Layer` holds neurons. An `MLP` chains layers.
  - The losses are the mean squared error and the hinge loss with L2 regularisation and an
    accuracy figure.

## Representation

- Nodes live in an append-only arena.
  - `Engine.Graph` holds `nodes: seq<Node>`, with each node's value and operation tag.
  - It also holds `grad: seq<real>`, the mutable `grad` field of every node.
  - A `ValueNode` object is its index in the arena, so object identity is index equality.
- The backward closure of a node becomes an operation tag. The rule it stands for is written out
  in `Engine.Graph.RunBackward`:
  - `Leaf`;
  - `Plus(l, r)`;
  - `Times(l, r)`;
  - `Power(base, expo, n)`, where `expo` is the constant node that `pow` creates for the exponent;
  - `Rectify(a)`.
- `Arena.WellFormed` states what construction guarantees: every operand is an earlier node, and
  every value is its operation applied to its operands' values.

## Modules

- `arena.dfy`: nodes, well-formedness, sums and values of index lists.
- `topo.dfy`: reachability and the post-order search as functions.
- `accumulate.dfy`: gradient accumulation as a fold of per-node "fire" steps.
- `backprop.dfy`: the backward pass as a function and an independent reference definition.
  - `Adjoint` is the derivative of the root with respect to a node. It is the sum, over the
    reachable nodes that consume the node, of the local derivative times the consumer's adjoint.
  - The backward pass is proved equal to `Adjoint`.
- `engine.dfy`: the `Graph` class. It holds the operations, `nodes()`, the backward rules and
  `backpropagation()`, with the in-place reversal of the topological array.
- `cases.dfy`: small graphs differentiated end to end.
- `loss.dfy`: the loss functions, as specification functions and as methods that build nodes.
- `network.dfy`: `Neuron`, `Layer` and `MLP` as classes over the graph.

## Model

| member | source | states |
|---|---|---|
| Engine.Graph.Push | src/lib/microgard/ValueNode.ts:6 | a new node is appended with gradient 0, and the graph stays well formed |
| Engine.Graph.Const | src/lib/microgard/ValueNode.ts:12-22 | a constant is a leaf node with no operands, holding the value, gradient 0 |
| Engine.Graph.Add | src/lib/microgard/ValueNode.ts:25-34 | the new node's value is the sum of its operands' values, its children are exactly [i, j], and nothing else changes |
| Engine.Graph.AddNum | src/lib/microgard/ValueNode.ts:18-27 | adding a number first makes it a constant node, then adds: value data + x |
| Engine.Graph.Mul | src/lib/microgard/ValueNode.ts:36-38 | the new node's value is the product of its operands' values, children [i, j] |
| Engine.Graph.MulNum | src/lib/microgard/ValueNode.ts:18-38 | multiplying by a number first makes it a constant node, then multiplies: value data * x |
| Engine.Graph.Pow | src/lib/microgard/ValueNode.ts:72-76 | pow creates a constant node holding the exponent, then a node of value data^n whose children are the base and that constant |
| Engine.Graph.Relu | src/lib/microgard/ValueNode.ts:90-91 | the value is max(0, data): non-negative, equal to data when data > 0, and 0 when data <= 0 |
| Engine.Graph.Sub | src/lib/microgard/ValueNode.ts:105-108 | a - b is built as a + b * (-1): three new nodes, the last holding a.data - b.data |
| Engine.Graph.Div | src/lib/microgard/ValueNode.ts:110-113 | a / b is built as a * b^(-1): three new nodes, the last holding a.data / b.data when b.data != 0 |
| Engine.Graph.Sum | src/lib/microgard/ValueNode.ts:143-147 | a zero constant and then one add per element, in order: the last node holds 0 plus the values of xs, each add taking the previous partial sum and the next element, and every element of xs is reachable from the result |
| Topo.TopoSpec | src/lib/microgard/ValueNode.ts:115-127 | the post-order search lists every node reachable from the root exactly once, each operand before the nodes that use it, with the root last |
| Topo.VisitSpec | src/lib/microgard/ValueNode.ts:118-124 | one call of buildNodes adds exactly the not-yet-visited nodes reachable from v, keeps the list so far as a prefix, and ends with v when v was new |
| Engine.Graph.BuildNodes | src/lib/microgard/ValueNode.ts:118-124 | the recursive search with its visited set computes the search that Topo.Visit describes |
| Engine.Graph.Nodes | src/lib/microgard/ValueNode.ts:115-127 | nodes() returns the reachable nodes without duplicates, operands first, with the root last |
| Engine.Reverse | src/lib/microgard/ValueNode.ts:133 | reversing in place leaves element k at position n-1-k |
| Backprop.BackpropOrderSpec | src/lib/microgard/ValueNode.ts:131-133 | the reversed post-order starts at the root, has no duplicates, covers the reachable nodes, and lists every consumer before the nodes it consumes |
| Engine.Graph.RunBackward | src/lib/microgard/ValueNode.ts:28-99 | a node's backward rule adds its local derivative times its own gradient to each operand (1 for add; the other operand for mul; n·x^(n-1) for pow; 1 or 0 for relu, by data > 0); a node used as both operands gets both shares |
| Engine.FireTimes | src/lib/microgard/ValueNode.ts:65-66 | the mul rule, statement by statement, is the accumulation step: this gets other.data·out.grad and other gets this.data·out.grad |
| Engine.FirePower | src/lib/microgard/ValueNode.ts:84 | the pow rule adds n·x^(n-1)·out.grad to the base and nothing to the exponent's constant node |
| Engine.FireRectify | src/lib/microgard/ValueNode.ts:99 | the relu rule passes out.grad through only when data > 0 |
| Engine.FirePlus | src/lib/microgard/ValueNode.ts:28-31 | the add rule adds out.grad to both operands, twice to the same node when both operands coincide |
| Engine.FireLeaf | src/lib/microgard/ValueNode.ts:10 | a leaf's rule changes nothing |
| Accumulate.FinalEquation | src/lib/microgard/ValueNode.ts:140 | when every consumer fires before what it consumes, each final gradient is the seed plus the sum over the fired nodes of the local derivative times their final gradient |
| Backprop.BackpropSpec | src/lib/microgard/ValueNode.ts:129-141 | after the backward pass every reachable node holds the adjoint (the derivative of the root with respect to it), the root holds 1, and nodes the root cannot reach keep their gradients |
| Backprop.AdjointUnique | src/lib/microgard/ValueNode.ts:129-141 | any gradients meeting the chain-rule equations on the reachable nodes are the adjoints |
| Backprop.ZeroAllAt | src/lib/microgard/ValueNode.ts:136 | zeroing resets exactly the listed nodes and keeps every other gradient |
| Engine.Graph.ZeroGrads | src/lib/microgard/ValueNode.ts:135-136 | zeroing the listed nodes one by one clears exactly those gradients (ZeroAll), and leaves the nodes as they were |
| Engine.Graph.FireAll | src/lib/microgard/ValueNode.ts:138-140 | running the backward rules one node at a time, in list order, has the effect of Accumulate.Propagate over that list |
| Engine.Graph.Backpropagation | src/lib/microgard/ValueNode.ts:129-141 | the method computes the backward-pass function: reachable nodes hold their adjoints, the root holds 1, other gradients are unchanged |
| Cases.Diamond | src/lib/microgard/ValueNode.ts:129-141 | for d = a·b + a·c, the gradients are a.grad = b + c, b.grad = a and c.grad = a |
| Cases.Addition | src/lib/microgard/ValueNode.ts:25-34 | for s = a + b with distinct operands, a.grad and b.grad are both 1 |
| Cases.AddTwice | src/lib/microgard/ValueNode.ts:28-31 | for s = a + a, a.grad is 2: the shares accumulate, they do not overwrite |
| Cases.Product | src/lib/microgard/ValueNode.ts:40-66 | for c = a·b, dc/da = b and dc/db = a |
| Cases.Rectifier | src/lib/microgard/ValueNode.ts:90-99 | for r = relu(a), a.grad is 1 when a > 0 and 0 otherwise, including at a = 0 |
| Cases.Raise | src/lib/microgard/ValueNode.ts:72-85 | for p = a^n, a.grad = n·a^(n-1) and the exponent's constant node gets 0 |
| Arena.TotalZero | src/lib/microgard/ValueNode.ts:143-147 | a sum of non-negative values is zero exactly when every value is zero |
| Arena.RPowSquare | src/lib/microgard/ValueNode.ts:76 | x^2 is x·x |
| Arena.RPowInverse | src/lib/microgard/ValueNode.ts:112 | x^(-1) is 1/x when x != 0 |
| Network.Neuron.constructor | src/lib/microgard/Neuron.ts:13-17 | a neuron for noOfInputs inputs creates exactly noOfInputs weight nodes and then one bias node, all fresh leaves, and has no activation yet |
| Network.Neuron.ComputeActivation | src/lib/microgard/Neuron.ts:19-27 | the result is Σ inputs[i]·weights[i] + bias, through ReLU unless in the output layer; it is stored in activation; weights and bias are unchanged; the bias and every input and its weight are reachable from the result, so a backward pass from it reaches them |
| Network.Neuron.WeightedTerms | src/lib/microgard/Neuron.ts:20 | one mul node per input, in input order, holding inputs[i]·weights[i]: term i is the node `Times(inputs[i], weights[i])`, so a backward pass sends weights[i]·g to the input and inputs[i]·g to the weight |
| Network.TotalProducts | src/lib/microgard/Neuron.ts:20 | summing the products input·weight left to right from 0 gives the weighted sum Dot |
| Network.HiddenNeuronValue | src/lib/microgard/Neuron.ts:24 | a hidden neuron's output is non-negative; it equals the pre-activation when that is positive and is 0 otherwise |
| Network.Layer.constructor | src/lib/microgard/Neuron.ts:36-39 | a layer has noOfNeurons distinct fresh neurons, each with noOfInputs weights, no activation, and the given type |
| Network.Layer.Forward | src/lib/microgard/Neuron.ts:41-43 | one output per neuron, in neuron order, each neuron's value on the same inputs; every neuron's activation is its output; output i reaches neuron i's bias, every input and the weight each input meets (`LayerFed`) |
| Network.HiddenLayerValues | src/lib/microgard/Neuron.ts:42 | every output of a hidden layer is non-negative |
| Network.HiddenLayers | src/lib/microgard/Neuron.ts:57-63 | one hidden layer per entry: layer 0 takes noOfInputs inputs and layer l the width of layer l-1 |
| Network.MLP.constructor | src/lib/microgard/Neuron.ts:48-65 | there are |hiddenLayers| + 1 layers, all hidden but the last, which is the output layer with noOfOutputs neurons; layer 0 takes noOfInputs inputs and layer l the neuron count of layer l-1 |
| Network.MLP.Predict | src/lib/microgard/Neuron.ts:67-73 | the outputs are the layers' forward passes applied in turn; there is one output per neuron of the last layer, each last-layer neuron's activation is its output node, and every neuron of every layer has its activation set to a node of the graph; when no hidden layer is empty, output i reaches the network inputs, the bias and used weights of every earlier layer, and its own neuron's bias and used weights (`Fed`) |
| Network.MLP.ForwardLayer | src/lib/microgard/Neuron.ts:69-70 | one step of the prediction loop: layer li's forward pass, after which its neurons' activations are its outputs, each output reaches its neuron's bias, the layer's inputs and the weights they meet, and the activations of the earlier layers are still set |
| Network.MLP.GetTrainableParams | src/lib/microgard/Neuron.ts:115-124 | the list is, layer by layer and neuron by neuron, the bias followed by the weights; it only reads, so repeated calls agree |
| Network.TrainableCount | src/lib/microgard/Neuron.ts:115-124 | the number of trainable parameters is Σ over layers of neurons × (inputs + 1) |
| Network.ParamCountExample | src/lib/microgard/Neuron.ts:115-124 | for 2 inputs, hidden layers [4, 4] and 1 output that count is 37 |
| Network.ExampleNetwork | src/lib/microgard/Neuron.ts:48-124 | a 2-[4,4]-1 network has 37 trainable parameters, gives the same list on a second call, and predicts one output |
| Network.ParamsAreSources | src/lib/microgard/Neuron.ts:115-124 | in a network whose neurons have one weight per input of their layer, as the constructor builds it, every trainable parameter is one of the nodes the outputs depend on |
| Network.ParamListBelow | src/lib/microgard/Neuron.ts:115-124 | every trainable parameter is a node of the graph |
| Network.MLP.MseLoss | src/lib/microgard/Neuron.ts:76-84 | the loss node holds the mean squared error of the network's predictions against the targets; each output neuron's activation is a node reachable from the loss, holding that neuron's prediction; when no hidden layer is empty, the network inputs and every bias and used weight of every layer reach the loss (`Sources`) |
| Network.MLP.HingeLoss | src/lib/microgard/Neuron.ts:87-113 | the total-loss node holds the hinge total of the predictions, with the network's own trainable parameters as the L2 term; accuracy is that of the predictions; every trainable parameter is reachable from the total loss, so backpropagation reaches it, and each output neuron's activation is a node reachable from the total loss, holding that neuron's prediction; when no hidden layer is empty, the network inputs and every bias and used weight of every layer reach it through the predictions (`Sources`) |
| Loss.SquaredError | src/lib/microgard/loss.ts:7 | target.sub(prediction).pow(2) holds (target - prediction)² and appends exactly five nodes: the constant -1, prediction·(-1), target + that, the constant 2, and that difference to the power 2; so target and prediction are reachable from it |
| Loss.SquaredErrorNodes | src/lib/microgard/loss.ts:5-9 | one squared-error node per prediction, in order, each holding (targets[i] - predictions[i])² with predictions[i] and targets[i] reachable from it |
| Loss.ScaledSum | src/lib/microgard/loss.ts:10 | sum(xs).mul(c) holds c times the total of xs and appends exactly the sum's zero start, one add node per element in order, the constant c and the mul node; every element of xs is reachable from it |
| Loss.MseLoss | src/lib/microgard/loss.ts:4-11 | the loss node holds (Σ (targets[i] - predictions[i])²) · (1/n), and every prediction and target is reachable from it |
| Loss.MseNonNegative | src/lib/microgard/loss.ts:4-11 | the mean squared error is at least 0 |
| Loss.MseZero | src/lib/microgard/loss.ts:4-11 | the mean squared error is 0 exactly when every prediction equals its target |
| Loss.SquareFacts | src/lib/microgard/loss.ts:7 | a square is non-negative and is 0 only at 0 |
| Loss.HingeTerm | src/lib/microgard/loss.ts:20-24 | target.mul(score).mul(-1).add(1).relu() holds max(0, 1 - target·score); it appends exactly six nodes: target·score, the constant -1, their product, the constant 1, the sum, and its relu; target and score are reachable from it |
| Loss.HingeTermNodes | src/lib/microgard/loss.ts:20-24 | one hinge node per example, in order, each holding max(0, 1 - targets[i]·scores[i]) with both reachable from it |
| Loss.MeanHinge | src/lib/microgard/loss.ts:25 | the data loss node holds the mean of the per-example hinge losses, and every score and target is reachable from it |
| Loss.SquareParam | src/lib/microgard/loss.ts:29 | param.pow(2) holds param² and appends exactly the constant 2 and the node `Power(param, 2)` |
| Loss.L2Penalty | src/lib/microgard/loss.ts:28-29 | the regularisation node holds 1e-4 · Σ param², and every parameter is reachable from it |
| Loss.HingeLoss | src/lib/microgard/loss.ts:14-42 | totalLoss holds the mean hinge loss plus 1e-4 · Σ param², and accuracy is the fraction of examples where target > 0 and score > 0 agree; every score, target and trainable parameter is reachable from totalLoss |
| Loss.HingeNonNegative | src/lib/microgard/loss.ts:23-30 | the data loss and the total hinge loss are at least 0 |
| Loss.DataLossZero | src/lib/microgard/loss.ts:20-30 | the data loss is 0 exactly when every example has target·score >= 1, and then the total is the L2 term alone |
| Loss.MatchesBound | src/lib/microgard/loss.ts:33-39 | the number of agreeing examples is at most n, and equals n exactly when all agree |
| Loss.AccuracyBounds | src/lib/microgard/loss.ts:33-39 | accuracy lies in [0, 1] and is 1 exactly when every sign agrees (a score of exactly 0 counts as non-positive) |
| Loss.AccuracyExample | src/lib/microgard/loss.ts:33-39 | predictions [0.8, -0.3] with targets [1, 1] give accuracy 0.5 |

## Left out

- Floating point is not modelled: values are exact reals.
  - There are no NaN or Infinity values.
  - There is no rounding.
  - `Math.pow` with a fractional exponent is not modelled.
- Engine.Graph.Pow: the exponent is an integer. A non-positive exponent needs a non-zero base
  (the code only uses 2 and -1). With a zero base, `Math.pow` gives Infinity for a negative
  exponent, and for exponent 0 the backward rule n·x^(n-1) takes 0 · Infinity.
- Engine.Graph.Div: needs a non-zero divisor for the same reason.
- Loss.MseLoss, Loss.HingeLoss, Network.MLP.MseLoss, Network.MLP.HingeLoss: need at least one
  prediction. With none, the code computes 0 · (1/0), which is NaN.
- Lengths follow the code rather than the stricter "lengths must agree" reading.
  - `computeActivation` needs no more inputs than weights: extra weights are unused, and an
    extra input would dereference a missing weight.
  - The losses need at least as many targets as predictions: extra targets are ignored.
  - Equal lengths are the special case.
- The `name` and `id` label strings and the `num` field of a neuron are not modelled. They are
  cosmetic.
- Random initialisation is a parameter `init: nat -> real`. The parameter node created at arena
  position k holds `init(k)`, so any sequence of draws can be expressed.
- The closures `_backward` are replaced by operation tags. The rule each tag stands for is
  `Engine.Graph.RunBackward`.
- The visited set keyed by object identity is a set of arena indices.
- The two accuracy computations differ only in `+acc` against `acc` in the fold. They give the
  same number, and one definition (`Loss.Accuracy`) serves both.
- Network.MLP.MseLoss, Network.MLP.HingeLoss: these are the predictions followed by the
  loss-module methods, because the code of `mseLoss`/`hingeLoss` on `MLP` repeats `loss.ts` line
  for line.
- Network.MLP.Predict: for layers before the last, it states only that every neuron's activation
  is set to a node of the graph, not which value that node holds. The model does not require
  neurons of different layers to be different objects, and a neuron shared by two layers would
  have its activation overwritten by the later one.
- Network.MLP.MseLoss: states that the parameters reach the loss only for the weights that meet
  an input (`Sources`). A weight beyond the number of inputs is never multiplied in, so it does
  not reach the loss. In a network shaped as the constructor builds it there are no such
  weights, and Network.ParamsAreSources gives every parameter.
- Network.MLP.Predict, Network.MLP.MseLoss, Network.MLP.HingeLoss: reachability from the inputs
  and the parameters is stated only when every layer but the last has a neuron. An empty hidden
  layer feeds nothing to the next layer, so nothing before it reaches the outputs.
- Loss.SquaredErrorNodes, Loss.MseLoss, Loss.HingeTermNodes, Loss.MeanHinge, Loss.L2Penalty,
  Loss.HingeLoss, Network.Neuron.ComputeActivation, Network.Layer.Forward,
  Network.MLP.ForwardLayer, Network.MLP.Predict, Network.MLP.MseLoss, Network.MLP.HingeLoss:
  their contracts state the value of the result node and which inputs and parameters reach it
  (for the three network-level ones under the condition above), but not every node they append. So the gradients a backward pass sends through
  them are not stated. The exact nodes are stated one level down, by the builders they call:
  Engine.Graph.Sum, Engine.Graph.Sub, Engine.Graph.Pow, Engine.Graph.MulNum, Loss.SquaredError,
  Loss.HingeTerm, Loss.SquareParam, Loss.ScaledSum and Network.Neuron.WeightedTerms.
- Layers with zero neurons are allowed, as the code allows them.
- Engine.Graph.Sub, Engine.Graph.Div: only the node-and-node form is a member. The code's
  `sub(number)` and `div(number)` first turn the number into a constant node, which is
  Engine.Graph.Const followed by the node-and-node form.
- Network.MLP: the network holds arena indices but not the arena they belong to. Its methods
  accept any graph in which those indices lie, whereas in the code each neuron holds its own
  nodes. Running a network on a graph other than the one it was built in, or one grown from it,
  is not excluded.
- Network.MLP.constructor: requires at least one hidden layer. The code reads the last hidden
  layer's width and fails without one.
- The training driver, the HTTP handlers and streaming, the dataset generators and shuffling,
  and the random-string helper are not part of this model. They are I/O, timers and randomness
  around the core.
