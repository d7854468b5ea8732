/** Neurons, layers and the multi-layer perceptron, built on the graph. A
    neuron's weights and bias are nodes of the graph (their indices never
    change); its activation is the node its last forward pass produced.
    Initial parameter values come from `init`: the parameter node created at
    arena position k holds init(k), standing in for the random draws. */
module Network {
  import opened Arena
  import opened Engine
  import opened Topo
  import opened Loss

  datatype Option<T> = None | Some(value: T)

  datatype LayerType = Hidden | Output

  /** Indices start, start + 1, ..., start + n - 1. */
  function Range(start: nat, n: nat): (r: seq<nat>)
    ensures |r| == n
  {
    seq(n, i requires 0 <= i < n => start + i)
  }

  /** Every node from position `from` on is a fresh parameter holding its draw. */
  ghost predicate InitLeaves(ns: seq<Node>, from: nat, init: nat -> real)
  {
    forall k :: from <= k < |ns| ==> ns[k] == Node(init(k), Leaf)
  }

  /** Term j is the product node of input j and weight j. */
  ghost predicate Multiplied(ns: seq<Node>, xs: seq<nat>, ws: seq<nat>, ts: seq<nat>)
    requires |ts| <= |xs| && |ts| <= |ws|
  {
    forall j :: 0 <= j < |ts| ==> ts[j] < |ns| && ns[ts[j]].op == Times(xs[j], ws[j])
  }

  lemma MultipliedStep(ns: seq<Node>, ms: seq<Node>, xs: seq<nat>, ws: seq<nat>, ts: seq<nat>, k: nat)
    requires ns <= ms && |ts| < |xs| && |ts| < |ws| && Multiplied(ns, xs, ws, ts)
    requires k < |ms| && ms[k].op == Times(xs[|ts|], ws[|ts|])
    ensures Multiplied(ms, xs, ws, ts + [k])
  {
  }

  /** The weighted sum x_0*w_0 + ... + x_(n-1)*w_(n-1); weights past the
      inputs are unused. */
  function Dot(xs: seq<real>, ws: seq<real>): real
    requires |xs| <= |ws|
  {
    if xs == [] then 0.0
    else Dot(xs[..|xs| - 1], ws) + xs[|xs| - 1] * ws[|xs| - 1]
  }

  /** What a neuron outputs: the weighted sum plus the bias, passed through
      ReLU unless the neuron is in the output layer. */
  function NeuronValue(xs: seq<real>, ws: seq<real>, b: real, isOutput: bool): real
    requires |xs| <= |ws|
  {
    if isOutput then Dot(xs, ws) + b else Max(0.0, Dot(xs, ws) + b)
  }

  /** A hidden neuron never outputs a negative value, and passes a positive
      pre-activation through unchanged. */
  lemma HiddenNeuronValue(xs: seq<real>, ws: seq<real>, b: real)
    requires |xs| <= |ws|
    ensures NeuronValue(xs, ws, b, false) >= 0.0
    ensures Dot(xs, ws) + b > 0.0 ==> NeuronValue(xs, ws, b, false) == Dot(xs, ws) + b
    ensures Dot(xs, ws) + b <= 0.0 ==> NeuronValue(xs, ws, b, false) == 0.0
  {
  }

  /** One input times its weight. */
  function Weighted(x: real, w: real): real
  {
    x * w
  }

  /** The products x_i * w_i, as the graph lists them before summing. */
  function Products(xs: seq<real>, ws: seq<real>): (ps: seq<real>)
    requires |xs| <= |ws|
    ensures |ps| == |xs|
  {
    seq(|xs|, i requires 0 <= i < |xs| => Weighted(xs[i], ws[i]))
  }

  /** Summing the products left to right from 0 is the weighted sum. */
  lemma {:induction false} TotalProducts(xs: seq<real>, ws: seq<real>)
    requires |xs| <= |ws|
    ensures Total(Products(xs, ws)) == Dot(xs, ws)
  {
    if xs != [] {
      var n := |xs| - 1;
      var ps := Products(xs, ws);
      assert ps[..n] == Products(xs[..n], ws);
      TotalProducts(xs[..n], ws);
      assert ps[n] == Weighted(xs[n], ws[n]);
    }
  }

  /** The list `[...products, bias]` sums to the weighted sum plus the bias. */
  lemma TotalWithBias(xs: seq<real>, ws: seq<real>, b: real)
    requires |xs| <= |ws|
    ensures Total(Products(xs, ws) + [b]) == Dot(xs, ws) + b
  {
    var ps := Products(xs, ws);
    assert (ps + [b])[..|ps|] == ps;
    TotalProducts(xs, ws);
  }

  class Neuron {
    const weights: seq<nat>
    const bias: nat
    var activation: Option<nat>

    /** The parameters are nodes of an arena of size n. */
    predicate ParamsIn(n: nat)
    {
      AllBelow(weights, n) && bias < n
    }

    /** `new Neuron(noOfInputs)`: noOfInputs weight nodes, then the bias node. */
    constructor(g: Graph, noOfInputs: nat, init: nat -> real)
      requires g.Valid()
      modifies g
      ensures g.Valid() && Appended(old(g.nodes), old(g.grad), g.nodes, g.grad)
      ensures |g.nodes| == |old(g.nodes)| + noOfInputs + 1
      ensures InitLeaves(g.nodes, |old(g.nodes)|, init)
      ensures weights == Range(|old(g.nodes)|, noOfInputs) && bias == |old(g.nodes)| + noOfInputs
      ensures activation == None
    {
      ghost var ns0, gr0 := g.nodes, g.grad;
      var ws: seq<nat> := [];
      for i := 0 to noOfInputs
        invariant g.Valid() && Appended(ns0, gr0, g.nodes, g.grad)
        invariant |g.nodes| == |ns0| + i && InitLeaves(g.nodes, |ns0|, init)
        invariant ws == Range(|ns0|, i)
      {
        var w := g.Const(init(|g.nodes|));
        ws := ws + [w];
      }
      var b := g.Const(init(|g.nodes|));
      weights := ws;
      bias := b;
      activation := None;
    }

    /** The products input i times weight i of `computeActivation`, one mul
        node each, in input order. */
    method WeightedTerms(g: Graph, inputs: seq<nat>) returns (terms: seq<nat>)
      requires g.Valid() && AllBelow(inputs, |g.nodes|) && ParamsIn(|g.nodes|)
      requires |inputs| <= |weights|
      modifies g
      ensures g.Valid() && Appended(old(g.nodes), old(g.grad), g.nodes, g.grad)
      ensures |terms| == |inputs| && AllBelow(terms, |g.nodes|)
      ensures DataOf(g.nodes, terms) == Products(DataOf(old(g.nodes), inputs), DataOf(old(g.nodes), weights))
      ensures forall i :: 0 <= i < |terms| ==> g.nodes[terms[i]].op == Times(inputs[i], weights[i])
      ensures PairsFeed(g.nodes, inputs, weights, terms)
    {
      ghost var ns0, gr0 := g.nodes, g.grad;
      ghost var xs, ws := DataOf(ns0, inputs), DataOf(ns0, weights);
      ghost var ps := Products(xs, ws);
      terms := [];
      for index := 0 to |inputs|
        invariant g.Valid() && Appended(ns0, gr0, g.nodes, g.grad)
        invariant |terms| == index && AllBelow(terms, |g.nodes|) && DataOf(g.nodes, terms) == ps[..index]
        invariant Multiplied(g.nodes, inputs, weights, terms)
        invariant PairsFeed(g.nodes, inputs, weights, terms)
      {
        ghost var before, gb := g.nodes, g.grad;
        assert before[inputs[index]] == ns0[inputs[index]] && before[weights[index]] == ns0[weights[index]];
        var m := g.Mul(inputs[index], weights[index]);
        MulCongr(g.nodes[inputs[index]].data, g.nodes[weights[index]].data, xs[index], ws[index]);
        AppendedTrans(ns0, gr0, before, gb, g.nodes, g.grad);
        DataOfExtend(before, g.nodes, terms, ps[..index], m, ps[index]);
        assert ps[..index + 1] == ps[..index] + [ps[index]];
        Operand(g.nodes, m, inputs[index]);
        Operand(g.nodes, m, weights[index]);
        PairsStep(before, g.nodes, inputs, weights, terms, m);
        MultipliedStep(before, g.nodes, inputs, weights, terms, m);
        terms := terms + [m];
      }
      assert ps[..|inputs|] == ps;
    }

    /** `computeActivation(inputs, isOutputLayer)`: input i times weight i for
        every input, their sum together with the bias, then ReLU unless this is
        the output layer; the result is also stored in `activation`. */
    method ComputeActivation(g: Graph, inputs: seq<nat>, isOutputLayer: bool) returns (out: nat)
      requires g.Valid() && AllBelow(inputs, |g.nodes|) && ParamsIn(|g.nodes|)
      requires |inputs| <= |weights|
      modifies g, this
      ensures g.Valid() && Appended(old(g.nodes), old(g.grad), g.nodes, g.grad)
      ensures out < |g.nodes| && activation == Some(out)
      ensures g.nodes[out].data
           == NeuronValue(DataOf(old(g.nodes), inputs), DataOf(old(g.nodes), weights),
                          old(g.nodes)[bias].data, isOutputLayer)
      ensures bias in Reach(g.nodes, out)
      ensures forall i :: 0 <= i < |inputs| ==> inputs[i] in Reach(g.nodes, out) && weights[i] in Reach(g.nodes, out)
    {
      ghost var ns0, gr0 := g.nodes, g.grad;
      var terms := WeightedTerms(g, inputs);
      ghost var ns1, gr1 := g.nodes, g.grad;
      DataOfExtend(ns1, ns1, terms, DataOf(ns1, terms), bias, ns0[bias].data);
      var sum := g.Sum(terms + [bias]);
      TotalWithBias(DataOf(ns0, inputs), DataOf(ns0, weights), ns0[bias].data);
      AppendedTrans(ns0, gr0, ns1, gr1, g.nodes, g.grad);
      assert (terms + [bias])[|terms|] == bias;
      assert Feeds(g.nodes, terms, sum) by {
        forall i | 0 <= i < |terms| ensures terms[i] in Reach(g.nodes, sum) {
          assert (terms + [bias])[i] == terms[i];
        }
      }
      PairsJoin(ns1, g.nodes, inputs, weights, terms, sum);
      if isOutputLayer {
        activation := Some(sum);
        out := sum;
      } else {
        ghost var ns2, gr2 := g.nodes, g.grad;
        out := g.Relu(sum);
        activation := Some(out);
        assert Appended(ns2, gr2, g.nodes, g.grad);
        AppendedTrans(ns0, gr0, ns2, gr2, g.nodes, g.grad);
        Operand(g.nodes, out, sum);
        ReachPrefix(ns2, g.nodes, sum);
      }
    }
  }

  /** Every neuron holds an activation, a node of an arena of size n. */
  ghost predicate Activated(ns: seq<Neuron>, n: nat)
    reads set i | 0 <= i < |ns| :: ns[i]
  {
    forall i :: 0 <= i < |ns| ==> ns[i].activation.Some? && ns[i].activation.value < n
  }

  /** Neuron i of the output layer holds a node that root reaches and whose
      value is vs[i]: the loss depends on every prediction. */
  ghost predicate Predicted(ns: seq<Node>, root: nat, out: seq<Neuron>, vs: seq<real>)
    reads set i | 0 <= i < |out| :: out[i]
    requires WellFormed(ns) && root < |ns|
  {
    |vs| == |out| && forall i :: 0 <= i < |out| ==>
      out[i].activation.Some? && out[i].activation.value < |ns|
      && out[i].activation.value in Reach(ns, root) && ns[out[i].activation.value].data == vs[i]
  }

  lemma PredictedFrom(ns: seq<Node>, root: nat, out: seq<Neuron>, ps: seq<nat>, ts: seq<nat>, vs: seq<real>)
    requires WellFormed(ns) && root < |ns| && AllBelow(ps, |ns|) && |ps| == |out| && |ps| <= |ts|
    requires forall i :: 0 <= i < |ps| ==> out[i].activation == Some(ps[i])
    requires forall j :: 0 <= j < |ps| ==> ps[j] in Reach(ns, root) && ts[j] in Reach(ns, root)
    requires DataOf(ns, ps) == vs
    ensures Predicted(ns, root, out, vs)
  {
  }

  /** Node out reaches the neuron's bias, every input, and the weight each
      input is multiplied by. */
  ghost predicate NeuronFed(ns: seq<Node>, n: Neuron, inputs: seq<nat>, out: nat)
    requires WellFormed(ns) && out < |ns|
  {
    && n.bias in Reach(ns, out)
    && forall j :: 0 <= j < |inputs| ==>
         && inputs[j] in Reach(ns, out)
         && (j < |n.weights| ==> n.weights[j] in Reach(ns, out))
  }

  /** Output i of a layer is fed by neuron i's bias, the inputs and the
      weights they meet. */
  ghost predicate LayerFed(ns: seq<Node>, neurons: seq<Neuron>, inputs: seq<nat>, outs: seq<nat>)
    requires WellFormed(ns) && AllBelow(outs, |ns|) && |outs| <= |neurons|
  {
    forall i :: 0 <= i < |outs| ==> NeuronFed(ns, neurons[i], inputs, outs[i])
  }

  lemma LayerFedStep(ns: seq<Node>, ms: seq<Node>, neurons: seq<Neuron>, inputs: seq<nat>, outs: seq<nat>, o: nat)
    requires WellFormed(ms) && ns <= ms && AllBelow(outs, |ns|) && |outs| < |neurons|
    requires WellFormed(ns) && LayerFed(ns, neurons, inputs, outs)
    requires o < |ms| && NeuronFed(ms, neurons[|outs|], inputs, o)
    ensures AllBelow(outs + [o], |ms|) && LayerFed(ms, neurons, inputs, outs + [o])
  {
    var more := outs + [o];
    forall i | 0 <= i < |more| ensures NeuronFed(ms, neurons[i], inputs, more[i]) {
      if i < |outs| {
        ReachPrefix(ns, ms, outs[i]);
        assert NeuronFed(ns, neurons[i], inputs, outs[i]);
      }
    }
  }

  /** The number of inputs the last of the layers takes, when the first takes `width`. */
  function InWidth(ls: seq<Layer>, width: nat): nat
  {
    if |ls| <= 1 then width else |ls[|ls| - 2].neurons|
  }

  /** The bias of a neuron and the weights that meet one of `width` inputs. */
  ghost function NeuronSources(n: Neuron, width: nat): set<nat>
  {
    {n.bias} + set j | 0 <= j < width && j < |n.weights| :: n.weights[j]
  }

  ghost function LayerSources(neurons: seq<Neuron>, width: nat): set<nat>
  {
    set i, x | 0 <= i < |neurons| && x in NeuronSources(neurons[i], width) :: x
  }

  /** The network inputs and every parameter of the layers that meets an
      input: the nodes the network's outputs depend on. */
  ghost function Sources(ls: seq<Layer>, inputs: seq<nat>): set<nat>
  {
    if ls == [] then set j | 0 <= j < |inputs| :: inputs[j]
    else Sources(ls[..|ls| - 1], inputs) + LayerSources(ls[|ls| - 1].neurons, InWidth(ls, |inputs|))
  }

  /** Every layer but the last has at least one neuron, so that every output
      of a layer feeds every neuron of the next. */
  predicate HiddenNonEmpty(ls: seq<Layer>)
  {
    forall l :: 0 <= l < |ls| - 1 ==> |ls[l].neurons| > 0
  }

  /** Output i of the last layer reaches the network inputs, the parameters of
      every earlier layer, and the parameters of its own neuron. */
  ghost predicate Fed(ns: seq<Node>, ls: seq<Layer>, inputs: seq<nat>, outs: seq<nat>)
    requires WellFormed(ns) && AllBelow(outs, |ns|) && |ls| > 0 && |outs| <= |ls[|ls| - 1].neurons|
  {
    forall i :: 0 <= i < |outs| ==>
      && Sources(ls[..|ls| - 1], inputs) <= Reach(ns, outs[i])
      && NeuronSources(ls[|ls| - 1].neurons[i], InWidth(ls, |inputs|)) <= Reach(ns, outs[i])
  }

  lemma FedGrow(ns: seq<Node>, ms: seq<Node>, ls: seq<Layer>, inputs: seq<nat>, outs: seq<nat>)
    requires WellFormed(ms) && ns <= ms && AllBelow(outs, |ns|) && |ls| > 0 && |outs| <= |ls[|ls| - 1].neurons|
    requires WellFormed(ns) && Fed(ns, ls, inputs, outs)
    ensures AllBelow(outs, |ms|) && Fed(ms, ls, inputs, outs)
  {
    forall i | 0 <= i < |outs| ensures Reach(ns, outs[i]) == Reach(ms, outs[i]) {
      ReachPrefix(ns, ms, outs[i]);
    }
  }

  /** Running one more layer on outputs `prev` of the layers before it: each
      new output reaches what one of `prev` reached, through that input. */
  lemma {:induction false} FedStep(ns: seq<Node>, ls: seq<Layer>, inputs: seq<nat>, prev: seq<nat>, outs: seq<nat>)
    requires WellFormed(ns) && |ls| > 0 && AllBelow(prev, |ns|) && AllBelow(outs, |ns|)
    requires |outs| <= |ls[|ls| - 1].neurons| && |prev| == InWidth(ls, |inputs|)
    requires |ls| == 1 ==> prev == inputs
    requires |ls| > 1 ==> |prev| > 0 && |prev| == |ls[|ls| - 2].neurons| && Fed(ns, ls[..|ls| - 1], inputs, prev)
    requires LayerFed(ns, ls[|ls| - 1].neurons, prev, outs)
    ensures Fed(ns, ls, inputs, outs)
  {
    var last := ls[|ls| - 1].neurons;
    forall i | 0 <= i < |outs|
      ensures Sources(ls[..|ls| - 1], inputs) <= Reach(ns, outs[i])
      ensures NeuronSources(last[i], InWidth(ls, |inputs|)) <= Reach(ns, outs[i])
    {
      var before := ls[..|ls| - 1];
      if |ls| == 1 {
        assert before == [];
      } else {
        var w := InWidth(before, |inputs|);
        assert before[..|before| - 1] == ls[..|ls| - 2];
        assert Sources(before, inputs)
            == Sources(before[..|before| - 1], inputs) + LayerSources(before[|before| - 1].neurons, w);
        assert Sources(before[..|before| - 1], inputs) <= Reach(ns, outs[i]) by {
          ReachTrans(ns, outs[i], prev[0]);
        }
        forall x | x in LayerSources(before[|before| - 1].neurons, w) ensures x in Reach(ns, outs[i]) {
          var k :| 0 <= k < |prev| && x in NeuronSources(before[|before| - 1].neurons[k], w);
          ReachTrans(ns, outs[i], prev[k]);
        }
      }
    }
  }

  /** A root that reaches every output of the last layer reaches every
      source of the network. */
  lemma FedJoin(ns: seq<Node>, ls: seq<Layer>, inputs: seq<nat>, outs: seq<nat>, root: nat)
    requires WellFormed(ns) && |ls| > 0 && AllBelow(outs, |ns|) && |outs| == |ls[|ls| - 1].neurons| > 0
    requires Fed(ns, ls, inputs, outs) && root < |ns|
    requires forall i :: 0 <= i < |outs| ==> outs[i] in Reach(ns, root)
    ensures Sources(ls, inputs) <= Reach(ns, root)
  {
    ReachTrans(ns, root, outs[0]);
    forall x | x in LayerSources(ls[|ls| - 1].neurons, InWidth(ls, |inputs|)) ensures x in Reach(ns, root) {
      var k :| 0 <= k < |outs| && x in NeuronSources(ls[|ls| - 1].neurons[k], InWidth(ls, |inputs|));
      ReachTrans(ns, root, outs[k]);
    }
  }

  /** Neurons at different positions are different objects. */
  predicate Distinct(ns: seq<Neuron>)
  {
    forall i, j :: 0 <= i < j < |ns| ==> ns[i] != ns[j]
  }

  /** Every neuron's parameters lie in an arena of size n and it has a weight
      for each of `width` inputs. */
  predicate Accepts(ns: seq<Neuron>, n: nat, width: nat)
  {
    Distinct(ns) && forall i :: 0 <= i < |ns| ==> ns[i].ParamsIn(n) && width <= |ns[i].weights|
  }

  /** The outputs of a layer of neurons on inputs of value xs. */
  function LayerValues(arena: seq<Node>, ns: seq<Neuron>, xs: seq<real>, isOutput: bool): (vs: seq<real>)
    requires Accepts(ns, |arena|, |xs|)
    ensures |vs| == |ns|
  {
    seq(|ns|, i requires 0 <= i < |ns| =>
      NeuronValue(xs, DataOf(arena, ns[i].weights), arena[ns[i].bias].data, isOutput))
  }

  /** Every neuron of a hidden layer outputs a non-negative value. */
  lemma HiddenLayerValues(arena: seq<Node>, ns: seq<Neuron>, xs: seq<real>)
    requires Accepts(ns, |arena|, |xs|)
    ensures forall i :: 0 <= i < |ns| ==> LayerValues(arena, ns, xs, false)[i] >= 0.0
  {
    forall i | 0 <= i < |ns| ensures LayerValues(arena, ns, xs, false)[i] >= 0.0 {
      HiddenNeuronValue(xs, DataOf(arena, ns[i].weights), arena[ns[i].bias].data);
    }
  }

  /** Parameters already in the arena keep their values as the arena grows. */
  lemma LayerValuesGrow(arena: seq<Node>, bigger: seq<Node>, ns: seq<Neuron>, xs: seq<real>, isOutput: bool)
    requires arena <= bigger && Accepts(ns, |arena|, |xs|)
    ensures Accepts(ns, |bigger|, |xs|)
    ensures LayerValues(bigger, ns, xs, isOutput) == LayerValues(arena, ns, xs, isOutput)
  {
    forall i | 0 <= i < |ns|
      ensures LayerValues(bigger, ns, xs, isOutput)[i] == LayerValues(arena, ns, xs, isOutput)[i]
    {
      DataOfPrefix(arena, bigger, ns[i].weights);
      assert bigger[ns[i].bias] == arena[ns[i].bias];
    }
  }

  class Layer {
    const kind: LayerType
    const neurons: seq<Neuron>

    /** `new Layer(noOfNeurons, noOfInputs, type)`: noOfNeurons fresh neurons
        of noOfInputs weights each. */
    constructor(g: Graph, noOfNeurons: nat, noOfInputs: nat, kind: LayerType, init: nat -> real)
      requires g.Valid()
      modifies g
      ensures g.Valid() && Appended(old(g.nodes), old(g.grad), g.nodes, g.grad)
      ensures InitLeaves(g.nodes, |old(g.nodes)|, init)
      ensures this.kind == kind && |neurons| == noOfNeurons
      ensures Accepts(neurons, |g.nodes|, noOfInputs)
      ensures forall i :: 0 <= i < noOfNeurons ==>
        fresh(neurons[i]) && |neurons[i].weights| == noOfInputs && neurons[i].activation == None
    {
      ghost var ns0, gr0 := g.nodes, g.grad;
      var ns: seq<Neuron> := [];
      for i := 0 to noOfNeurons
        invariant g.Valid() && Appended(ns0, gr0, g.nodes, g.grad) && InitLeaves(g.nodes, |ns0|, init)
        invariant |ns| == i && Accepts(ns, |g.nodes|, noOfInputs)
        invariant forall j :: 0 <= j < i ==>
          fresh(ns[j]) && |ns[j].weights| == noOfInputs && ns[j].activation == None
      {
        ghost var before, gb := g.nodes, g.grad;
        var n := new Neuron(g, noOfInputs, init);
        AppendedTrans(ns0, gr0, before, gb, g.nodes, g.grad);
        ns := ns + [n];
      }
      this.kind := kind;
      neurons := ns;
    }

    /** `forward(inputs)`: every neuron's activation on the same inputs, in
        neuron order, ReLU applied unless this is the output layer. */
    method Forward(g: Graph, inputs: seq<nat>) returns (outs: seq<nat>)
      requires g.Valid() && AllBelow(inputs, |g.nodes|) && Accepts(neurons, |g.nodes|, |inputs|)
      modifies g, neurons
      ensures g.Valid() && Appended(old(g.nodes), old(g.grad), g.nodes, g.grad)
      ensures AllBelow(outs, |g.nodes|) && |outs| == |neurons|
      ensures DataOf(g.nodes, outs)
           == LayerValues(old(g.nodes), neurons, DataOf(old(g.nodes), inputs), kind == Output)
      ensures forall i :: 0 <= i < |neurons| ==> neurons[i].activation == Some(outs[i])
      ensures LayerFed(g.nodes, neurons, inputs, outs)
    {
      ghost var ns0, gr0 := g.nodes, g.grad;
      ghost var xs := DataOf(ns0, inputs);
      ghost var vs := LayerValues(ns0, neurons, xs, kind == Output);
      outs := [];
      for i := 0 to |neurons|
        invariant g.Valid() && Appended(ns0, gr0, g.nodes, g.grad)
        invariant AllBelow(outs, |g.nodes|) && DataOf(g.nodes, outs) == vs[..i]
        invariant forall j :: 0 <= j < i ==> neurons[j].activation == Some(outs[j])
        invariant LayerFed(g.nodes, neurons, inputs, outs)
      {
        var o := ForwardNeuron(g, inputs, outs, ns0, gr0);
        outs := outs + [o];
      }
      assert vs[..|neurons|] == vs;
    }

    /** One turn of `forward`'s loop: neuron |outs| run on the inputs, after
        neurons 0 to |outs| - 1 gave `outs`. */
    method ForwardNeuron(g: Graph, inputs: seq<nat>, outs: seq<nat>, ghost ns0: seq<Node>, ghost gr0: seq<real>)
      returns (o: nat)
      requires |outs| < |neurons| && AllBelow(inputs, |ns0|) && Accepts(neurons, |ns0|, |inputs|)
      requires g.Valid() && Appended(ns0, gr0, g.nodes, g.grad)
      requires AllBelow(outs, |g.nodes|) && LayerFed(g.nodes, neurons, inputs, outs)
      requires DataOf(g.nodes, outs) == LayerValues(ns0, neurons, DataOf(ns0, inputs), kind == Output)[..|outs|]
      modifies g, neurons[|outs|]
      ensures g.Valid() && Appended(ns0, gr0, g.nodes, g.grad)
      ensures AllBelow(outs + [o], |g.nodes|) && LayerFed(g.nodes, neurons, inputs, outs + [o])
      ensures DataOf(g.nodes, outs + [o])
           == LayerValues(ns0, neurons, DataOf(ns0, inputs), kind == Output)[..|outs| + 1]
      ensures neurons[|outs|].activation == Some(o)
    {
      ghost var before, gb := g.nodes, g.grad;
      ghost var vs := LayerValues(ns0, neurons, DataOf(ns0, inputs), kind == Output);
      var i := |outs|;
      var n := neurons[i];
      assert n.ParamsIn(|ns0|);
      DataOfPrefix(ns0, before, inputs);
      DataOfPrefix(ns0, before, n.weights);
      o := n.ComputeActivation(g, inputs, kind == Output);
      assert before[n.bias] == ns0[n.bias];
      AppendedTrans(ns0, gr0, before, gb, g.nodes, g.grad);
      DataOfExtend(before, g.nodes, outs, vs[..i], o, vs[i]);
      assert vs[..i + 1] == vs[..i] + [vs[i]];
      LayerFedStep(before, g.nodes, neurons, inputs, outs, o);
    }
  }

  /** The layers fit together: layer 0 takes `width` inputs and every later
      layer takes one input per neuron of the layer before it. */
  predicate Fits(ls: seq<Layer>, n: nat, width: nat)
  {
    (|ls| > 0 ==> Accepts(ls[0].neurons, n, width))
    && forall l :: 1 <= l < |ls| ==> Accepts(ls[l].neurons, n, |ls[l - 1].neurons|)
  }

  lemma FitsPrefix(ls: seq<Layer>, n: nat, width: nat, k: nat)
    requires Fits(ls, n, width) && k <= |ls|
    ensures Fits(ls[..k], n, width)
  {
    assert forall l :: 0 <= l < k ==> ls[..k][l] == ls[l];
  }

  /** The values `predict` produces: the layers applied one after the other. */
  function MlpValues(arena: seq<Node>, ls: seq<Layer>, xs: seq<real>): (vs: seq<real>)
    requires Fits(ls, |arena|, |xs|)
    ensures |vs| == if ls == [] then |xs| else |ls[|ls| - 1].neurons|
  {
    if ls == [] then xs
    else
      var init := ls[..|ls| - 1];
      FitsPrefix(ls, |arena|, |xs|, |ls| - 1);
      LayerValues(arena, ls[|ls| - 1].neurons, MlpValues(arena, init, xs), ls[|ls| - 1].kind == Output)
  }

  /** The parameters of one neuron in `getTrainableParams` order. */
  function NeuronParams(n: Neuron): seq<nat>
  {
    [n.bias] + n.weights
  }

  /** Bias then weights of every neuron, neuron after neuron. */
  function LayerParams(ns: seq<Neuron>): seq<nat>
  {
    if ns == [] then [] else LayerParams(ns[..|ns| - 1]) + NeuronParams(ns[|ns| - 1])
  }

  /** The parameters of every layer, layer after layer. */
  function ParamList(ls: seq<Layer>): seq<nat>
  {
    if ls == [] then [] else ParamList(ls[..|ls| - 1]) + LayerParams(ls[|ls| - 1].neurons)
  }

  /** The widths of an MLP: inputs, then each layer's neuron count. */
  predicate Shaped(ls: seq<Layer>, sizes: seq<nat>)
  {
    |sizes| == |ls| + 1
    && (forall l :: 0 <= l < |ls| ==> |ls[l].neurons| == sizes[l + 1])
    && forall l, i :: 0 <= l < |ls| && 0 <= i < |ls[l].neurons| ==> |ls[l].neurons[i].weights| == sizes[l]
  }

  /** Σ over the layers of neurons × (inputs + 1). */
  function ParamCount(sizes: seq<nat>): nat
  {
    if |sizes| < 2 then 0
    else ParamCount(sizes[..|sizes| - 1]) + sizes[|sizes| - 1] * (sizes[|sizes| - 2] + 1)
  }

  lemma {:induction false} LayerParamsCount(ns: seq<Neuron>, w: nat)
    requires forall i :: 0 <= i < |ns| ==> |ns[i].weights| == w
    ensures |LayerParams(ns)| == |ns| * (w + 1)
  {
    if ns != [] {
      var k := |ns| - 1;
      LayerParamsCount(ns[..k], w);
      assert |NeuronParams(ns[k])| == w + 1;
      assert |ns| * (w + 1) == k * (w + 1) + (w + 1);
    }
  }

  /** `getTrainableParams()` lists Σ neurons × (inputs + 1) nodes. */
  lemma {:induction false} TrainableCount(ls: seq<Layer>, sizes: seq<nat>)
    requires Shaped(ls, sizes)
    ensures |ParamList(ls)| == ParamCount(sizes)
  {
    if ls != [] {
      var k := |ls| - 1;
      assert Shaped(ls[..k], sizes[..k + 1]) by {
        assert forall l :: 0 <= l < k ==> ls[..k][l] == ls[l];
      }
      TrainableCount(ls[..k], sizes[..k + 1]);
      assert sizes[..|sizes| - 1] == sizes[..k + 1];
      LayerParamsCount(ls[k].neurons, sizes[k]);
    }
  }

  lemma {:induction false} LayerParamsSources(ns: seq<Neuron>, width: nat)
    requires forall i :: 0 <= i < |ns| ==> |ns[i].weights| == width
    ensures forall x :: x in LayerParams(ns) ==> x in LayerSources(ns, width)
  {
    if ns != [] {
      var k := |ns| - 1;
      LayerParamsSources(ns[..k], width);
      forall x | x in LayerParams(ns) ensures x in LayerSources(ns, width) {
        if x in LayerParams(ns[..k]) {
          var i :| 0 <= i < k && x in NeuronSources(ns[..k][i], width);
          assert ns[..k][i] == ns[i];
        } else {
          assert x in NeuronParams(ns[k]);
          assert x in NeuronSources(ns[k], width);
        }
      }
    }
  }

  /** When every neuron has exactly one weight per input of its layer, as
      `new MLP(...)` builds it, every trainable parameter is a source: a node
      the outputs depend on. */
  lemma {:induction false} ParamsAreSources(ls: seq<Layer>, inputs: seq<nat>, sizes: seq<nat>)
    requires Shaped(ls, sizes) && sizes[0] == |inputs|
    ensures forall x :: x in ParamList(ls) ==> x in Sources(ls, inputs)
  {
    if ls != [] {
      var k := |ls| - 1;
      assert Shaped(ls[..k], sizes[..k + 1]) by {
        assert forall l :: 0 <= l < k ==> ls[..k][l] == ls[l];
      }
      ParamsAreSources(ls[..k], inputs, sizes[..k + 1]);
      assert InWidth(ls, |inputs|) == sizes[k];
      LayerParamsSources(ls[k].neurons, sizes[k]);
    }
  }

  /** Two inputs, hidden layers of 4 and 4 neurons, one output: 37 parameters. */
  lemma ParamCountExample()
    ensures ParamCount([2, 4, 4, 1]) == 37
  {
    assert [2, 4, 4, 1][..3] == [2, 4, 4];
    assert [2, 4, 4][..2] == [2, 4];
    assert [2, 4][..1] == [2];
  }

  lemma {:induction false} LayerParamsBelow(ns: seq<Neuron>, n: nat, width: nat)
    requires Accepts(ns, n, width)
    ensures AllBelow(LayerParams(ns), n)
  {
    if ns != [] {
      LayerParamsBelow(ns[..|ns| - 1], n, width);
      assert ns[|ns| - 1].ParamsIn(n);
    }
  }

  /** Every trainable parameter of layers that fit an arena of size n is a
      node of that arena. */
  lemma {:induction false} ParamListBelow(ls: seq<Layer>, n: nat, width: nat)
    requires Fits(ls, n, width)
    ensures AllBelow(ParamList(ls), n)
  {
    if ls != [] {
      var k := |ls| - 1;
      FitsPrefix(ls, n, width, k);
      ParamListBelow(ls[..k], n, width);
      if k == 0 {
        LayerParamsBelow(ls[k].neurons, n, width);
      } else {
        LayerParamsBelow(ls[k].neurons, n, |ls[k - 1].neurons|);
      }
    }
  }

  /** The hidden layers of `new MLP(...)`, in order: layer 0 takes
      noOfInputs inputs and layer l the neuron count of layer l - 1. */
  method HiddenLayers(g: Graph, noOfInputs: nat, hiddenLayers: seq<nat>, init: nat -> real) returns (ls: seq<Layer>)
    requires g.Valid()
    modifies g
    ensures g.Valid() && Appended(old(g.nodes), old(g.grad), g.nodes, g.grad)
    ensures InitLeaves(g.nodes, |old(g.nodes)|, init)
    ensures Shaped(ls, [noOfInputs] + hiddenLayers) && Fits(ls, |g.nodes|, noOfInputs)
    ensures forall l :: 0 <= l < |ls| ==> ls[l].kind == Hidden
    ensures forall l, i :: 0 <= l < |ls| && 0 <= i < |ls[l].neurons| ==> fresh(ls[l].neurons[i])
  {
    ghost var ns0, gr0 := g.nodes, g.grad;
    ghost var sizes := [noOfInputs] + hiddenLayers;
    ls := [];
    for index := 0 to |hiddenLayers|
      invariant g.Valid() && Appended(ns0, gr0, g.nodes, g.grad) && InitLeaves(g.nodes, |ns0|, init)
      invariant |ls| == index && Shaped(ls, sizes[..index + 1]) && Fits(ls, |g.nodes|, noOfInputs)
      invariant forall l :: 0 <= l < index ==> ls[l].kind == Hidden
      invariant forall l, i :: 0 <= l < index && 0 <= i < |ls[l].neurons| ==> fresh(ls[l].neurons[i])
    {
      ghost var before, gb := g.nodes, g.grad;
      var width := if index == 0 then noOfInputs else hiddenLayers[index - 1];
      assert width == sizes[index];
      var layer := new Layer(g, hiddenLayers[index], width, Hidden, init);
      AppendedTrans(ns0, gr0, before, gb, g.nodes, g.grad);
      ls := ls + [layer];
    }
    assert sizes[..|hiddenLayers| + 1] == sizes;
  }

  lemma FitsGrow(ls: seq<Layer>, n: nat, m: nat, width: nat)
    requires Fits(ls, n, width) && n <= m
    ensures Fits(ls, m, width)
  {
    forall l | 0 <= l < |ls| ensures Accepts(ls[l].neurons, m, if l == 0 then width else |ls[l - 1].neurons|) {
      var ns := ls[l].neurons;
      forall i | 0 <= i < |ns| ensures ns[i].ParamsIn(m) {
        assert ns[i].ParamsIn(n);
      }
    }
  }

  /** An output layer taking one input per neuron of the last layer fits on. */
  lemma FitsSnoc(ls: seq<Layer>, layer: Layer, n: nat, width: nat)
    requires Fits(ls, n, width) && |ls| > 0 && Accepts(layer.neurons, n, |ls[|ls| - 1].neurons|)
    ensures Fits(ls + [layer], n, width)
  {
    assert forall l :: 0 <= l < |ls| ==> (ls + [layer])[l] == ls[l];
  }

  class MLP {
    const layers: seq<Layer>

    /** All the neurons, the objects `predict` updates. */
    function Neurons(): set<Neuron>
    {
      set l, n | l in layers && n in l.neurons :: n
    }

    /** `new MLP({noOfInputs, hiddenLayers, noOfOutputs})`: a hidden layer
        per entry of hiddenLayers, the first taking noOfInputs inputs and each
        other one the previous layer's neuron count, then the output layer. */
    constructor(g: Graph, noOfInputs: nat, hiddenLayers: seq<nat>, noOfOutputs: nat, init: nat -> real)
      requires g.Valid() && |hiddenLayers| > 0
      modifies g
      ensures g.Valid() && Appended(old(g.nodes), old(g.grad), g.nodes, g.grad)
      ensures InitLeaves(g.nodes, |old(g.nodes)|, init)
      ensures |layers| == |hiddenLayers| + 1
      ensures forall l :: 0 <= l < |hiddenLayers| ==> layers[l].kind == Hidden
      ensures layers[|hiddenLayers|].kind == Output
      ensures Shaped(layers, [noOfInputs] + hiddenLayers + [noOfOutputs])
      ensures Fits(layers, |g.nodes|, noOfInputs)
      ensures fresh(Neurons())
    {
      ghost var ns0, gr0 := g.nodes, g.grad;
      var ls := HiddenLayers(g, noOfInputs, hiddenLayers, init);
      ghost var before, gb := g.nodes, g.grad;
      var output := new Layer(g, noOfOutputs, hiddenLayers[|hiddenLayers| - 1], Output, init);
      AppendedTrans(ns0, gr0, before, gb, g.nodes, g.grad);
      FitsGrow(ls, |before|, |g.nodes|, noOfInputs);
      FitsSnoc(ls, output, |g.nodes|, noOfInputs);
      layers := ls + [output];
      new;
      forall n | n in Neurons() ensures fresh(n) {
        var l :| l in layers && n in l.neurons;
        var li :| 0 <= li < |layers| && layers[li] == l;
        var i :| 0 <= i < |l.neurons| && l.neurons[i] == n;
      }
    }

    /** One turn of `predict`'s loop: layer li run forward, after which every
        layer up to li holds activations. */
    method ForwardLayer(g: Graph, li: nat, inputs: seq<nat>) returns (outs: seq<nat>)
      requires li < |layers| && g.Valid() && AllBelow(inputs, |g.nodes|)
      requires Accepts(layers[li].neurons, |g.nodes|, |inputs|)
      requires forall l :: 0 <= l < li ==> Activated(layers[l].neurons, |g.nodes|)
      modifies g, layers[li].neurons
      ensures g.Valid() && Appended(old(g.nodes), old(g.grad), g.nodes, g.grad)
      ensures AllBelow(outs, |g.nodes|) && |outs| == |layers[li].neurons|
      ensures DataOf(g.nodes, outs)
           == LayerValues(old(g.nodes), layers[li].neurons, DataOf(old(g.nodes), inputs), layers[li].kind == Output)
      ensures forall i :: 0 <= i < |outs| ==> layers[li].neurons[i].activation == Some(outs[i])
      ensures LayerFed(g.nodes, layers[li].neurons, inputs, outs)
      ensures forall l :: 0 <= l <= li ==> Activated(layers[l].neurons, |g.nodes|)
    {
      outs := layers[li].Forward(g, inputs);
      // A neuron of an earlier layer is either one Forward just set, or untouched.
      forall l, i | 0 <= l < li && 0 <= i < |layers[l].neurons|
        ensures layers[l].neurons[i].activation.Some? && layers[l].neurons[i].activation.value < |g.nodes|
      {
        if layers[l].neurons[i] in layers[li].neurons {
          var j :| 0 <= j < |layers[li].neurons| && layers[li].neurons[j] == layers[l].neurons[i];
        }
      }
    }

    /** `predict(inputs)`: the inputs passed through every layer in turn. */
    method Predict(g: Graph, inputs: seq<nat>) returns (outputs: seq<nat>)
      requires g.Valid() && AllBelow(inputs, |g.nodes|) && Fits(layers, |g.nodes|, |inputs|)
      modifies g, Neurons()
      ensures g.Valid() && Appended(old(g.nodes), old(g.grad), g.nodes, g.grad)
      ensures AllBelow(outputs, |g.nodes|)
      ensures |outputs| == if layers == [] then |inputs| else |layers[|layers| - 1].neurons|
      ensures DataOf(g.nodes, outputs) == MlpValues(old(g.nodes), layers, DataOf(old(g.nodes), inputs))
      ensures layers != [] ==> forall i :: 0 <= i < |outputs| ==>
        layers[|layers| - 1].neurons[i].activation == Some(outputs[i])
      ensures forall l :: 0 <= l < |layers| ==> Activated(layers[l].neurons, |g.nodes|)
      ensures layers != [] && HiddenNonEmpty(layers) ==> Fed(g.nodes, layers, inputs, outputs)
    {
      ghost var ns0, gr0 := g.nodes, g.grad;
      outputs := inputs;
      assert layers[..0] == [];
      for li := 0 to |layers|
        invariant g.Valid() && Appended(ns0, gr0, g.nodes, g.grad)
        invariant Ran(g.nodes, ns0, li, inputs, outputs)
        invariant li > 0 ==> forall i :: 0 <= i < |outputs| ==> layers[li - 1].neurons[i].activation == Some(outputs[i])
        invariant forall l :: 0 <= l < li ==> Activated(layers[l].neurons, |g.nodes|)
      {
        assert forall n :: n in layers[li].neurons ==> n in Neurons();
        outputs := PredictStep(g, li, inputs, outputs, ns0, gr0);
      }
      assert layers[..|layers|] == layers;
    }

    /** The state `predict`'s loop reaches once layers 0 to li - 1 have run on
        the inputs: the outputs hold those layers' values, and each reaches
        what `Fed` lists when no hidden layer is empty. */
    ghost predicate Ran(ns: seq<Node>, ns0: seq<Node>, li: nat, inputs: seq<nat>, outputs: seq<nat>)
      requires li <= |layers| && WellFormed(ns) && AllBelow(inputs, |ns0|) && Fits(layers, |ns0|, |inputs|)
    {
      FitsPrefix(layers, |ns0|, |inputs|, li);
      && AllBelow(outputs, |ns|)
      && (li == 0 ==> outputs == inputs)
      && (li > 0 ==> |outputs| == |layers[li - 1].neurons|)
      && DataOf(ns, outputs) == MlpValues(ns0, layers[..li], DataOf(ns0, inputs))
      && (li > 0 && HiddenNonEmpty(layers) ==> Fed(ns, layers[..li], inputs, outputs))
    }

    /** One turn of `predict`'s loop: layer li run on `outputs`, the outputs
        of the layers before it. */
    method PredictStep(g: Graph, li: nat, inputs: seq<nat>, outputs: seq<nat>, ghost ns0: seq<Node>, ghost gr0: seq<real>)
      returns (next: seq<nat>)
      requires li < |layers| && AllBelow(inputs, |ns0|) && Fits(layers, |ns0|, |inputs|)
      requires g.Valid() && Appended(ns0, gr0, g.nodes, g.grad) && Ran(g.nodes, ns0, li, inputs, outputs)
      requires forall l :: 0 <= l < li ==> Activated(layers[l].neurons, |g.nodes|)
      modifies g, layers[li].neurons
      ensures g.Valid() && Appended(ns0, gr0, g.nodes, g.grad) && Ran(g.nodes, ns0, li + 1, inputs, next)
      ensures forall i :: 0 <= i < |next| ==> layers[li].neurons[i].activation == Some(next[i])
      ensures forall l :: 0 <= l <= li ==> Activated(layers[l].neurons, |g.nodes|)
    {
      ghost var before, gb := g.nodes, g.grad;
      var layer := layers[li];
      FitsPrefix(layers, |ns0|, |inputs|, li + 1);
      LayerValuesGrow(ns0, before, layer.neurons, DataOf(before, outputs), layer.kind == Output);
      next := ForwardLayer(g, li, outputs);
      AppendedTrans(ns0, gr0, before, gb, g.nodes, g.grad);
      RanStep(before, g.nodes, ns0, li, inputs, outputs, next);
    }

    /** `Ran` carries over one turn of `predict`'s loop. */
    lemma RanStep(before: seq<Node>, after: seq<Node>, ns0: seq<Node>, li: nat, inputs: seq<nat>, outputs: seq<nat>, next: seq<nat>)
      requires li < |layers| && AllBelow(inputs, |ns0|) && Fits(layers, |ns0|, |inputs|)
      requires WellFormed(after) && ns0 <= before <= after
      requires WellFormed(before) && Ran(before, ns0, li, inputs, outputs)
      requires AllBelow(next, |after|) && |next| == |layers[li].neurons|
      requires Accepts(layers[li].neurons, |ns0|, |outputs|)
      requires DataOf(after, next)
            == LayerValues(ns0, layers[li].neurons, DataOf(before, outputs), layers[li].kind == Output)
      requires LayerFed(after, layers[li].neurons, outputs, next)
      ensures Ran(after, ns0, li + 1, inputs, next)
    {
      FitsPrefix(layers, |ns0|, |inputs|, li + 1);
      assert layers[..li + 1][..li] == layers[..li];
      if HiddenNonEmpty(layers) {
        if li > 0 {
          FedGrow(before, after, layers[..li], inputs, outputs);
        }
        FedStep(after, layers[..li + 1], inputs, outputs, next);
      }
    }

    /** `getTrainableParams()`: for every layer and every neuron in it, the
        bias and then the weights. It only reads, so every call gives the same
        list. */
    method GetTrainableParams() returns (params: seq<nat>)
      ensures params == ParamList(layers)
    {
      params := [];
      for li := 0 to |layers|
        invariant params == ParamList(layers[..li])
      {
        var layer := layers[li];
        assert layers[..li + 1][..li] == layers[..li];
        for ni := 0 to |layer.neurons|
          invariant params == ParamList(layers[..li]) + LayerParams(layer.neurons[..ni])
        {
          var neuron := layer.neurons[ni];
          assert layer.neurons[..ni + 1][..ni] == layer.neurons[..ni];
          params := params + [neuron.bias];
          params := params + neuron.weights;
        }
        assert layer.neurons[..|layer.neurons|] == layer.neurons;
      }
      assert layers[..|layers|] == layers;
    }

    /** `mseLoss(inputs, targets)`: the predictions, then the mean squared
        error of the loss module against the targets. */
    method MseLoss(g: Graph, inputs: seq<nat>, targets: seq<nat>) returns (loss: nat)
      requires g.Valid() && AllBelow(inputs, |g.nodes|) && AllBelow(targets, |g.nodes|)
      requires Fits(layers, |g.nodes|, |inputs|)
      requires 0 < |MlpValues(g.nodes, layers, DataOf(g.nodes, inputs))| <= |targets|
      modifies g, Neurons()
      ensures g.Valid() && Appended(old(g.nodes), old(g.grad), g.nodes, g.grad)
      ensures loss < |g.nodes|
      ensures g.nodes[loss].data
           == Mse(MlpValues(old(g.nodes), layers, DataOf(old(g.nodes), inputs)), DataOf(old(g.nodes), targets))
      ensures layers != [] ==>
        Predicted(g.nodes, loss, layers[|layers| - 1].neurons, MlpValues(old(g.nodes), layers, DataOf(old(g.nodes), inputs)))
      ensures layers != [] && HiddenNonEmpty(layers) ==> Sources(layers, inputs) <= Reach(g.nodes, loss)
    {
      ghost var ns0, gr0 := g.nodes, g.grad;
      var predictions := Predict(g, inputs);
      ghost var ns1, gr1 := g.nodes, g.grad;
      DataOfPrefix(ns0, ns1, targets);
      loss := Loss.MseLoss(g, predictions, targets);
      AppendedTrans(ns0, gr0, ns1, gr1, g.nodes, g.grad);
      if layers != [] {
        DataOfPrefix(ns1, g.nodes, predictions);
        PredictedFrom(g.nodes, loss, layers[|layers| - 1].neurons, predictions, targets, DataOf(ns1, predictions));
        if HiddenNonEmpty(layers) {
          FedGrow(ns1, g.nodes, layers, inputs, predictions);
          FedJoin(g.nodes, layers, inputs, predictions, loss);
        }
      }
    }

    /** `hingeLoss(inputs, targets)`: the predictions, then the hinge loss of
        the loss module with this network's trainable parameters. */
    method HingeLoss(g: Graph, inputs: seq<nat>, targets: seq<nat>) returns (totalLoss: nat, accuracy: real)
      requires g.Valid() && AllBelow(inputs, |g.nodes|) && AllBelow(targets, |g.nodes|)
      requires Fits(layers, |g.nodes|, |inputs|)
      requires 0 < |MlpValues(g.nodes, layers, DataOf(g.nodes, inputs))| <= |targets|
      modifies g, Neurons()
      ensures AllBelow(ParamList(layers), |old(g.nodes)|)
      ensures g.Valid() && Appended(old(g.nodes), old(g.grad), g.nodes, g.grad)
      ensures totalLoss < |g.nodes|
      ensures g.nodes[totalLoss].data
           == HingeTotal(MlpValues(old(g.nodes), layers, DataOf(old(g.nodes), inputs)),
                         DataOf(old(g.nodes), targets), DataOf(old(g.nodes), ParamList(layers)))
      ensures accuracy
           == Accuracy(MlpValues(old(g.nodes), layers, DataOf(old(g.nodes), inputs)), DataOf(old(g.nodes), targets))
      ensures layers != [] ==>
        Predicted(g.nodes, totalLoss, layers[|layers| - 1].neurons, MlpValues(old(g.nodes), layers, DataOf(old(g.nodes), inputs)))
      ensures Feeds(g.nodes, ParamList(layers), totalLoss)
      ensures layers != [] && HiddenNonEmpty(layers) ==> Sources(layers, inputs) <= Reach(g.nodes, totalLoss)
    {
      ghost var ns0, gr0 := g.nodes, g.grad;
      ParamListBelow(layers, |ns0|, |inputs|);
      var predictions := Predict(g, inputs);
      ghost var ns1, gr1 := g.nodes, g.grad;
      var params := GetTrainableParams();
      DataOfPrefix(ns0, ns1, targets);
      DataOfPrefix(ns0, ns1, params);
      totalLoss, accuracy := Loss.HingeLoss(g, predictions, targets, params);
      AppendedTrans(ns0, gr0, ns1, gr1, g.nodes, g.grad);
      if layers != [] {
        DataOfPrefix(ns1, g.nodes, predictions);
        PredictedFrom(g.nodes, totalLoss, layers[|layers| - 1].neurons, predictions, targets, DataOf(ns1, predictions));
        if HiddenNonEmpty(layers) {
          FedGrow(ns1, g.nodes, layers, inputs, predictions);
          FedJoin(g.nodes, layers, inputs, predictions, totalLoss);
        }
      }
    }
  }

  /** A network with two inputs, hidden layers of four and four neurons and
      one output, on a graph holding the two inputs: 37 trainable parameters,
      the same list on a second call, and one output per prediction. */
  method ExampleNetwork(x0: real, x1: real, init: nat -> real) returns (params: seq<nat>, again: seq<nat>, outputs: seq<nat>)
    ensures |params| == 37 && again == params
    ensures |outputs| == 1
  {
    var g := new Graph();
    var i0 := g.Const(x0);
    var i1 := g.Const(x1);
    var mlp := new MLP(g, 2, [4, 4], 1, init);
    params := mlp.GetTrainableParams();
    again := mlp.GetTrainableParams();
    TrainableCount(mlp.layers, [2, 4, 4, 1]);
    ParamCountExample();
    outputs := mlp.Predict(g, [i0, i1]);
  }
}
