/** The mutable computation graph: the ValueNode operations that append nodes,
    the `nodes()` search, the backward rules and `backpropagation()`.
    A ValueNode object is an index into the graph's arena; its `grad` field is
    the entry at that index of `grad`. */
module Engine {
  import opened Arena
  import opened Topo
  import opened Accumulate
  import opened Backprop

  /** `topo.reverse()`: reverse an array in place. */
  method Reverse(a: array<nat>)
    modifies a
    ensures a[..] == Reversed(old(a[..]))
  {
    var n := a.Length;
    var i := 0;
    while i < n / 2
      invariant 0 <= i <= n / 2
      invariant forall k :: 0 <= k < i ==> a[k] == old(a[n - 1 - k]) && a[n - 1 - k] == old(a[k])
      invariant forall k :: i <= k < n - i ==> a[k] == old(a[k])
    {
      a[i], a[n - 1 - i] := a[n - 1 - i], a[i];
      i := i + 1;
    }
  }

  class Graph {
    /** Every node created so far, in creation order. */
    var nodes: seq<Node>
    /** grad[k] is the `grad` field of node k. */
    var grad: seq<real>

    predicate Valid()
      reads this
    {
      |grad| == |nodes| && WellFormed(nodes)
    }

    constructor()
      ensures Valid() && nodes == [] && grad == []
    {
      nodes := [];
      grad := [];
    }

    /** Create a node; its gradient starts at 0 (`grad = 0.0`). */
    method Push(n: Node) returns (k: nat)
      requires Valid() && LocalOk(nodes + [n], |nodes|)
      modifies this
      ensures Valid()
      ensures nodes == old(nodes) + [n] && grad == old(grad) + [0.0]
      ensures k == |old(nodes)|
    {
      WellFormedSnoc(nodes, n);
      k := |nodes|;
      nodes := nodes + [n];
      grad := grad + [0.0];
    }

    /** `new ValueNode(x, 'const')`, also what a number operand becomes. */
    method Const(x: real) returns (k: nat)
      requires Valid()
      modifies this
      ensures Valid()
      ensures nodes == old(nodes) + [Node(x, Leaf)] && grad == old(grad) + [0.0]
      ensures k == |old(nodes)| && Children(nodes[k].op) == []
    {
      k := Push(Node(x, Leaf));
    }

    /** `a.add(b)`: a new node holding a + b with children [a, b]. */
    method Add(i: nat, j: nat) returns (k: nat)
      requires Valid() && i < |nodes| && j < |nodes|
      modifies this
      ensures Valid()
      ensures nodes == old(nodes) + [Node(old(nodes)[i].data + old(nodes)[j].data, Plus(i, j))]
      ensures grad == old(grad) + [0.0]
      ensures k == |old(nodes)| && Children(nodes[k].op) == [i, j]
      ensures nodes[k].data == nodes[i].data + nodes[j].data
    {
      k := Push(Node(nodes[i].data + nodes[j].data, Plus(i, j)));
    }

    /** `a.mul(b)`: a new node holding a * b with children [a, b]. */
    method Mul(i: nat, j: nat) returns (k: nat)
      requires Valid() && i < |nodes| && j < |nodes|
      modifies this
      ensures Valid()
      ensures nodes == old(nodes) + [Node(old(nodes)[i].data * old(nodes)[j].data, Times(i, j))]
      ensures grad == old(grad) + [0.0]
      ensures k == |old(nodes)| && Children(nodes[k].op) == [i, j]
      ensures nodes[k].data == nodes[i].data * nodes[j].data
    {
      k := Push(Node(nodes[i].data * nodes[j].data, Times(i, j)));
    }

    /** `a.pow(n)`: a constant node holding the exponent, then a node holding
        a^n with children [a, exponent]. */
    method Pow(i: nat, n: int) returns (k: nat)
      requires Valid() && i < |nodes|
      requires n >= 1 || nodes[i].data != 0.0
      modifies this
      ensures Valid()
      ensures nodes == old(nodes) + [Node(n as real, Leaf),
                                     Node(RPow(old(nodes)[i].data, n), Power(i, |old(nodes)|, n))]
      ensures grad == old(grad) + [0.0, 0.0]
      ensures k == |old(nodes)| + 1 && Children(nodes[k].op) == [i, k - 1]
      ensures nodes[k].data == RPow(nodes[i].data, n) && nodes[k - 1].data == n as real
    {
      var e := Const(n as real);
      k := Push(Node(RPow(nodes[i].data, n), Power(i, e, n)));
    }

    /** `a.relu()`: a new node holding max(0, a) with child [a]. */
    method Relu(i: nat) returns (k: nat)
      requires Valid() && i < |nodes|
      modifies this
      ensures Valid()
      ensures nodes == old(nodes) + [Node(Max(0.0, old(nodes)[i].data), Rectify(i))]
      ensures grad == old(grad) + [0.0]
      ensures k == |old(nodes)| && Children(nodes[k].op) == [i]
      ensures nodes[k].data >= 0.0 && (nodes[i].data > 0.0 ==> nodes[k].data == nodes[i].data)
      ensures nodes[i].data <= 0.0 ==> nodes[k].data == 0.0
    {
      k := Push(Node(Max(0.0, nodes[i].data), Rectify(i)));
    }

    /** `a.add(x)` with a number x: x becomes a constant node first. */
    method AddNum(i: nat, x: real) returns (k: nat)
      requires Valid() && i < |nodes|
      modifies this
      ensures Valid()
      ensures nodes == old(nodes) + [Node(x, Leaf), Node(old(nodes)[i].data + x, Plus(i, |old(nodes)|))]
      ensures grad == old(grad) + [0.0, 0.0]
      ensures k == |old(nodes)| + 1 && nodes[k].data == nodes[i].data + x
    {
      var c := Const(x);
      k := Add(i, c);
    }

    /** `a.mul(x)` with a number x: x becomes a constant node first. */
    method MulNum(i: nat, x: real) returns (k: nat)
      requires Valid() && i < |nodes|
      modifies this
      ensures Valid()
      ensures var m := |old(nodes)|;
        |nodes| == m + 2 && nodes[..m] == old(nodes)
        && nodes[m] == Node(x, Leaf) && nodes[m + 1].op == Times(i, m)
      ensures grad == old(grad) + [0.0, 0.0]
      ensures k == |old(nodes)| + 1 && nodes[k].data == nodes[i].data * x
    {
      var c := Const(x);
      k := Mul(i, c);
    }

    /** `a.sub(b)` is `a.add(b.mul(-1))`: three new nodes, the last holding a - b. */
    method Sub(i: nat, j: nat) returns (k: nat)
      requires Valid() && i < |nodes| && j < |nodes|
      modifies this
      ensures Valid()
      ensures var m := |old(nodes)|;
        nodes == old(nodes) + [Node(-1.0, Leaf),
                               Node(old(nodes)[j].data * -1.0, Times(j, m)),
                               Node(old(nodes)[i].data + old(nodes)[j].data * -1.0, Plus(i, m + 1))]
      ensures grad == old(grad) + [0.0, 0.0, 0.0]
      ensures k == |old(nodes)| + 2
      ensures nodes[k].data == nodes[i].data - nodes[j].data
    {
      var c := Const(-1.0);
      var m := Mul(j, c);
      k := Add(i, m);
    }

    /** `a.div(b)` is `a.mul(b.pow(-1))`: three new nodes, the last holding a / b. */
    method Div(i: nat, j: nat) returns (k: nat)
      requires Valid() && i < |nodes| && j < |nodes|
      requires nodes[j].data != 0.0
      modifies this
      ensures Valid()
      ensures var m := |old(nodes)|;
        |nodes| == m + 3 && nodes[..m] == old(nodes)
        && nodes[m] == Node(-1.0, Leaf)
        && nodes[m + 1] == Node(RPow(old(nodes)[j].data, -1), Power(j, m, -1))
        && nodes[m + 2].op == Times(i, m + 1)
      ensures grad == old(grad) + [0.0, 0.0, 0.0]
      ensures k == |old(nodes)| + 2
      ensures nodes[k].data == nodes[i].data / nodes[j].data
    {
      RPowInverse(nodes[j].data);
      var p := Pow(j, -1);
      k := Mul(i, p);
    }

    /** `ValueNode.sum(xs)`: a zero constant, then one `add` per element from
        left to right; the last node holds the sum of the elements. */
    method Sum(xs: seq<nat>) returns (k: nat)
      requires Valid() && AllBelow(xs, |nodes|)
      modifies this
      ensures Valid() && Appended(old(nodes), old(grad), nodes, grad)
      ensures |nodes| == |old(nodes)| + 1 + |xs| && k == |nodes| - 1
      ensures nodes[|old(nodes)|] == Node(0.0, Leaf)
      ensures forall t :: 0 <= t < |xs| ==> nodes[|old(nodes)| + 1 + t].op == Plus(|old(nodes)| + t, xs[t])
      ensures nodes[k].data == Total(DataOf(old(nodes), xs))
      ensures Feeds(nodes, xs, k)
    {
      ghost var ns0, gr0 := nodes, grad;
      k := Const(0.0);
      assert DataOf(ns0, xs[..0]) == [];
      for t := 0 to |xs|
        invariant Valid() && Appended(ns0, gr0, nodes, grad)
        invariant |nodes| == |ns0| + 1 + t && k == |nodes| - 1
        invariant nodes[|ns0|] == Node(0.0, Leaf)
        invariant forall s :: 0 <= s < t ==> nodes[|ns0| + 1 + s].op == Plus(|ns0| + s, xs[s])
        invariant nodes[k].data == Total(DataOf(ns0, xs[..t]))
      {
        ghost var before := nodes;
        assert nodes[xs[t]] == ns0[xs[t]];
        k := Add(k, xs[t]);
        assert DataOf(ns0, xs[..t + 1]) == DataOf(ns0, xs[..t]) + [ns0[xs[t]].data];
        forall s | 0 <= s < t + 1 ensures nodes[|ns0| + 1 + s].op == Plus(|ns0| + s, xs[s]) {
          if s < t { assert nodes[|ns0| + 1 + s] == before[|ns0| + 1 + s]; }
        }
      }
      assert xs[..|xs|] == xs;
      SumFeeds(nodes, |ns0|, xs, k);
    }

    /** `buildNodes(v)` with the visited set and the list so far: the search
        described by Visit. */
    method BuildNodes(v: nat, vis0: set<nat>, ord0: seq<nat>) returns (vis: set<nat>, ord: seq<nat>)
      requires Valid() && v < |nodes|
      ensures (vis, ord) == Visit(nodes, v, vis0, ord0)
      decreases v
    {
      if v in vis0 {
        return vis0, ord0;
      }
      ChildrenOk(nodes, v);
      var cs := Children(nodes[v].op);
      vis, ord := vis0 + {v}, ord0;
      assert cs[..0] == [];
      for i := 0 to |cs|
        invariant (vis, ord) == VisitAll(nodes, v, cs[..i], vis0 + {v}, ord0)
      {
        assert cs[..i + 1][..i] == cs[..i];
        vis, ord := BuildNodes(cs[i], vis, ord);
      }
      assert cs[..|cs|] == cs;
      ord := ord + [v];
    }

    /** `nodes()`: every node reachable from root exactly once, operands
        before the nodes that use them, root last. */
    method Nodes(root: nat) returns (order: seq<nat>)
      requires Valid() && root < |nodes|
      ensures order == PostOrder(nodes, root)
      ensures NoDup(order) && Elems(order) == Reach(nodes, root)
      ensures ChildrenBefore(nodes, order) && |order| > 0 && order[|order| - 1] == root
    {
      var vis;
      vis, order := BuildNodes(root, {}, []);
      TopoSpec(nodes, root);
    }

    /** `node._backward()`: the rule of node u adds its share of u's gradient
        to each operand, one statement after the other. */
    method RunBackward(u: nat)
      requires Valid() && u < |nodes|
      modifies this
      ensures Valid() && nodes == old(nodes)
      ensures grad == Fire(Coeffs(nodes), old(grad), u)
    {
      assert LocalOk(nodes, u);
      var g := grad;
      match nodes[u].op
      case Leaf =>
        FireLeaf(nodes, g, u);
      case Plus(l, r) =>
        var g1 := g[l := g[l] + 1.0 * g[u]];
        var g2 := g1[r := g1[r] + 1.0 * g1[u]];
        FirePlus(nodes, g, g1, g2, u, l, r);
        grad := g2;
      case Times(l, r) =>
        var x, y := nodes[l].data, nodes[r].data;
        var g1 := g[l := g[l] + y * g[u]];
        var g2 := g1[r := g1[r] + x * g1[u]];
        FireTimes(nodes, g, g1, g2, u, l, r, x, y);
        grad := g2;
      case Power(b, e, n) =>
        var c, p := nodes[e].data, RPow(nodes[b].data, n - 1);
        var g1 := g[b := g[b] + c * p * g[u]];
        FirePower(nodes, g, g1, u, b, e, n, c, p);
        grad := g1;
      case Rectify(a) =>
        var g1 := g[a := g[a] + (if nodes[a].data > 0.0 then 1.0 else 0.0) * g[u]];
        FireRectify(nodes, g, g1, u, a);
        grad := g1;
    }

    /** `topo.forEach((node) => (node.grad = 0.0))`: zero the listed nodes. */
    method ZeroGrads(a: array<nat>)
      requires Valid() && AllBelow(a[..], |nodes|)
      modifies this
      ensures Valid() && nodes == old(nodes)
      ensures grad == ZeroAll(old(grad), a[..])
    {
      ghost var order, g0 := a[..], grad;
      assert order[..0] == [];
      for t := 0 to a.Length
        invariant Valid() && nodes == old(nodes)
        invariant grad == ZeroAll(g0, order[..t])
      {
        ZeroAllStep(g0, order, t);
        grad := grad[a[t] := 0.0];
      }
      assert order[..a.Length] == order;
    }

    /** `topo.forEach((node) => node._backward())`: fire the listed nodes'
        backward rules in order. */
    method FireAll(a: array<nat>)
      requires Valid() && AllBelow(a[..], |nodes|)
      modifies this
      ensures Valid() && nodes == old(nodes)
      ensures grad == Propagate(Coeffs(nodes), old(grad), a[..])
    {
      ghost var order, S, L := a[..], grad, Coeffs(nodes);
      assert order[..0] == [];
      for t := 0 to a.Length
        invariant Valid() && nodes == old(nodes)
        invariant grad == Propagate(L, S, order[..t])
      {
        PropagateStep(L, S, order, t);
        RunBackward(a[t]);
      }
      assert order[..a.Length] == order;
    }

    /** `backpropagation()` from root: list the reachable nodes, reverse the
        list, zero their gradients, seed the root with 1 and fire every rule
        in the reversed order. Afterwards each reachable node holds the
        derivative of root with respect to it, as the adjoint recurrence
        defines it, and the root holds 1; nodes root cannot reach keep their
        gradients. */
    method Backpropagation(root: nat)
      requires Valid() && root < |nodes|
      modifies this
      ensures Valid() && nodes == old(nodes)
      ensures grad == BackpropGrads(nodes, old(grad), root)
      ensures forall v :: 0 <= v < |nodes| && v in Reach(nodes, root) ==> grad[v] == Adjoint(nodes, root, v)
      ensures forall v :: 0 <= v < |nodes| && v !in Reach(nodes, root) ==> grad[v] == old(grad)[v]
      ensures grad[root] == 1.0
    {
      var topo := Nodes(root);
      var a := new nat[|topo|](i requires 0 <= i < |topo| => topo[i]);
      assert a[..] == topo;
      Reverse(a);
      ghost var order := a[..];
      assert order == BackpropOrder(nodes, root);
      ghost var g0 := grad;
      ZeroGrads(a);
      grad := grad[root := 1.0];
      FireAll(a);
      BackpropSpec(nodes, g0, root);
    }
  }

  /** In the chain of adds that `ValueNode.sum` builds after the zero
      constant at m, the add at step j reaches every element added so far. */
  lemma {:induction false} SumChain(ns: seq<Node>, m: nat, xs: seq<nat>, j: nat)
    requires WellFormed(ns) && j < |xs| && m + 1 + |xs| <= |ns|
    requires forall t :: 0 <= t < |xs| ==> ns[m + 1 + t].op == Plus(m + t, xs[t])
    ensures forall t :: 0 <= t <= j ==> xs[t] in Reach(ns, m + 1 + j)
  {
    Operand(ns, m + 1 + j, xs[j]);
    if j > 0 {
      SumChain(ns, m, xs, j - 1);
      Operand(ns, m + 1 + j, m + j);
    }
  }

  /** The last add of that chain, at k, reaches every element. */
  lemma SumFeeds(ns: seq<Node>, m: nat, xs: seq<nat>, k: nat)
    requires WellFormed(ns) && k == m + |xs| && k < |ns|
    requires forall t :: 0 <= t < |xs| ==> ns[m + 1 + t].op == Plus(m + t, xs[t])
    ensures Feeds(ns, xs, k)
  {
    if xs != [] {
      SumChain(ns, m, xs, |xs| - 1);
    }
  }

  // The statement-by-statement rules of RunBackward have the effect Fire
  // describes. A node used as both operands gets both shares.

  lemma FireLeaf(ns: seq<Node>, g0: seq<real>, u: nat)
    requires WellFormed(ns) && |g0| == |ns| && u < |ns| && ns[u].op.Leaf?
    ensures g0 == Fire(Coeffs(ns), g0, u)
  {
    forall v | 0 <= v < |g0| ensures Fire(Coeffs(ns), g0, u)[v] == g0[v] {
      CoeffsAt(ns, u, v);
    }
  }

  lemma FirePlus(ns: seq<Node>, g0: seq<real>, g1: seq<real>, g: seq<real>, u: nat, l: nat, r: nat)
    requires WellFormed(ns) && |g0| == |ns| && u < |ns| && ns[u].op == Plus(l, r)
    requires LocalOk(ns, u)
    requires g1 == g0[l := g0[l] + 1.0 * g0[u]] && g == g1[r := g1[r] + 1.0 * g1[u]]
    ensures g == Fire(Coeffs(ns), g0, u)
  {
    assert LocalOk(ns, u);
    forall v | 0 <= v < |g0| ensures Fire(Coeffs(ns), g0, u)[v] == g[v] {
      CoeffsAt(ns, u, v);
    }
  }

  lemma FireTimes(ns: seq<Node>, g0: seq<real>, g1: seq<real>, g: seq<real>, u: nat, l: nat, r: nat,
                   x: real, y: real)
    requires WellFormed(ns) && |g0| == |ns| && u < |ns| && ns[u].op == Times(l, r)
    requires LocalOk(ns, u) && x == ns[l].data && y == ns[r].data
    requires g1 == g0[l := g0[l] + y * g0[u]] && g == g1[r := g1[r] + x * g1[u]]
    ensures g == Fire(Coeffs(ns), g0, u)
  {
    assert LocalOk(ns, u);
    forall v | 0 <= v < |g0| ensures Fire(Coeffs(ns), g0, u)[v] == g[v] {
      CoeffsAt(ns, u, v);
    }
  }

  lemma FirePower(ns: seq<Node>, g0: seq<real>, g: seq<real>, u: nat, b: nat, e: nat, n: int,
                   c: real, p: real)
    requires WellFormed(ns) && |g0| == |ns| && u < |ns| && ns[u].op == Power(b, e, n)
    requires LocalOk(ns, u) && c == ns[e].data && p == RPow(ns[b].data, n - 1)
    requires g == g0[b := g0[b] + c * p * g0[u]]
    ensures g == Fire(Coeffs(ns), g0, u)
  {
    forall v | 0 <= v < |g0| ensures Fire(Coeffs(ns), g0, u)[v] == g[v] {
      CoeffsAt(ns, u, v);
    }
  }

  lemma FireRectify(ns: seq<Node>, g0: seq<real>, g: seq<real>, u: nat, a: nat)
    requires WellFormed(ns) && |g0| == |ns| && u < |ns| && ns[u].op == Rectify(a)
    requires LocalOk(ns, u)
    requires g == g0[a := g0[a] + (if ns[a].data > 0.0 then 1.0 else 0.0) * g0[u]]
    ensures g == Fire(Coeffs(ns), g0, u)
  {
    assert LocalOk(ns, u);
    forall v | 0 <= v < |g0| ensures Fire(Coeffs(ns), g0, u)[v] == g[v] {
      CoeffsAt(ns, u, v);
    }
  }
}
