/** Small graphs built with the Graph operations and differentiated with
    `backpropagation()`: the gradients each backward rule promises. */
module Cases {
  import opened Arena
  import opened Topo
  import opened Backprop
  import opened Engine

  /** d = a*b + a*c: a is used twice, and its gradient collects both shares. */
  method Diamond(a: real, b: real, c: real) returns (ga: real, gb: real, gc: real)
    ensures ga == b + c && gb == a && gc == a
  {
    var g := new Graph();
    var ia := g.Const(a);
    var ib := g.Const(b);
    var ic := g.Const(c);
    var ab := g.Mul(ia, ib);
    assert g.nodes[ab].data == a * b;
    var ac := g.Mul(ia, ic);
    assert g.nodes[ac].data == a * c;
    var d := g.Add(ab, ac);
    assert |g.nodes| == 6 && g.nodes[..3] == [Node(a, Leaf), Node(b, Leaf), Node(c, Leaf)];
    assert g.nodes[3] == Node(a * b, Times(0, 1)) && g.nodes[4] == Node(a * c, Times(0, 2));
    assert g.nodes[5] == Node(a * b + a * c, Plus(3, 4));
    DiamondAdjoints(g.nodes, a, b, c);
    g.Backpropagation(d);
    ga, gb, gc := g.grad[ia], g.grad[ib], g.grad[ic];
  }

  /** The arena of d = a*b + a*c as the operations lay it out. */
  predicate IsDiamond(ns: seq<Node>, a: real, b: real, c: real)
  {
    |ns| == 6 && ns[..3] == [Node(a, Leaf), Node(b, Leaf), Node(c, Leaf)]
    && ns[3] == Node(a * b, Times(0, 1)) && ns[4] == Node(a * c, Times(0, 2))
    && ns[5] == Node(a * b + a * c, Plus(3, 4))
  }

  /** The diamond is well formed and its root reaches every node. */
  lemma DiamondShape(ns: seq<Node>, a: real, b: real, c: real)
    requires IsDiamond(ns, a, b, c)
    ensures WellFormed(ns) && Reach(ns, 5) == {0, 1, 2, 3, 4, 5}
  {
    assert ns[0] == Node(a, Leaf) && ns[1] == Node(b, Leaf) && ns[2] == Node(c, Leaf);
    assert WellFormed(ns) by {
      forall k | 0 <= k < 6 ensures LocalOk(ns, k) { }
    }
    assert Reach(ns, 0) == {0} && Reach(ns, 1) == {1} && Reach(ns, 2) == {2};
    assert Reach(ns, 3) == {0, 1, 3} by { assert ReachAll(ns, 3, [0, 1]) == ReachAll(ns, 3, [0]) + Reach(ns, 1); }
    assert Reach(ns, 4) == {0, 2, 4} by { assert ReachAll(ns, 4, [0, 2]) == ReachAll(ns, 4, [0]) + Reach(ns, 2); }
    assert ReachAll(ns, 5, [3, 4]) == ReachAll(ns, 5, [3]) + Reach(ns, 4);
  }

  /** Both products feed the root's add directly, so each gets its gradient, 1. */
  lemma DiamondProducts(ns: seq<Node>, a: real, b: real, c: real)
    requires IsDiamond(ns, a, b, c)
    requires WellFormed(ns) && Reach(ns, 5) == {0, 1, 2, 3, 4, 5}
    ensures Adjoint(ns, 5, 4) == 1.0 && Adjoint(ns, 5, 3) == 1.0
  {
    var L := Coeffs(ns);
    AdjointRoot(ns, 5);
    assert Adjoint(ns, 5, 4) == 1.0 by {
      CoeffsAt(ns, 5, 4);
      assert AdjSum(ns, 5, 4, 5) == L(5, 4) * Adjoint(ns, 5, 5);
    }
    CoeffsAt(ns, 5, 3);
    CoeffsAt(ns, 4, 3);
    assert AdjSum(ns, 5, 3, 5) == L(5, 3) * Adjoint(ns, 5, 5);
  }

  lemma DiamondAdjoints(ns: seq<Node>, a: real, b: real, c: real)
    requires IsDiamond(ns, a, b, c)
    ensures WellFormed(ns) && {0, 1, 2} <= Reach(ns, 5)
    ensures Adjoint(ns, 5, 0) == b + c && Adjoint(ns, 5, 1) == a && Adjoint(ns, 5, 2) == a
  {
    DiamondShape(ns, a, b, c);
    DiamondProducts(ns, a, b, c);
    DiamondRight(ns, a, b, c);
    DiamondLeft(ns, a, b, c);
  }

  /** b and c each feed one product, whose other operand is a. */
  lemma DiamondRight(ns: seq<Node>, a: real, b: real, c: real)
    requires IsDiamond(ns, a, b, c)
    requires WellFormed(ns) && Reach(ns, 5) == {0, 1, 2, 3, 4, 5}
    requires Adjoint(ns, 5, 4) == 1.0 && Adjoint(ns, 5, 3) == 1.0
    ensures Adjoint(ns, 5, 2) == a && Adjoint(ns, 5, 1) == a
  {
    var L := Coeffs(ns);
    assert Adjoint(ns, 5, 2) == a by {
      CoeffsAt(ns, 3, 2);
      CoeffsAt(ns, 4, 2);
      CoeffsAt(ns, 5, 2);
      MulCongr(L(4, 2), Adjoint(ns, 5, 4), a, 1.0);
      assert AdjSum(ns, 5, 2, 5) == 0.0;
      assert AdjSum(ns, 5, 2, 4) == a;
      assert AdjSum(ns, 5, 2, 3) == a;
    }
    CoeffsAt(ns, 2, 1);
    CoeffsAt(ns, 3, 1);
    CoeffsAt(ns, 4, 1);
    CoeffsAt(ns, 5, 1);
    MulCongr(L(3, 1), Adjoint(ns, 5, 3), a, 1.0);
    assert AdjSum(ns, 5, 1, 5) == 0.0;
    assert AdjSum(ns, 5, 1, 4) == 0.0;
    assert AdjSum(ns, 5, 1, 3) == a;
    assert AdjSum(ns, 5, 1, 2) == a;
  }

  /** a feeds both products, so its adjoint collects b from one and c from the other. */
  lemma DiamondLeft(ns: seq<Node>, a: real, b: real, c: real)
    requires IsDiamond(ns, a, b, c)
    requires WellFormed(ns) && Reach(ns, 5) == {0, 1, 2, 3, 4, 5}
    requires Adjoint(ns, 5, 4) == 1.0 && Adjoint(ns, 5, 3) == 1.0
    ensures Adjoint(ns, 5, 0) == b + c
  {
    var L := Coeffs(ns);
    CoeffsAt(ns, 1, 0);
    CoeffsAt(ns, 2, 0);
    CoeffsAt(ns, 3, 0);
    CoeffsAt(ns, 4, 0);
    CoeffsAt(ns, 5, 0);
    MulCongr(L(3, 0), Adjoint(ns, 5, 3), b, 1.0);
    MulCongr(L(4, 0), Adjoint(ns, 5, 4), c, 1.0);
    assert AdjSum(ns, 5, 0, 5) == 0.0;
    assert AdjSum(ns, 5, 0, 4) == c;
    assert AdjSum(ns, 5, 0, 3) == b + c;
    assert AdjSum(ns, 5, 0, 2) == b + c;
    assert AdjSum(ns, 5, 0, 1) == b + c;
  }

  /** s = a + b with two distinct operands: each gets the output's gradient, 1. */
  method Addition(a: real, b: real) returns (ga: real, gb: real)
    ensures ga == 1.0 && gb == 1.0
  {
    var g := new Graph();
    var ia := g.Const(a);
    var ib := g.Const(b);
    var s := g.Add(ia, ib);
    SumAdjoints(g.nodes, a, b);
    g.Backpropagation(s);
    ga, gb := g.grad[ia], g.grad[ib];
  }

  lemma SumAdjoints(ns: seq<Node>, a: real, b: real)
    requires ns == [Node(a, Leaf), Node(b, Leaf), Node(a + b, Plus(0, 1))]
    ensures WellFormed(ns) && {0, 1} <= Reach(ns, 2)
    ensures Adjoint(ns, 2, 0) == 1.0 && Adjoint(ns, 2, 1) == 1.0
  {
    assert WellFormed(ns) by {
      forall k | 0 <= k < 3 ensures LocalOk(ns, k) { }
    }
    assert Reach(ns, 2) == {0, 1, 2} by { assert ReachAll(ns, 2, [0, 1]) == ReachAll(ns, 2, [0]) + Reach(ns, 1); }
    AdjointRoot(ns, 2);
    CoeffsAt(ns, 1, 0);
    CoeffsAt(ns, 2, 0);
    CoeffsAt(ns, 2, 1);
    assert AdjSum(ns, 2, 0, 2) == Coeffs(ns)(2, 0) * Adjoint(ns, 2, 2);
    assert AdjSum(ns, 2, 1, 2) == Coeffs(ns)(2, 1) * Adjoint(ns, 2, 2);
  }

  /** s = a + a: the add rule runs twice on a, so a's gradient is 2, not 1. */
  method AddTwice(a: real) returns (ga: real)
    ensures ga == 2.0
  {
    var g := new Graph();
    var ia := g.Const(a);
    var s := g.Add(ia, ia);
    SelfSumAdjoint(g.nodes, a);
    g.Backpropagation(s);
    ga := g.grad[ia];
  }

  lemma SelfSumAdjoint(ns: seq<Node>, a: real)
    requires ns == [Node(a, Leaf), Node(a + a, Plus(0, 0))]
    ensures WellFormed(ns) && 0 in Reach(ns, 1) && Adjoint(ns, 1, 0) == 2.0
  {
    assert WellFormed(ns) by {
      forall k | 0 <= k < 2 ensures LocalOk(ns, k) { }
    }
    assert Reach(ns, 1) == {0, 1} by { assert ReachAll(ns, 1, [0, 0]) == ReachAll(ns, 1, [0]) + Reach(ns, 0); }
    AdjointRoot(ns, 1);
    CoeffsAt(ns, 1, 0);
    assert AdjSum(ns, 1, 0, 1) == Coeffs(ns)(1, 0) * Adjoint(ns, 1, 1);
  }

  /** c = a * b: dc/da = b and dc/db = a. */
  method Product(a: real, b: real) returns (ga: real, gb: real)
    ensures ga == b && gb == a
  {
    var g := new Graph();
    var ia := g.Const(a);
    var ib := g.Const(b);
    var c := g.Mul(ia, ib);
    assert g.nodes[c].data == a * b;
    ProductAdjoints(g.nodes, a, b);
    g.Backpropagation(c);
    ga, gb := g.grad[ia], g.grad[ib];
  }

  lemma ProductAdjoints(ns: seq<Node>, a: real, b: real)
    requires |ns| == 3 && ns[0] == Node(a, Leaf) && ns[1] == Node(b, Leaf)
    requires ns[2] == Node(a * b, Times(0, 1))
    ensures WellFormed(ns) && {0, 1} <= Reach(ns, 2)
    ensures Adjoint(ns, 2, 0) == b && Adjoint(ns, 2, 1) == a
  {
    assert WellFormed(ns) by {
      forall k | 0 <= k < 3 ensures LocalOk(ns, k) { }
    }
    assert Reach(ns, 2) == {0, 1, 2} by { assert ReachAll(ns, 2, [0, 1]) == ReachAll(ns, 2, [0]) + Reach(ns, 1); }
    var L := Coeffs(ns);
    AdjointRoot(ns, 2);
    CoeffsAt(ns, 1, 0);
    CoeffsAt(ns, 2, 0);
    CoeffsAt(ns, 2, 1);
    MulCongr(L(2, 0), Adjoint(ns, 2, 2), b, 1.0);
    MulCongr(L(2, 1), Adjoint(ns, 2, 2), a, 1.0);
    assert AdjSum(ns, 2, 0, 2) == b;
    assert AdjSum(ns, 2, 1, 2) == a;
  }

  /** r = relu(a): the gradient passes through only when a > 0; at a = 0 it is 0. */
  method Rectifier(a: real) returns (ga: real)
    ensures ga == if a > 0.0 then 1.0 else 0.0
  {
    var g := new Graph();
    var ia := g.Const(a);
    var r := g.Relu(ia);
    RectifierAdjoint(g.nodes, a);
    g.Backpropagation(r);
    ga := g.grad[ia];
  }

  lemma RectifierAdjoint(ns: seq<Node>, a: real)
    requires ns == [Node(a, Leaf), Node(Max(0.0, a), Rectify(0))]
    ensures WellFormed(ns) && 0 in Reach(ns, 1)
    ensures Adjoint(ns, 1, 0) == if a > 0.0 then 1.0 else 0.0
  {
    assert WellFormed(ns) by {
      forall k | 0 <= k < 2 ensures LocalOk(ns, k) { }
    }
    assert Reach(ns, 1) == {0, 1} by { assert ReachAll(ns, 1, [0]) == ReachAll(ns, 1, []) + Reach(ns, 0); }
    AdjointRoot(ns, 1);
    CoeffsAt(ns, 1, 0);
    assert AdjSum(ns, 1, 0, 1) == Coeffs(ns)(1, 0) * Adjoint(ns, 1, 1);
  }

  /** p = a^n: dp/da = n * a^(n-1), and the exponent's constant node gets nothing. */
  method Raise(a: real, n: int) returns (ga: real, ge: real)
    requires n >= 1 || a != 0.0
    ensures ga == (n as real) * RPow(a, n - 1) && ge == 0.0
  {
    var g := new Graph();
    var ia := g.Const(a);
    var p := g.Pow(ia, n);
    PowerAdjoints(g.nodes, a, n);
    g.Backpropagation(p);
    ga, ge := g.grad[ia], g.grad[p - 1];
  }

  lemma PowerAdjoints(ns: seq<Node>, a: real, n: int)
    requires n >= 1 || a != 0.0
    requires ns == [Node(a, Leaf), Node(n as real, Leaf), Node(RPow(a, n), Power(0, 1, n))]
    ensures WellFormed(ns) && {0, 1} <= Reach(ns, 2)
    ensures Adjoint(ns, 2, 0) == (n as real) * RPow(a, n - 1) && Adjoint(ns, 2, 1) == 0.0
  {
    assert WellFormed(ns) by {
      forall k | 0 <= k < 3 ensures LocalOk(ns, k) { }
    }
    assert Reach(ns, 2) == {0, 1, 2} by { assert ReachAll(ns, 2, [0, 1]) == ReachAll(ns, 2, [0]) + Reach(ns, 1); }
    var L := Coeffs(ns);
    AdjointRoot(ns, 2);
    CoeffsAt(ns, 1, 0);
    CoeffsAt(ns, 2, 0);
    CoeffsAt(ns, 2, 1);
    var d := (n as real) * RPow(a, n - 1);
    MulCongr(L(2, 0), Adjoint(ns, 2, 2), d, 1.0);
    assert AdjSum(ns, 2, 0, 2) == d;
    assert AdjSum(ns, 2, 1, 2) == 0.0;
  }
}
