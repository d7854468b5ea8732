/** Gradient propagation over the arena: the backward rule of each operation,
    the pass `backpropagation()` makes, and the reference it is proved against,
    the adjoint recurrence of reverse-mode differentiation taken in index order:

      adj(root) = 1,   adj(v) = sum over reachable consumers u of  d u / d v * adj(u).

    The pass processes nodes in reversed depth-first post-order, not in index
    order; BackpropIsAdjoint shows the two agree on every reachable node. */
module Backprop {
  import opened Arena
  import opened Topo
  import opened Accumulate

  /** d u / d v: the factor by which u's backward rule scales u's gradient
      into v's gradient. A node used twice as an operand gets both shares. */
  function Local(ns: seq<Node>, u: nat, v: nat): real
    requires WellFormed(ns) && u < |ns|
  {
    assert LocalOk(ns, u);
    match ns[u].op
    case Leaf => 0.0
    case Plus(l, r) => (if l == v then 1.0 else 0.0) + (if r == v then 1.0 else 0.0)
    case Times(l, r) => (if l == v then ns[r].data else 0.0) + (if r == v then ns[l].data else 0.0)
    case Power(b, _, n) => if b == v then (n as real) * RPow(ns[b].data, n - 1) else 0.0
    case Rectify(a) => if a == v && ns[a].data > 0.0 then 1.0 else 0.0
  }

  /** Only operands receive gradient from a node. */
  lemma LocalOnlyChildren(ns: seq<Node>, u: nat, v: nat)
    requires WellFormed(ns) && u < |ns|
    requires v !in Children(ns[u].op)
    ensures Local(ns, u, v) == 0.0
  {
  }

  /** The coefficients of the arena: what Fire and Propagate apply. */
  function Coeffs(ns: seq<Node>): Coeff
    requires WellFormed(ns)
  {
    (u: nat, v: nat) => if u < |ns| then Local(ns, u, v) else 0.0
  }

  lemma CoeffsAt(ns: seq<Node>, u: nat, v: nat)
    requires WellFormed(ns) && u < |ns|
    ensures Coeffs(ns)(u, v) == Local(ns, u, v)
  {
  }

  /** `forEach(node => node.grad = 0)` over us. */
  function ZeroAll(gr: seq<real>, us: seq<nat>): (r: seq<real>)
    requires AllBelow(us, |gr|)
    ensures |r| == |gr|
  {
    if us == [] then gr
    else ZeroAll(gr, us[..|us| - 1])[us[|us| - 1] := 0.0]
  }

  /** Zeroing clears exactly the listed nodes. */
  lemma {:induction false} ZeroAllAt(gr: seq<real>, us: seq<nat>, v: nat)
    requires AllBelow(us, |gr|) && v < |gr|
    ensures ZeroAll(gr, us)[v] == if v in us then 0.0 else gr[v]
  {
    if us != [] {
      var init := us[..|us| - 1];
      ZeroAllAt(gr, init, v);
      assert us == init + [us[|us| - 1]];
    }
  }

  lemma ZeroAllStep(gr: seq<real>, us: seq<nat>, t: nat)
    requires AllBelow(us, |gr|) && t < |us|
    ensures ZeroAll(gr, us[..t + 1]) == ZeroAll(gr, us[..t])[us[t] := 0.0]
  {
    var p := us[..t + 1];
    assert p[..|p| - 1] == us[..t];
  }

  function Reversed(s: seq<nat>): (r: seq<nat>)
    ensures |r| == |s|
    ensures forall i :: 0 <= i < |s| ==> r[i] == s[|s| - 1 - i]
  {
    seq(|s|, i requires 0 <= i < |s| => s[|s| - 1 - i])
  }

  /** The order in which `backpropagation()` fires the backward rules. */
  function BackpropOrder(ns: seq<Node>, root: nat): (r: seq<nat>)
    requires WellFormed(ns) && root < |ns|
    ensures AllBelow(r, |ns|)
  {
    TopoSpec(ns, root);
    Reversed(PostOrder(ns, root))
  }

  /** The gradients after `backpropagation()` from root: zero every node of
      the order, seed the root with 1, fire the rules in the order. */
  function BackpropGrads(ns: seq<Node>, gr: seq<real>, root: nat): (r: seq<real>)
    requires WellFormed(ns) && |gr| == |ns| && root < |ns|
    ensures |r| == |gr|
  {
    var order := BackpropOrder(ns, root);
    Propagate(Coeffs(ns), ZeroAll(gr, order)[root := 1.0], order)
  }

  /** Every consumer of a node fires before it. */
  predicate ConsumersFirst(ns: seq<Node>, order: seq<nat>)
    requires WellFormed(ns) && AllBelow(order, |ns|)
  {
    forall i, j :: 0 <= i <= j < |order| ==> order[i] !in Children(ns[order[j]].op)
  }

  /** The backward rules fire consumers first, over exactly the reachable
      nodes, each once, starting at the root. */
  lemma BackpropOrderSpec(ns: seq<Node>, root: nat)
    requires WellFormed(ns) && root < |ns|
    ensures var order := BackpropOrder(ns, root);
      ConsumersFirst(ns, order) && NoDup(order) && Elems(order) == Reach(ns, root)
      && order[0] == root
  {
    var t := PostOrder(ns, root);
    TopoSpec(ns, root);
    ReversedConsumersFirst(ns, t);
    ReversedKeepsElems(t);
  }

  /** Reversing a list that has operands first puts consumers first. */
  lemma ReversedConsumersFirst(ns: seq<Node>, t: seq<nat>)
    requires WellFormed(ns) && NoDup(t) && ChildrenBefore(ns, t)
    ensures AllBelow(Reversed(t), |ns|) && ConsumersFirst(ns, Reversed(t))
  {
    var order := Reversed(t);
    var n := |t|;
    forall i, j | 0 <= i <= j < n ensures order[i] !in Children(ns[order[j]].op) {
      var q := n - 1 - j;
      assert order[j] == t[q];
      assert ChildrenIn(ns, t[q], t[..q]);
    }
  }

  lemma ReversedKeepsElems(t: seq<nat>)
    requires NoDup(t)
    ensures NoDup(Reversed(t)) && Elems(Reversed(t)) == Elems(t)
  {
    var order := Reversed(t);
    var n := |t|;
    forall i, j | 0 <= i < j < n ensures order[i] != order[j] {
      assert t[n - 1 - j] != t[n - 1 - i];
    }
    forall x ensures x in Elems(order) <==> x in Elems(t) {
      if x in t {
        var p :| 0 <= p < n && t[p] == x;
        assert order[n - 1 - p] == x;
      }
    }
  }

  /** A consumers-first order is settled for the arena's coefficients. */
  lemma ConsumersFirstSettled(ns: seq<Node>, order: seq<nat>)
    requires WellFormed(ns) && AllBelow(order, |ns|) && ConsumersFirst(ns, order)
    ensures Settled(Coeffs(ns), order)
  {
    forall i, j | 0 <= i <= j < |order| ensures Coeffs(ns)(order[j], order[i]) == 0.0 {
      CoeffsAt(ns, order[j], order[i]);
      LocalOnlyChildren(ns, order[j], order[i]);
    }
  }

  /** The reference: reverse accumulation in decreasing index order. */
  function Adjoint(ns: seq<Node>, root: nat, v: nat): real
    requires WellFormed(ns) && root < |ns| && v < |ns|
    decreases |ns| - v, 0
  {
    (if v == root then 1.0 else 0.0) + AdjSum(ns, root, v, v + 1)
  }

  /** Sum of d u / d v * Adjoint(u) over reachable u in [lo, |ns|). */
  function AdjSum(ns: seq<Node>, root: nat, v: nat, lo: nat): real
    requires WellFormed(ns) && root < |ns| && v < lo <= |ns|
    decreases |ns| - lo, 1
  {
    if lo == |ns| then 0.0
    else
      (if lo in Reach(ns, root) then Coeffs(ns)(lo, v) * Adjoint(ns, root, lo) else 0.0)
      + AdjSum(ns, root, v, lo + 1)
  }

  /** F meets the adjoint equations on every node reachable from root. */
  predicate AdjointEquations(ns: seq<Node>, root: nat, F: seq<real>)
    requires WellFormed(ns) && root < |ns| && |F| == |ns|
  {
    forall w :: 0 <= w < |ns| && w in Reach(ns, root) ==> AdjointEquationAt(ns, root, F, w)
  }

  predicate AdjointEquationAt(ns: seq<Node>, root: nat, F: seq<real>, w: nat)
    requires WellFormed(ns) && root < |ns| && |F| == |ns| && w < |ns|
  {
    F[w] == (if w == root then 1.0 else 0.0) + RangeSum(Coeffs(ns), F, Reach(ns, root), w, w + 1, |ns|)
  }

  /** The adjoint equations have one solution on the reachable nodes. */
  lemma {:induction false} AdjointUnique(ns: seq<Node>, root: nat, F: seq<real>, v: nat)
    requires WellFormed(ns) && root < |ns| && |F| == |ns| && v < |ns|
    requires AdjointEquations(ns, root, F) && v in Reach(ns, root)
    ensures F[v] == Adjoint(ns, root, v)
    decreases |ns| - v, 0
  {
    assert AdjointEquationAt(ns, root, F, v);
    SumsAgree(ns, root, F, v, v + 1);
  }

  lemma {:induction false} SumsAgree(ns: seq<Node>, root: nat, F: seq<real>, v: nat, lo: nat)
    requires WellFormed(ns) && root < |ns| && |F| == |ns| && v < lo <= |ns|
    requires AdjointEquations(ns, root, F)
    ensures RangeSum(Coeffs(ns), F, Reach(ns, root), v, lo, |ns|) == AdjSum(ns, root, v, lo)
    decreases |ns| - lo, 1
  {
    if lo < |ns| {
      SumsAgree(ns, root, F, v, lo + 1);
      if lo in Reach(ns, root) {
        AdjointUnique(ns, root, F, lo);
      }
      SumsStep(ns, root, F, v, lo);
    }
  }

  /** One term of the two sums: equal when F agrees with Adjoint at lo. */
  lemma SumsStep(ns: seq<Node>, root: nat, F: seq<real>, v: nat, lo: nat)
    requires WellFormed(ns) && root < |ns| && |F| == |ns| && v < lo < |ns|
    requires lo in Reach(ns, root) ==> F[lo] == Adjoint(ns, root, lo)
    requires RangeSum(Coeffs(ns), F, Reach(ns, root), v, lo + 1, |ns|) == AdjSum(ns, root, v, lo + 1)
    ensures RangeSum(Coeffs(ns), F, Reach(ns, root), v, lo, |ns|) == AdjSum(ns, root, v, lo)
  {
    AdjSumHead(ns, root, v, lo);
    RangeSumMatch(Coeffs(ns), F, Reach(ns, root), v, lo, |ns|,
                  Adjoint(ns, root, lo), AdjSum(ns, root, v, lo + 1), AdjSum(ns, root, v, lo));
  }

  lemma AdjSumHead(ns: seq<Node>, root: nat, v: nat, lo: nat)
    requires WellFormed(ns) && root < |ns| && v < lo < |ns|
    ensures AdjSum(ns, root, v, lo)
         == (if lo in Reach(ns, root) then Coeffs(ns)(lo, v) * Adjoint(ns, root, lo) else 0.0)
            + AdjSum(ns, root, v, lo + 1)
  {
  }

  /** No reachable node lies above the root, so the root's adjoint is its seed. */
  lemma AdjointRoot(ns: seq<Node>, root: nat)
    requires WellFormed(ns) && root < |ns|
    ensures Adjoint(ns, root, root) == 1.0
  {
    ReachBelow(ns, root);
    AdjSumAbove(ns, root, root, root + 1);
  }

  lemma {:induction false} AdjSumAbove(ns: seq<Node>, root: nat, v: nat, lo: nat)
    requires WellFormed(ns) && root < |ns| && v < lo <= |ns|
    requires forall x :: x in Reach(ns, root) ==> x < lo
    ensures AdjSum(ns, root, v, lo) == 0.0
    decreases |ns| - lo
  {
    if lo < |ns| {
      AdjSumAbove(ns, root, v, lo + 1);
    }
  }

  /** After the pass, every node reachable from the root holds d root / d v
      as the adjoint recurrence defines it, whatever it held before. */
  lemma BackpropIsAdjoint(ns: seq<Node>, gr: seq<real>, root: nat, v: nat)
    requires WellFormed(ns) && |gr| == |ns| && root < |ns| && v < |ns|
    requires v in Reach(ns, root)
    ensures BackpropGrads(ns, gr, root)[v] == Adjoint(ns, root, v)
  {
    var order := BackpropOrder(ns, root);
    BackpropOrderSpec(ns, root);
    ConsumersFirstSettled(ns, order);
    var L := Coeffs(ns);
    var S := ZeroAll(gr, order)[root := 1.0];
    var F := Propagate(L, S, order);
    var E := Reach(ns, root);
    forall w | 0 <= w < |ns| && w in E
      ensures AdjointEquationAt(ns, root, F, w)
    {
      FinalEquation(L, S, order, w);
      FinalSumAsRange(L, F, order, w);
      forall u | 0 <= u < w + 1 ensures L(u, w) == 0.0 {
        ChildrenOk(ns, u);
        CoeffsAt(ns, u, w);
        LocalOnlyChildren(ns, u, w);
      }
      RangeSumSkip(L, F, E, w, 0, w + 1);
      ZeroAllAt(gr, order, w);
      assert w in Elems(order);
    }
    AdjointUnique(ns, root, F, v);
  }

  /** The pass leaves the gradient of every node it cannot reach untouched. */
  lemma BackpropUnreachable(ns: seq<Node>, gr: seq<real>, root: nat, v: nat)
    requires WellFormed(ns) && |gr| == |ns| && root < |ns| && v < |ns|
    requires v !in Reach(ns, root)
    ensures BackpropGrads(ns, gr, root)[v] == gr[v]
  {
    var order := BackpropOrder(ns, root);
    BackpropOrderSpec(ns, root);
    var L := Coeffs(ns);
    var S := ZeroAll(gr, order)[root := 1.0];
    forall j | 0 <= j < |order| ensures L(order[j], v) == 0.0 {
      assert order[j] in Elems(order);
      CoeffsAt(ns, order[j], v);
      if v in Children(ns[order[j]].op) {
        ChildReachable(ns, root, order[j], v);
      }
    }
    PropagateKeeps(L, S, order, 0, v);
    assert order[..0] == [];
    ZeroAllAt(gr, order, v);
    assert v !in Elems(order);
    assert root in Reach(ns, root);
  }

  /** What the pass guarantees, for every node at once: reachable nodes hold
      their adjoints, the root holds 1, and the others are untouched. */
  lemma BackpropSpec(ns: seq<Node>, gr: seq<real>, root: nat)
    requires WellFormed(ns) && |gr| == |ns| && root < |ns|
    ensures var g := BackpropGrads(ns, gr, root);
      && (forall v :: 0 <= v < |ns| && v in Reach(ns, root) ==> g[v] == Adjoint(ns, root, v))
      && (forall v :: 0 <= v < |ns| && v !in Reach(ns, root) ==> g[v] == gr[v])
      && g[root] == 1.0
  {
    forall v | 0 <= v < |ns| && v in Reach(ns, root)
      ensures BackpropGrads(ns, gr, root)[v] == Adjoint(ns, root, v)
    {
      BackpropIsAdjoint(ns, gr, root, v);
    }
    forall v | 0 <= v < |ns| && v !in Reach(ns, root)
      ensures BackpropGrads(ns, gr, root)[v] == gr[v]
    {
      BackpropUnreachable(ns, gr, root, v);
    }
    assert root in Reach(ns, root);
    AdjointRoot(ns, root);
    BackpropIsAdjoint(ns, gr, root, root);
  }
}
