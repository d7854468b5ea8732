/** Node records of the computation graph, kept in an append-only arena.
    A node is referred to by its index in the arena; the operation tag replaces
    the backward closure each ValueNode carries. */
module Arena {

  /** The operation that produced a node. Operands are arena indices.
      `Power` keeps the index of the constant node that holds the exponent
      (its second operand) next to the exponent itself. */
  datatype Op =
    | Leaf
    | Plus(l: nat, r: nat)
    | Times(l: nat, r: nat)
    | Power(base: nat, expo: nat, n: int)
    | Rectify(a: nat)

  /** A node's value and how it was made; its gradient lives in a separate,
      mutable sequence of the graph. */
  datatype Node = Node(data: real, op: Op)

  /** The operands of an operation, in the order the node lists its children. */
  function Children(op: Op): (cs: seq<nat>)
    ensures |cs| <= 2
    ensures op.Leaf? <==> cs == []
  {
    match op
    case Leaf => []
    case Plus(l, r) => [l, r]
    case Times(l, r) => [l, r]
    case Power(b, e, _) => [b, e]
    case Rectify(a) => [a]
  }

  function Max(a: real, b: real): real
  {
    if a >= b then a else b
  }

  /** x raised to an integer power; a negative power needs a non-zero base. */
  function RPow(x: real, n: int): real
    requires n >= 0 || x != 0.0
    decreases if n >= 0 then n else -n
  {
    if n == 0 then 1.0
    else if n > 0 then x * RPow(x, n - 1)
    else RPow(x, n + 1) / x
  }

  /** Equal factors give equal products. */
  lemma MulCongr(a: real, b: real, c: real, d: real)
    requires a == c && b == d
    ensures a * b == c * d
  {
  }

  lemma RPowSquare(x: real)
    ensures RPow(x, 2) == x * x
  {
    assert RPow(x, 1) == x * RPow(x, 0);
  }

  lemma RPowInverse(x: real)
    requires x != 0.0
    ensures RPow(x, -1) == 1.0 / x
  {
  }

  /** The node at index k only refers to earlier nodes, and its value is its
      operation applied to its operands' values. A power node's exponent is a
      constant leaf holding n, and its base is non-zero whenever the derivative
      n * x^(n-1) would divide by it. */
  predicate LocalOk(ns: seq<Node>, k: nat)
    requires k < |ns|
  {
    match ns[k].op
    case Leaf => true
    case Plus(l, r) => l < k && r < k && ns[k].data == ns[l].data + ns[r].data
    case Times(l, r) => l < k && r < k && ns[k].data == ns[l].data * ns[r].data
    case Power(b, e, n) =>
      b < k && e < k && ns[e] == Node(n as real, Leaf)
      && (n >= 1 || ns[b].data != 0.0) && ns[k].data == RPow(ns[b].data, n)
    case Rectify(a) => a < k && ns[k].data == Max(0.0, ns[a].data)
  }

  predicate WellFormed(ns: seq<Node>)
  {
    forall k :: 0 <= k < |ns| ==> LocalOk(ns, k)
  }

  lemma ChildBelow(ns: seq<Node>, k: nat, c: nat)
    requires WellFormed(ns) && k < |ns| && c in Children(ns[k].op)
    ensures c < k
  {
    assert LocalOk(ns, k);
  }

  lemma LocalOkPrefix(ns: seq<Node>, ms: seq<Node>, k: nat)
    requires ns <= ms && k < |ns|
    ensures LocalOk(ns, k) <==> LocalOk(ms, k)
  {
    assert ns[k] == ms[k];
    match ns[k].op
    case Leaf =>
    case Plus(l, r) =>
      if l < k && r < k { assert ns[l] == ms[l] && ns[r] == ms[r]; }
    case Times(l, r) =>
      if l < k && r < k { assert ns[l] == ms[l] && ns[r] == ms[r]; }
    case Power(b, e, n) =>
      if b < k && e < k { assert ns[b] == ms[b] && ns[e] == ms[e]; }
    case Rectify(a) =>
      if a < k { assert ns[a] == ms[a]; }
  }

  /** Appending a node whose own conditions hold keeps the arena well formed. */
  lemma WellFormedSnoc(ns: seq<Node>, n: Node)
    requires WellFormed(ns) && LocalOk(ns + [n], |ns|)
    ensures WellFormed(ns + [n])
  {
    forall k | 0 <= k < |ns| + 1
      ensures LocalOk(ns + [n], k)
    {
      if k < |ns| {
        assert LocalOk(ns, k);
        LocalOkPrefix(ns, ns + [n], k);
      }
    }
  }

  /** Every prefix of a well-formed arena is well formed. */
  lemma WellFormedPrefix(ns: seq<Node>, ms: seq<Node>)
    requires WellFormed(ms) && ns <= ms
    ensures WellFormed(ns)
  {
    forall k | 0 <= k < |ns|
      ensures LocalOk(ns, k)
    {
      assert LocalOk(ms, k);
      LocalOkPrefix(ns, ms, k);
    }
  }

  /** Left fold of addition starting from 0, as in `reduce((acc, x) => acc + x, 0)`. */
  function Total(vs: seq<real>): real
  {
    if vs == [] then 0.0 else Total(vs[..|vs| - 1]) + vs[|vs| - 1]
  }

  lemma {:induction false} TotalNonNegative(vs: seq<real>)
    requires forall i :: 0 <= i < |vs| ==> vs[i] >= 0.0
    ensures Total(vs) >= 0.0
  {
    if vs != [] {
      TotalNonNegative(vs[..|vs| - 1]);
    }
  }

  /** A sum of non-negative terms is zero exactly when every term is zero. */
  lemma {:induction false} TotalZero(vs: seq<real>)
    requires forall i :: 0 <= i < |vs| ==> vs[i] >= 0.0
    ensures Total(vs) == 0.0 <==> forall i :: 0 <= i < |vs| ==> vs[i] == 0.0
  {
    if vs != [] {
      var init := vs[..|vs| - 1];
      TotalZero(init);
      TotalNonNegative(init);
      if Total(vs) == 0.0 {
        forall i | 0 <= i < |vs| ensures vs[i] == 0.0 {
          if i < |vs| - 1 { assert vs[i] == init[i]; }
        }
      } else {
        assert Total(init) != 0.0 || vs[|vs| - 1] != 0.0;
        if Total(init) != 0.0 {
          var j :| 0 <= j < |init| && init[j] != 0.0;
          assert vs[j] == init[j];
        }
      }
    }
  }

  /** The values of the nodes at the given indices. */
  function DataOf(ns: seq<Node>, idx: seq<nat>): (vs: seq<real>)
    requires forall i :: 0 <= i < |idx| ==> idx[i] < |ns|
    ensures |vs| == |idx|
    ensures forall i :: 0 <= i < |idx| ==> vs[i] == ns[idx[i]].data
  {
    seq(|idx|, i requires 0 <= i < |idx| => ns[idx[i]].data)
  }

  lemma DataOfPrefix(ns: seq<Node>, ms: seq<Node>, idx: seq<nat>)
    requires ns <= ms
    requires forall i :: 0 <= i < |idx| ==> idx[i] < |ns|
    ensures DataOf(ms, idx) == DataOf(ns, idx)
  {
    forall i | 0 <= i < |idx| ensures DataOf(ms, idx)[i] == DataOf(ns, idx)[i] {
      assert ns[idx[i]] == ms[idx[i]];
    }
  }

  /** Extending an arena keeps the values of the old indices; one more index
      contributes its own value. */
  lemma DataOfExtend(ns: seq<Node>, ms: seq<Node>, idx: seq<nat>, vs: seq<real>, k: nat, v: real)
    requires ns <= ms && AllBelow(idx, |ns|) && DataOf(ns, idx) == vs
    requires k < |ms| && ms[k].data == v
    ensures AllBelow(idx + [k], |ms|) && DataOf(ms, idx + [k]) == vs + [v]
  {
    DataOfPrefix(ns, ms, idx);
    var r := DataOf(ms, idx + [k]);
    assert forall i :: 0 <= i < |idx| ==> r[i] == vs[i];
  }

  /** Indices all point into an arena of the given size. */
  predicate AllBelow(idx: seq<nat>, n: nat)
  {
    forall i :: 0 <= i < |idx| ==> idx[i] < n
  }

  /** The graph (ns1, gr1) extends (ns0, gr0): old nodes and gradients are
      kept, and every new node starts with gradient 0. */
  ghost predicate Appended(ns0: seq<Node>, gr0: seq<real>, ns1: seq<Node>, gr1: seq<real>)
  {
    |gr0| == |ns0| && |gr1| == |ns1| && ns0 <= ns1 && gr0 <= gr1
    && forall i :: |gr0| <= i < |gr1| ==> gr1[i] == 0.0
  }

  lemma AppendedTrans(ns0: seq<Node>, gr0: seq<real>, ns1: seq<Node>, gr1: seq<real>,
                      ns2: seq<Node>, gr2: seq<real>)
    requires Appended(ns0, gr0, ns1, gr1) && Appended(ns1, gr1, ns2, gr2)
    ensures Appended(ns0, gr0, ns2, gr2)
  {
    forall i | |gr0| <= i < |gr2| ensures gr2[i] == 0.0 {
      if i < |gr1| { assert gr2[i] == gr1[i]; }
    }
  }
}
