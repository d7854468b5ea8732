/** Gradient accumulation, independent of what the operations are. A
    coefficient function L gives, for a node u and a node v, the factor
    L(u, v) by which firing u's backward rule scales u's gradient into v's.
    Firing rules in an order where no rule later feeds a node that has already
    fired leaves every node with its seed plus what its consumers pass on from
    their final gradients. */
module Accumulate {
  import opened Arena
  import opened Topo

  type Coeff = (nat, nat) -> real

  /** Fire u's backward rule: every v gains L(u, v) times u's gradient. */
  function Fire(L: Coeff, gr: seq<real>, u: nat): (r: seq<real>)
    requires u < |gr|
    ensures |r| == |gr|
  {
    seq(|gr|, v requires 0 <= v < |gr| => gr[v] + L(u, v) * gr[u])
  }

  /** Backward rules of us fired in order. */
  function Propagate(L: Coeff, gr: seq<real>, us: seq<nat>): (r: seq<real>)
    requires AllBelow(us, |gr|)
    ensures |r| == |gr|
  {
    if us == [] then gr
    else Fire(L, Propagate(L, gr, us[..|us| - 1]), us[|us| - 1])
  }

  /** Firing the (k+1)-th rule is one more Fire on the gradients so far. */
  lemma PropagateStep(L: Coeff, gr: seq<real>, us: seq<nat>, k: nat)
    requires AllBelow(us, |gr|) && k < |us|
    ensures Propagate(L, gr, us[..k + 1]) == Fire(L, Propagate(L, gr, us[..k]), us[k])
  {
    var p := us[..k + 1];
    assert p[..|p| - 1] == us[..k];
    assert p[|p| - 1] == us[k];
  }

  lemma FireAt(L: Coeff, gr: seq<real>, u: nat, v: nat)
    requires u < |gr| && v < |gr|
    ensures Fire(L, gr, u)[v] == gr[v] + L(u, v) * gr[u]
  {
  }

  /** Firing rules that give v nothing leaves v's gradient where it was. */
  lemma {:induction false} PropagateKeeps(L: Coeff, gr: seq<real>, us: seq<nat>, k: nat, v: nat)
    requires AllBelow(us, |gr|) && k <= |us| && v < |gr|
    requires forall j :: k <= j < |us| ==> L(us[j], v) == 0.0
    ensures Propagate(L, gr, us)[v] == Propagate(L, gr, us[..k])[v]
    decreases |us|
  {
    if |us| > k {
      var init := us[..|us| - 1];
      assert init[..k] == us[..k];
      PropagateKeeps(L, gr, init, k, v);
    } else {
      assert us[..k] == us;
    }
  }

  /** Sum over the fired nodes u of L(u, v) times u's gradient F[u]. */
  function FinalSum(L: Coeff, F: seq<real>, us: seq<nat>, v: nat): real
    requires AllBelow(us, |F|)
  {
    if us == [] then 0.0
    else FinalSum(L, F, us[..|us| - 1], v) + L(us[|us| - 1], v) * F[us[|us| - 1]]
  }

  /** One more consumer adds its share; w is that consumer's final gradient. */
  lemma FinalSumStep(L: Coeff, F: seq<real>, us: seq<nat>, k: nat, u: nat, w: real, v: nat)
    requires AllBelow(us, |F|) && k < |us| && u == us[k] && w == F[u]
    ensures FinalSum(L, F, us[..k + 1], v) == FinalSum(L, F, us[..k], v) + L(u, v) * w
  {
    var p := us[..k + 1];
    assert p[..|p| - 1] == us[..k];
    assert p[|p| - 1] == u;
  }

  /** No rule feeds a node that fired at or before it. */
  predicate Settled(L: Coeff, order: seq<nat>)
  {
    forall i, j :: 0 <= i <= j < |order| ==> L(order[j], order[i]) == 0.0
  }

  /** In a settled order no rule from position j onwards feeds the node at j. */
  lemma SettledFrom(L: Coeff, order: seq<nat>, j: nat)
    requires Settled(L, order) && j < |order|
    ensures forall i :: j <= i < |order| ==> L(order[i], order[j]) == 0.0
  {
  }

  /** In a settled order each node's gradient is final when its rule fires,
      so after the first k rules v holds its seed plus what those k rules
      pass on from their final gradients. */
  lemma {:induction false} PrefixEquation(L: Coeff, S: seq<real>, order: seq<nat>, k: nat, v: nat)
    requires AllBelow(order, |S|) && k <= |order| && v < |S|
    requires Settled(L, order)
    ensures Propagate(L, S, order[..k])[v]
         == S[v] + FinalSum(L, Propagate(L, S, order), order[..k], v)
  {
    if k > 0 {
      PrefixEquation(L, S, order, k - 1, v);
      PrefixStep(L, S, order, k - 1, v);
    } else {
      assert order[..0] == [];
    }
  }

  /** The equation after j rules gives the equation after j + 1: the rule at
      j fires with u's final gradient, since no later rule feeds u. */
  lemma PrefixStep(L: Coeff, S: seq<real>, order: seq<nat>, j: nat, v: nat)
    requires AllBelow(order, |S|) && j < |order| && v < |S|
    requires Settled(L, order)
    requires Propagate(L, S, order[..j])[v]
          == S[v] + FinalSum(L, Propagate(L, S, order), order[..j], v)
    ensures Propagate(L, S, order[..j + 1])[v]
         == S[v] + FinalSum(L, Propagate(L, S, order), order[..j + 1], v)
  {
    var u := order[j];
    var F := Propagate(L, S, order);
    var P := Propagate(L, S, order[..j]);
    FinalAt(L, S, order, j, u);
    FireStep(L, S, P, order, j, u, v);
    FinalSumStep(L, F, order, j, u, P[u], v);
  }

  /** In a settled order the node at j already holds its final gradient
      after the first j rules. */
  lemma FinalAt(L: Coeff, S: seq<real>, order: seq<nat>, j: nat, u: nat)
    requires AllBelow(order, |S|) && j < |order| && u == order[j]
    requires Settled(L, order)
    ensures Propagate(L, S, order)[u] == Propagate(L, S, order[..j])[u]
  {
    SettledFrom(L, order, j);
    PropagateKeeps(L, S, order, j, u);
  }

  /** Rule j fires on P, the gradients left by the first j rules. */
  lemma FireStep(L: Coeff, S: seq<real>, P: seq<real>, order: seq<nat>, j: nat, u: nat, v: nat)
    requires AllBelow(order, |S|) && j < |order| && u == order[j] && v < |S|
    requires P == Propagate(L, S, order[..j])
    ensures Propagate(L, S, order[..j + 1])[v] == P[v] + L(u, v) * P[u]
  {
    PropagateStep(L, S, order, j);
    FireAt(L, P, u, v);
  }

  /** Once everything has fired: seed plus the consumers' shares. */
  lemma FinalEquation(L: Coeff, S: seq<real>, order: seq<nat>, v: nat)
    requires AllBelow(order, |S|) && v < |S| && Settled(L, order)
    ensures Propagate(L, S, order)[v] == S[v] + FinalSum(L, Propagate(L, S, order), order, v)
  {
    PrefixEquation(L, S, order, |order|, v);
    assert order[..|order|] == order;
  }

  /** The sum of L(u, v) * F[u] over the u in [lo, hi) that belong to E. */
  function RangeSum(L: Coeff, F: seq<real>, E: set<nat>, v: nat, lo: nat, hi: nat): real
    requires hi <= |F|
    decreases hi - lo
  {
    if lo >= hi then 0.0
    else (if lo in E then L(lo, v) * F[lo] else 0.0) + RangeSum(L, F, E, v, lo + 1, hi)
  }

  /** A range sum equals s when its head term, taken with the value a in place
      of F[lo], and its tail add up to s. */
  lemma RangeSumMatch(L: Coeff, F: seq<real>, E: set<nat>, v: nat, lo: nat, hi: nat,
                      a: real, s1: real, s: real)
    requires lo < hi <= |F|
    requires lo in E ==> F[lo] == a
    requires RangeSum(L, F, E, v, lo + 1, hi) == s1
    requires s == (if lo in E then L(lo, v) * a else 0.0) + s1
    ensures RangeSum(L, F, E, v, lo, hi) == s
  {
    if lo in E {
      MulCongr(L(lo, v), F[lo], L(lo, v), a);
    }
  }

  lemma {:induction false} RangeSumInsert(L: Coeff, F: seq<real>, E: set<nat>, x: nat, v: nat, lo: nat, hi: nat)
    requires hi <= |F| && x !in E && lo <= x < hi
    ensures RangeSum(L, F, E + {x}, v, lo, hi) == RangeSum(L, F, E, v, lo, hi) + L(x, v) * F[x]
    decreases hi - lo
  {
    if lo < x {
      RangeSumInsert(L, F, E, x, v, lo + 1, hi);
    } else {
      RangeSumSame(L, F, E + {x}, E, v, lo + 1, hi);
    }
  }

  lemma {:induction false} RangeSumSame(L: Coeff, F: seq<real>, E1: set<nat>, E2: set<nat>, v: nat, lo: nat, hi: nat)
    requires hi <= |F|
    requires forall u :: lo <= u < hi ==> (u in E1 <==> u in E2)
    ensures RangeSum(L, F, E1, v, lo, hi) == RangeSum(L, F, E2, v, lo, hi)
    decreases hi - lo
  {
    if lo < hi {
      RangeSumSame(L, F, E1, E2, v, lo + 1, hi);
    }
  }

  lemma {:induction false} RangeSumEmpty(L: Coeff, F: seq<real>, v: nat, lo: nat, hi: nat)
    requires hi <= |F|
    ensures RangeSum(L, F, {}, v, lo, hi) == 0.0
    decreases hi - lo
  {
    if lo < hi {
      RangeSumEmpty(L, F, v, lo + 1, hi);
    }
  }

  /** Splitting off the last element of a list without repeats: the rest has
      no repeats, does not hold it, and together they hold the same set. */
  lemma LastSplit(us: seq<nat>)
    requires us != [] && NoDup(us)
    ensures NoDup(us[..|us| - 1]) && us[|us| - 1] !in Elems(us[..|us| - 1])
    ensures Elems(us) == Elems(us[..|us| - 1]) + {us[|us| - 1]}
  {
    var init, x := us[..|us| - 1], us[|us| - 1];
    assert us == init + [x];
    SnocFacts(init, x);
    forall i | 0 <= i < |init| ensures init[i] != x {
      assert us[i] == init[i];
    }
  }

  lemma FinalSumLast(L: Coeff, F: seq<real>, us: seq<nat>, v: nat)
    requires AllBelow(us, |F|) && us != []
    ensures FinalSum(L, F, us, v)
         == FinalSum(L, F, us[..|us| - 1], v) + L(us[|us| - 1], v) * F[us[|us| - 1]]
  {
  }

  /** A sum over a list without repeats is the sum over the set it holds. */
  lemma {:induction false} FinalSumAsRange(L: Coeff, F: seq<real>, us: seq<nat>, v: nat)
    requires AllBelow(us, |F|) && NoDup(us)
    ensures FinalSum(L, F, us, v) == RangeSum(L, F, Elems(us), v, 0, |F|)
  {
    if us == [] {
      RangeSumSame(L, F, Elems(us), {}, v, 0, |F|);
      RangeSumEmpty(L, F, v, 0, |F|);
    } else {
      var init, x := us[..|us| - 1], us[|us| - 1];
      LastSplit(us);
      FinalSumAsRange(L, F, init, v);
      FinalSumLast(L, F, us, v);
      RangeSumSnoc(L, F, Elems(init), Elems(us), x, v, FinalSum(L, F, init, v), FinalSum(L, F, us, v));
    }
  }

  /** Adding one more term to a list sum matches adding its node to the set. */
  lemma RangeSumSnoc(L: Coeff, F: seq<real>, E0: set<nat>, E: set<nat>, x: nat, v: nat, s0: real, s: real)
    requires x < |F| && x !in E0 && E == E0 + {x}
    requires s0 == RangeSum(L, F, E0, v, 0, |F|) && s == s0 + L(x, v) * F[x]
    ensures s == RangeSum(L, F, E, v, 0, |F|)
  {
    RangeSumInsert(L, F, E0, x, v, 0, |F|);
  }

  /** Terms of nodes that give v nothing can be dropped from the front. */
  lemma {:induction false} RangeSumSkip(L: Coeff, F: seq<real>, E: set<nat>, v: nat, lo: nat, mid: nat)
    requires lo <= mid <= |F|
    requires forall u :: lo <= u < mid ==> L(u, v) == 0.0
    ensures RangeSum(L, F, E, v, lo, |F|) == RangeSum(L, F, E, v, mid, |F|)
    decreases mid - lo
  {
    if lo < mid {
      RangeSumSkip(L, F, E, v, lo + 1, mid);
    }
  }
}
