/** The loss functions: mean squared error, and hinge loss with L2
    regularisation plus the accuracy side metric. Each loss is built from the
    graph operations, so its value is a node of the graph; the functions below
    give that value in closed form. Predictions and targets are node indices;
    the i-th prediction is compared with the i-th target. */
module Loss {
  import opened Arena
  import opened Topo
  import opened Engine

  function Square(x: real): real
  {
    x * x
  }

  // Sign facts about products, each stated over a named product s so that
  // the solver's arithmetic sees the product as one term.

  lemma SquareNonNegative(x: real, s: real)
    requires s == x * x
    ensures s >= 0.0
  {
  }

  lemma PositiveTimesPositive(x: real, y: real, s: real)
    requires s == x * y && x > 0.0 && y > 0.0
    ensures s > 0.0
  {
  }

  lemma NegativeTimesNegative(x: real, y: real, s: real)
    requires s == x * y && x < 0.0 && y < 0.0
    ensures s > 0.0
  {
  }

  /** A square is never negative, and is zero only for zero. */
  lemma SquareFacts(x: real)
    ensures Square(x) >= 0.0 && (Square(x) == 0.0 <==> x == 0.0)
  {
    SquareNonNegative(x, Square(x));
    if x > 0.0 {
      PositiveTimesPositive(x, x, Square(x));
    } else if x < 0.0 {
      NegativeTimesNegative(x, x, Square(x));
    }
  }

  /** The squared error (t - p)^2 of every prediction against its target. */
  function SquaredErrors(ps: seq<real>, ts: seq<real>): (es: seq<real>)
    requires |ps| <= |ts|
    ensures |es| == |ps|
  {
    seq(|ps|, i requires 0 <= i < |ps| => Square(ts[i] - ps[i]))
  }

  /** Mean squared error: the sum of the squared errors times 1/n. */
  function Mse(ps: seq<real>, ts: seq<real>): real
    requires 0 < |ps| <= |ts|
  {
    Total(SquaredErrors(ps, ts)) * (1.0 / (|ps| as real))
  }

  lemma MseNonNegative(ps: seq<real>, ts: seq<real>)
    requires 0 < |ps| <= |ts|
    ensures Mse(ps, ts) >= 0.0
  {
    var es := SquaredErrors(ps, ts);
    forall i | 0 <= i < |es| ensures es[i] >= 0.0 { SquareFacts(ts[i] - ps[i]); }
    TotalNonNegative(es);
  }

  /** The mean squared error vanishes exactly when every prediction equals
      its target. */
  lemma MseZero(ps: seq<real>, ts: seq<real>)
    requires 0 < |ps| <= |ts|
    ensures Mse(ps, ts) == 0.0 <==> forall i :: 0 <= i < |ps| ==> ps[i] == ts[i]
  {
    var es := SquaredErrors(ps, ts);
    forall i | 0 <= i < |ps| ensures es[i] >= 0.0 && (es[i] == 0.0 <==> ps[i] == ts[i]) {
      SquareFacts(ts[i] - ps[i]);
    }
    TotalZero(es);
    TotalNonNegative(es);
    var c := 1.0 / (|ps| as real);
    assert c > 0.0;
    if Total(es) != 0.0 {
      assert Total(es) * c > 0.0;
    }
  }

  /** The hinge loss of one example: max(0, 1 - t*s). */
  function Hinge(t: real, s: real): real
  {
    Max(0.0, 1.0 - t * s)
  }

  /** The per-example hinge losses. */
  function Margins(ss: seq<real>, ts: seq<real>): (ms: seq<real>)
    requires |ss| <= |ts|
    ensures |ms| == |ss|
  {
    seq(|ss|, i requires 0 <= i < |ss| => Hinge(ts[i], ss[i]))
  }

  /** Each parameter squared. */
  function Squares(ws: seq<real>): (qs: seq<real>)
    ensures |qs| == |ws|
  {
    seq(|ws|, i requires 0 <= i < |ws| => Square(ws[i]))
  }

  /** The L2 regularisation strength (`alpha = 1e-4`). */
  const Alpha: real := 0.0001

  /** The mean hinge loss over the examples. */
  function DataLoss(ss: seq<real>, ts: seq<real>): real
    requires 0 < |ss| <= |ts|
  {
    Total(Margins(ss, ts)) * (1.0 / (|ss| as real))
  }

  /** Mean hinge loss plus alpha times the sum of the squared parameters. */
  function HingeTotal(ss: seq<real>, ts: seq<real>, ws: seq<real>): real
    requires 0 < |ss| <= |ts|
  {
    DataLoss(ss, ts) + Total(Squares(ws)) * Alpha
  }

  lemma HingeNonNegative(ss: seq<real>, ts: seq<real>, ws: seq<real>)
    requires 0 < |ss| <= |ts|
    ensures DataLoss(ss, ts) >= 0.0 && HingeTotal(ss, ts, ws) >= 0.0
  {
    var ms, qs := Margins(ss, ts), Squares(ws);
    assert forall i :: 0 <= i < |ms| ==> ms[i] >= 0.0;
    forall i | 0 <= i < |qs| ensures qs[i] >= 0.0 { SquareFacts(ws[i]); }
    TotalNonNegative(ms);
    TotalNonNegative(qs);
  }

  /** The data loss is zero exactly when every example is classified with a
      margin of at least 1, that is t*s >= 1; only the regulariser is left. */
  lemma DataLossZero(ss: seq<real>, ts: seq<real>, ws: seq<real>)
    requires 0 < |ss| <= |ts|
    ensures DataLoss(ss, ts) == 0.0 <==> forall i :: 0 <= i < |ss| ==> ts[i] * ss[i] >= 1.0
    ensures DataLoss(ss, ts) == 0.0 ==> HingeTotal(ss, ts, ws) == Total(Squares(ws)) * Alpha
  {
    var ms := Margins(ss, ts);
    assert forall i :: 0 <= i < |ss| ==> ms[i] >= 0.0;
    TotalZero(ms);
    TotalNonNegative(ms);
    forall i | 0 <= i < |ss| ensures ms[i] == 0.0 <==> ts[i] * ss[i] >= 1.0 {
      assert ms[i] == Hinge(ts[i], ss[i]);
    }
    var c := 1.0 / (|ss| as real);
    assert c > 0.0;
    if Total(ms) != 0.0 {
      assert Total(ms) * c > 0.0;
    }
  }

  /** The number of examples whose target and score are both positive or
      both not positive (a score of exactly 0 counts as not positive). */
  function Matches(ss: seq<real>, ts: seq<real>): nat
    requires |ss| <= |ts|
  {
    if ss == [] then 0
    else
      var i := |ss| - 1;
      Matches(ss[..i], ts) + (if (ts[i] > 0.0) == (ss[i] > 0.0) then 1 else 0)
  }

  /** The fraction of examples classified on the right side of 0. */
  function Accuracy(ss: seq<real>, ts: seq<real>): real
    requires 0 < |ss| <= |ts|
  {
    (Matches(ss, ts) as real) / (|ss| as real)
  }

  /** Every example is counted at most once, and all of them are counted
      exactly when every one agrees in sign. */
  lemma {:induction false} MatchesBound(ss: seq<real>, ts: seq<real>)
    requires |ss| <= |ts|
    ensures Matches(ss, ts) <= |ss|
    ensures Matches(ss, ts) == |ss| <==> forall i :: 0 <= i < |ss| ==> ((ts[i] > 0.0) == (ss[i] > 0.0))
  {
    if ss != [] {
      var i := |ss| - 1;
      MatchesBound(ss[..i], ts);
      if Matches(ss, ts) == |ss| {
        forall j | 0 <= j < |ss| ensures (ts[j] > 0.0) == (ss[j] > 0.0) {
          if j < i { assert ss[..i][j] == ss[j]; }
        }
      } else if forall j :: 0 <= j < |ss| ==> ((ts[j] > 0.0) == (ss[j] > 0.0)) {
        forall j | 0 <= j < i ensures (ts[j] > 0.0) == (ss[..i][j] > 0.0) {
          assert ss[..i][j] == ss[j];
        }
      }
    }
  }

  /** Accuracy lies in [0, 1], and is 1 exactly when every example agrees in sign. */
  lemma AccuracyBounds(ss: seq<real>, ts: seq<real>)
    requires 0 < |ss| <= |ts|
    ensures 0.0 <= Accuracy(ss, ts) <= 1.0
    ensures Accuracy(ss, ts) == 1.0 <==> forall i :: 0 <= i < |ss| ==> ((ts[i] > 0.0) == (ss[i] > 0.0))
  {
    MatchesBound(ss, ts);
    var n := |ss| as real;
    var m := Matches(ss, ts) as real;
    assert m <= n;
    assert Accuracy(ss, ts) == m / n;
    if m == n { assert m / n == 1.0; }
    if m / n == 1.0 { assert m == n; }
  }

  /** Scores 0.8 and -0.3 against targets 1 and 1: one of two is right. */
  lemma AccuracyExample()
    ensures Accuracy([0.8, -0.3], [1.0, 1.0]) == 0.5
  {
    var ss, ts := [0.8, -0.3], [1.0, 1.0];
    assert ss[..1] == [0.8] && ss[..1][..0] == [];
    assert Matches(ss, ts) == 1;
  }

  /** `target.sub(prediction).pow(2)` for one example. */
  method SquaredError(g: Graph, t: nat, p: nat) returns (k: nat)
    requires g.Valid() && t < |g.nodes| && p < |g.nodes|
    modifies g
    ensures g.Valid() && Appended(old(g.nodes), old(g.grad), g.nodes, g.grad)
    ensures k < |g.nodes| && g.nodes[k].data == Square(old(g.nodes)[t].data - old(g.nodes)[p].data)
    ensures var m := |old(g.nodes)|;
      |g.nodes| == m + 5 && k == m + 4
      && g.nodes[m] == Node(-1.0, Leaf) && g.nodes[m + 1].op == Times(p, m)
      && g.nodes[m + 2].op == Plus(t, m + 1)
      && g.nodes[m + 3] == Node(2.0, Leaf) && g.nodes[m + 4].op == Power(m + 2, m + 3, 2)
    ensures t in Reach(g.nodes, k) && p in Reach(g.nodes, k)
  {
    var d := g.Sub(t, p);
    var dv := g.nodes[d].data;
    ghost var ns1 := g.nodes;
    k := g.Pow(d, 2);
    RPowSquare(dv);
    assert g.nodes[d] == ns1[d] && g.nodes[d - 1] == ns1[d - 1];
    Operand(g.nodes, k, d);
    Operand(g.nodes, d, t);
    Operand(g.nodes, d, d - 1);
    Operand(g.nodes, d - 1, p);
  }

  /** `target.mul(score).mul(-1).add(1).relu()` for one example. */
  method HingeTerm(g: Graph, t: nat, s: nat) returns (k: nat)
    requires g.Valid() && t < |g.nodes| && s < |g.nodes|
    modifies g
    ensures g.Valid() && Appended(old(g.nodes), old(g.grad), g.nodes, g.grad)
    ensures k < |g.nodes| && g.nodes[k].data == Hinge(old(g.nodes)[t].data, old(g.nodes)[s].data)
    ensures var m := |old(g.nodes)|;
      |g.nodes| == m + 6 && k == m + 5
      && g.nodes[m].op == Times(t, s)
      && g.nodes[m + 1] == Node(-1.0, Leaf) && g.nodes[m + 2].op == Times(m, m + 1)
      && g.nodes[m + 3] == Node(1.0, Leaf) && g.nodes[m + 4].op == Plus(m + 2, m + 3)
      && g.nodes[m + 5].op == Rectify(m + 4)
    ensures t in Reach(g.nodes, k) && s in Reach(g.nodes, k)
  {
    ghost var m := |g.nodes|;
    var tv, sv := g.nodes[t].data, g.nodes[s].data;
    var p := g.Mul(t, s);
    MulCongr(g.nodes[t].data, g.nodes[s].data, tv, sv);
    var pv := g.nodes[p].data;
    var n := g.MulNum(p, -1.0);
    assert g.nodes[n].data == pv * -1.0;
    var a := g.AddNum(n, 1.0);
    assert g.nodes[a].data == 1.0 - tv * sv;
    k := g.Relu(a);
    Operand(g.nodes, k, a);
    Operand(g.nodes, a, n);
    Operand(g.nodes, n, p);
    Operand(g.nodes, p, t);
    Operand(g.nodes, p, s);
  }

  /** `param.pow(2)` for one parameter. */
  method SquareParam(g: Graph, w: nat) returns (k: nat)
    requires g.Valid() && w < |g.nodes|
    modifies g
    ensures g.Valid() && Appended(old(g.nodes), old(g.grad), g.nodes, g.grad)
    ensures k < |g.nodes| && g.nodes[k].data == Square(old(g.nodes)[w].data)
    ensures var m := |old(g.nodes)|;
      |g.nodes| == m + 2 && k == m + 1
      && g.nodes[m] == Node(2.0, Leaf) && g.nodes[m + 1].op == Power(w, m, 2)
    ensures w in Reach(g.nodes, k)
  {
    var wv := g.nodes[w].data;
    k := g.Pow(w, 2);
    RPowSquare(wv);
    Operand(g.nodes, k, w);
  }

  /** x scaled by c, named so that two scaled sums compare by their arguments. */
  function Scaled(x: real, c: real): real
  {
    x * c
  }

  /** `ValueNode.sum(xs).mul(c)`: the sum of the values times c. */
  method ScaledSum(g: Graph, xs: seq<nat>, c: real) returns (k: nat)
    requires g.Valid() && AllBelow(xs, |g.nodes|)
    modifies g
    ensures g.Valid() && Appended(old(g.nodes), old(g.grad), g.nodes, g.grad)
    ensures k < |g.nodes| && g.nodes[k].data == Scaled(Total(DataOf(old(g.nodes), xs)), c)
    ensures var m := |old(g.nodes)|;
      |g.nodes| == m + 3 + |xs| && k == m + 2 + |xs|
      && g.nodes[m] == Node(0.0, Leaf)
      && (forall t :: 0 <= t < |xs| ==> g.nodes[m + 1 + t].op == Plus(m + t, xs[t]))
      && g.nodes[m + 1 + |xs|] == Node(c, Leaf) && g.nodes[k].op == Times(m + |xs|, m + 1 + |xs|)
    ensures Feeds(g.nodes, xs, k)
  {
    ghost var ns0, gr0 := g.nodes, g.grad;
    var s := g.Sum(xs);
    ghost var ns1, gr1 := g.nodes, g.grad;
    var sv := g.nodes[s].data;
    k := g.MulNum(s, c);
    MulCongr(g.nodes[s].data, c, sv, c);
    assert Appended(ns1, gr1, g.nodes, g.grad);
    AppendedTrans(ns0, gr0, ns1, gr1, g.nodes, g.grad);
    FeedsGrow(ns1, g.nodes, xs, s);
    Operand(g.nodes, k, s);
    FeedsThrough(g.nodes, xs, s, k);
  }

  /** The j-th per-example loss node reaches the j-th prediction and the j-th
      target. */
  ghost predicate PairsFeed(ns: seq<Node>, ps: seq<nat>, ts: seq<nat>, ks: seq<nat>)
    requires WellFormed(ns) && AllBelow(ks, |ns|) && |ks| <= |ps| && |ks| <= |ts|
  {
    forall j :: 0 <= j < |ks| ==> ps[j] in Reach(ns, ks[j]) && ts[j] in Reach(ns, ks[j])
  }

  lemma PairsGrow(ns: seq<Node>, ms: seq<Node>, ps: seq<nat>, ts: seq<nat>, ks: seq<nat>)
    requires WellFormed(ms) && ns <= ms && AllBelow(ks, |ns|) && |ks| <= |ps| && |ks| <= |ts|
    requires WellFormed(ns) && PairsFeed(ns, ps, ts, ks)
    ensures AllBelow(ks, |ms|) && PairsFeed(ms, ps, ts, ks)
  {
    forall j | 0 <= j < |ks| ensures ps[j] in Reach(ms, ks[j]) && ts[j] in Reach(ms, ks[j]) {
      ReachPrefix(ns, ms, ks[j]);
    }
  }

  /** One more per-example loss node k, appended after ns, that reaches the
      next prediction and target. */
  lemma PairsStep(ns: seq<Node>, ms: seq<Node>, ps: seq<nat>, ts: seq<nat>, ks: seq<nat>, k: nat)
    requires WellFormed(ms) && ns <= ms && AllBelow(ks, |ns|) && |ks| < |ps| && |ks| < |ts|
    requires WellFormed(ns) && PairsFeed(ns, ps, ts, ks)
    requires k < |ms| && ps[|ks|] in Reach(ms, k) && ts[|ks|] in Reach(ms, k)
    ensures AllBelow(ks + [k], |ms|) && PairsFeed(ms, ps, ts, ks + [k])
  {
    PairsGrow(ns, ms, ps, ts, ks);
  }

  /** A node k, appended after the per-example loss nodes and fed by every one
      of them, reaches every prediction and target those nodes reach. */
  lemma PairsJoin(ns: seq<Node>, ms: seq<Node>, ps: seq<nat>, ts: seq<nat>, ks: seq<nat>, k: nat)
    requires WellFormed(ms) && ns <= ms && AllBelow(ks, |ns|) && |ks| <= |ps| && |ks| <= |ts|
    requires WellFormed(ns) && PairsFeed(ns, ps, ts, ks)
    requires k < |ms| && Feeds(ms, ks, k)
    ensures forall j :: 0 <= j < |ks| ==> ps[j] in Reach(ms, k) && ts[j] in Reach(ms, k)
  {
    PairsGrow(ns, ms, ps, ts, ks);
    forall j | 0 <= j < |ks| ensures ps[j] in Reach(ms, k) && ts[j] in Reach(ms, k) {
      ReachTrans(ms, k, ks[j]);
    }
  }

  /** A mean of the squared errors of ps and ts is their Mse. */
  lemma MseOfTerms(v: real, c: real, n: nat, xs: seq<real>, ps: seq<real>, ts: seq<real>)
    requires 0 < |ps| <= |ts| && n == |ps| && xs == SquaredErrors(ps, ts)
    requires c == 1.0 / (n as real) && v == Scaled(Total(xs), c)
    ensures v == Mse(ps, ts)
  {
  }

  /** A mean of the margins of ss and ts is their DataLoss. */
  lemma DataLossOfTerms(v: real, c: real, n: nat, xs: seq<real>, ss: seq<real>, ts: seq<real>)
    requires 0 < |ss| <= |ts| && n == |ss| && xs == Margins(ss, ts)
    requires c == 1.0 / (n as real) && v == Scaled(Total(xs), c)
    ensures v == DataLoss(ss, ts)
  {
  }

  /** The per-example squared errors of `mseLoss`, one node each, in order. */
  method SquaredErrorNodes(g: Graph, predictions: seq<nat>, targets: seq<nat>) returns (losses: seq<nat>)
    requires g.Valid() && AllBelow(predictions, |g.nodes|) && AllBelow(targets, |g.nodes|)
    requires |predictions| <= |targets|
    modifies g
    ensures g.Valid() && Appended(old(g.nodes), old(g.grad), g.nodes, g.grad)
    ensures |losses| == |predictions| && AllBelow(losses, |g.nodes|)
    ensures DataOf(g.nodes, losses) == SquaredErrors(DataOf(old(g.nodes), predictions), DataOf(old(g.nodes), targets))
    ensures PairsFeed(g.nodes, predictions, targets, losses)
  {
    ghost var ns0, gr0 := g.nodes, g.grad;
    ghost var es := SquaredErrors(DataOf(ns0, predictions), DataOf(ns0, targets));
    losses := [];
    for i := 0 to |predictions|
      invariant g.Valid() && Appended(ns0, gr0, g.nodes, g.grad)
      invariant AllBelow(losses, |g.nodes|) && DataOf(g.nodes, losses) == es[..i]
      invariant |losses| == i && PairsFeed(g.nodes, predictions, targets, losses)
    {
      ghost var before, gb := g.nodes, g.grad;
      assert before[targets[i]] == ns0[targets[i]] && before[predictions[i]] == ns0[predictions[i]];
      var k := SquaredError(g, targets[i], predictions[i]);
      AppendedTrans(ns0, gr0, before, gb, g.nodes, g.grad);
      DataOfExtend(before, g.nodes, losses, es[..i], k, es[i]);
      PairsStep(before, g.nodes, predictions, targets, losses, k);
      assert es[..i + 1] == es[..i] + [es[i]];
      losses := losses + [k];
    }
    assert es[..|predictions|] == es;
  }

  /** `mseLoss(predictions, targets)`: per example target.sub(prediction).pow(2),
      then their sum times 1/n. */
  method MseLoss(g: Graph, predictions: seq<nat>, targets: seq<nat>) returns (loss: nat)
    requires g.Valid() && AllBelow(predictions, |g.nodes|) && AllBelow(targets, |g.nodes|)
    requires 0 < |predictions| <= |targets|
    modifies g
    ensures g.Valid() && Appended(old(g.nodes), old(g.grad), g.nodes, g.grad)
    ensures loss < |g.nodes|
    ensures g.nodes[loss].data == Mse(DataOf(old(g.nodes), predictions), DataOf(old(g.nodes), targets))
    ensures forall j :: 0 <= j < |predictions| ==>
      predictions[j] in Reach(g.nodes, loss) && targets[j] in Reach(g.nodes, loss)
  {
    ghost var ns0, gr0 := g.nodes, g.grad;
    var losses := SquaredErrorNodes(g, predictions, targets);
    ghost var ns1, gr1 := g.nodes, g.grad;
    loss := ScaledSum(g, losses, 1.0 / (|losses| as real));
    MseOfTerms(g.nodes[loss].data, 1.0 / (|losses| as real), |losses|,
               DataOf(ns1, losses), DataOf(ns0, predictions), DataOf(ns0, targets));
    AppendedTrans(ns0, gr0, ns1, gr1, g.nodes, g.grad);
    PairsJoin(ns1, g.nodes, predictions, targets, losses, loss);
  }

  /** The per-example hinge losses of `hingeLoss`, one node each, in order. */
  method HingeTermNodes(g: Graph, predictions: seq<nat>, targets: seq<nat>) returns (losses: seq<nat>)
    requires g.Valid() && AllBelow(predictions, |g.nodes|) && AllBelow(targets, |g.nodes|)
    requires |predictions| <= |targets|
    modifies g
    ensures g.Valid() && Appended(old(g.nodes), old(g.grad), g.nodes, g.grad)
    ensures |losses| == |predictions| && AllBelow(losses, |g.nodes|)
    ensures DataOf(g.nodes, losses) == Margins(DataOf(old(g.nodes), predictions), DataOf(old(g.nodes), targets))
    ensures PairsFeed(g.nodes, predictions, targets, losses)
  {
    ghost var ns0, gr0 := g.nodes, g.grad;
    ghost var ms := Margins(DataOf(ns0, predictions), DataOf(ns0, targets));
    losses := [];
    for i := 0 to |predictions|
      invariant g.Valid() && Appended(ns0, gr0, g.nodes, g.grad)
      invariant AllBelow(losses, |g.nodes|) && DataOf(g.nodes, losses) == ms[..i]
      invariant |losses| == i && PairsFeed(g.nodes, predictions, targets, losses)
    {
      ghost var before, gb := g.nodes, g.grad;
      assert before[targets[i]] == ns0[targets[i]] && before[predictions[i]] == ns0[predictions[i]];
      var h := HingeTerm(g, targets[i], predictions[i]);
      AppendedTrans(ns0, gr0, before, gb, g.nodes, g.grad);
      DataOfExtend(before, g.nodes, losses, ms[..i], h, ms[i]);
      PairsStep(before, g.nodes, predictions, targets, losses, h);
      assert ms[..i + 1] == ms[..i] + [ms[i]];
      losses := losses + [h];
    }
    assert ms[..|predictions|] == ms;
  }

  /** `ValueNode.sum(losses).mul(1.0 / losses.length)` over the per-example
      hinge losses: the data loss. */
  method MeanHinge(g: Graph, predictions: seq<nat>, targets: seq<nat>) returns (k: nat)
    requires g.Valid() && AllBelow(predictions, |g.nodes|) && AllBelow(targets, |g.nodes|)
    requires 0 < |predictions| <= |targets|
    modifies g
    ensures g.Valid() && Appended(old(g.nodes), old(g.grad), g.nodes, g.grad)
    ensures k < |g.nodes|
    ensures g.nodes[k].data == DataLoss(DataOf(old(g.nodes), predictions), DataOf(old(g.nodes), targets))
    ensures forall j :: 0 <= j < |predictions| ==>
      predictions[j] in Reach(g.nodes, k) && targets[j] in Reach(g.nodes, k)
  {
    ghost var ns0, gr0 := g.nodes, g.grad;
    var losses := HingeTermNodes(g, predictions, targets);
    ghost var ns1, gr1 := g.nodes, g.grad;
    k := ScaledSum(g, losses, 1.0 / (|losses| as real));
    DataLossOfTerms(g.nodes[k].data, 1.0 / (|losses| as real), |losses|,
                    DataOf(ns1, losses), DataOf(ns0, predictions), DataOf(ns0, targets));
    AppendedTrans(ns0, gr0, ns1, gr1, g.nodes, g.grad);
    PairsJoin(ns1, g.nodes, predictions, targets, losses, k);
  }

  /** `ValueNode.sum(params.map((param) => param.pow(2))).mul(alpha)`: the
      L2 regularisation term. */
  method L2Penalty(g: Graph, params: seq<nat>) returns (k: nat)
    requires g.Valid() && AllBelow(params, |g.nodes|)
    modifies g
    ensures g.Valid() && Appended(old(g.nodes), old(g.grad), g.nodes, g.grad)
    ensures k < |g.nodes|
    ensures g.nodes[k].data == Total(Squares(DataOf(old(g.nodes), params))) * Alpha
    ensures Feeds(g.nodes, params, k)
  {
    ghost var ns0, gr0 := g.nodes, g.grad;
    ghost var qs := Squares(DataOf(ns0, params));
    var squares: seq<nat> := [];
    for i := 0 to |params|
      invariant g.Valid() && Appended(ns0, gr0, g.nodes, g.grad)
      invariant AllBelow(squares, |g.nodes|) && DataOf(g.nodes, squares) == qs[..i]
      invariant |squares| == i && PairsFeed(g.nodes, params, params, squares)
    {
      ghost var before, gb := g.nodes, g.grad;
      assert before[params[i]] == ns0[params[i]];
      var q := SquareParam(g, params[i]);
      AppendedTrans(ns0, gr0, before, gb, g.nodes, g.grad);
      DataOfExtend(before, g.nodes, squares, qs[..i], q, qs[i]);
      PairsStep(before, g.nodes, params, params, squares, q);
      assert qs[..i + 1] == qs[..i] + [qs[i]];
      squares := squares + [q];
    }
    assert qs[..|params|] == qs;
    ghost var ns1, gr1 := g.nodes, g.grad;
    k := ScaledSum(g, squares, Alpha);
    AppendedTrans(ns0, gr0, ns1, gr1, g.nodes, g.grad);
    PairsJoin(ns1, g.nodes, params, params, squares, k);
  }

  /** `hingeLoss(predictions, targets, trainableParams)`: the mean hinge loss
      plus the L2 term as a node, and the accuracy, read off the values. */
  method HingeLoss(g: Graph, predictions: seq<nat>, targets: seq<nat>, trainableParams: seq<nat>)
    returns (totalLoss: nat, accuracy: real)
    requires g.Valid() && AllBelow(predictions, |g.nodes|) && AllBelow(targets, |g.nodes|)
    requires AllBelow(trainableParams, |g.nodes|)
    requires 0 < |predictions| <= |targets|
    modifies g
    ensures g.Valid() && Appended(old(g.nodes), old(g.grad), g.nodes, g.grad)
    ensures totalLoss < |g.nodes|
    ensures g.nodes[totalLoss].data
         == HingeTotal(DataOf(old(g.nodes), predictions), DataOf(old(g.nodes), targets),
                       DataOf(old(g.nodes), trainableParams))
    ensures accuracy == Accuracy(DataOf(old(g.nodes), predictions), DataOf(old(g.nodes), targets))
    ensures forall j :: 0 <= j < |predictions| ==>
      predictions[j] in Reach(g.nodes, totalLoss) && targets[j] in Reach(g.nodes, totalLoss)
    ensures Feeds(g.nodes, trainableParams, totalLoss)
  {
    ghost var ns0, gr0 := g.nodes, g.grad;
    var dataLoss := MeanHinge(g, predictions, targets);
    var dv := g.nodes[dataLoss].data;
    ghost var ns1, gr1 := g.nodes, g.grad;
    DataOfPrefix(ns0, ns1, trainableParams);
    var regLoss := L2Penalty(g, trainableParams);
    var rv := g.nodes[regLoss].data;
    ghost var ns2, gr2 := g.nodes, g.grad;
    assert g.nodes[dataLoss] == ns1[dataLoss];
    totalLoss := g.Add(dataLoss, regLoss);
    assert g.nodes[totalLoss].data == dv + rv;
    AppendedTrans(ns0, gr0, ns1, gr1, ns2, gr2);
    assert Appended(ns2, gr2, g.nodes, g.grad);
    AppendedTrans(ns0, gr0, ns2, gr2, g.nodes, g.grad);
    Operand(g.nodes, totalLoss, dataLoss);
    Operand(g.nodes, totalLoss, regLoss);
    ReachPrefix(ns1, g.nodes, dataLoss);
    assert Reach(ns1, dataLoss) <= Reach(g.nodes, totalLoss);
    FeedsGrow(ns2, g.nodes, trainableParams, regLoss);
    FeedsThrough(g.nodes, trainableParams, regLoss, totalLoss);
    DataOfPrefix(ns0, g.nodes, predictions);
    DataOfPrefix(ns0, g.nodes, targets);
    accuracy := Accuracy(DataOf(g.nodes, predictions), DataOf(g.nodes, targets));
  }
}
