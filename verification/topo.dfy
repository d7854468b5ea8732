/** Reachability and the post-order depth-first search that `nodes()` performs,
    as functions over the arena, with the facts backpropagation relies on:
    every reachable node is listed exactly once, children come before their
    parents, and the root comes last. */
module Topo {
  import opened Arena

  /** Nodes reachable from v through operand links (v included). */
  function Reach(ns: seq<Node>, v: nat): set<nat>
    requires WellFormed(ns) && v < |ns|
    decreases v, 1
  {
    ChildrenOk(ns, v);
    {v} + ReachAll(ns, v, Children(ns[v].op))
  }

  /** Nodes reachable from any of the operands cs of node p. */
  function ReachAll(ns: seq<Node>, p: nat, cs: seq<nat>): set<nat>
    requires WellFormed(ns) && p < |ns|
    requires AllBelow(cs, p)
    decreases p, 0, |cs|
  {
    if cs == [] then {}
    else ReachAll(ns, p, cs[..|cs| - 1]) + Reach(ns, cs[|cs| - 1])
  }

  function Elems(s: seq<nat>): set<nat>
  {
    set x | x in s
  }

  predicate NoDup(s: seq<nat>)
  {
    forall i, j :: 0 <= i < j < |s| ==> s[i] != s[j]
  }

  /** Every operand of v occurs in s. */
  predicate ChildrenIn(ns: seq<Node>, v: nat, s: seq<nat>)
    requires v < |ns|
  {
    forall c :: c in Children(ns[v].op) ==> c in s
  }

  /** Every node of s is in the arena and its operands occur earlier in s. */
  predicate ChildrenBefore(ns: seq<Node>, s: seq<nat>)
  {
    forall k :: 0 <= k < |s| ==> s[k] < |ns| && ChildrenIn(ns, s[k], s[..k])
  }

  /** The state threaded through the search: the list built so far has no
      repeats, lists operands first, and only holds nodes already marked. */
  predicate SearchInv(ns: seq<Node>, vis: set<nat>, ord: seq<nat>)
  {
    NoDup(ord) && ChildrenBefore(ns, ord) && Elems(ord) <= vis
  }

  /** Marked nodes not yet listed: the nodes whose search is still running. */
  predicate PendingAbove(vis: set<nat>, ord: seq<nat>, v: int)
  {
    forall x :: x in vis && x !in ord ==> x > v
  }

  /** The recursive `buildNodes` step: mark v, search its operands in order,
      then list v. A marked node is skipped. */
  function Visit(ns: seq<Node>, v: nat, vis: set<nat>, ord: seq<nat>): (set<nat>, seq<nat>)
    requires WellFormed(ns) && v < |ns|
    decreases v, 1
  {
    if v in vis then (vis, ord)
    else
      ChildrenOk(ns, v);
      var st := VisitAll(ns, v, Children(ns[v].op), vis + {v}, ord);
      (st.0, st.1 + [v])
  }

  /** The `children.forEach` loop of `buildNodes`, over the operands cs of p. */
  function VisitAll(ns: seq<Node>, p: nat, cs: seq<nat>, vis: set<nat>, ord: seq<nat>): (set<nat>, seq<nat>)
    requires WellFormed(ns) && p < |ns|
    requires AllBelow(cs, p)
    decreases p, 0, |cs|
  {
    if cs == [] then (vis, ord)
    else
      var st := VisitAll(ns, p, cs[..|cs| - 1], vis, ord);
      Visit(ns, cs[|cs| - 1], st.0, st.1)
  }

  /** The list `nodes()` returns for root. */
  function PostOrder(ns: seq<Node>, root: nat): seq<nat>
    requires WellFormed(ns) && root < |ns|
  {
    Visit(ns, root, {}, []).1
  }

  lemma ChildrenOk(ns: seq<Node>, v: nat)
    requires WellFormed(ns) && v < |ns|
    ensures forall c :: c in Children(ns[v].op) ==> c < v
    ensures AllBelow(Children(ns[v].op), v)
  {
    var cs := Children(ns[v].op);
    forall i | 0 <= i < |cs| ensures cs[i] < v {
      ChildBelow(ns, v, cs[i]);
    }
  }

  /** A reachable node is never above the node it is reached from. */
  lemma {:induction false} ReachBelow(ns: seq<Node>, v: nat)
    requires WellFormed(ns) && v < |ns|
    ensures forall x :: x in Reach(ns, v) ==> x <= v
    decreases v, 1
  {
    ChildrenOk(ns, v);
    ReachAllBelow(ns, v, Children(ns[v].op));
  }

  lemma {:induction false} ReachAllBelow(ns: seq<Node>, p: nat, cs: seq<nat>)
    requires WellFormed(ns) && p < |ns|
    requires AllBelow(cs, p)
    ensures forall x :: x in ReachAll(ns, p, cs) ==> x < p
    decreases p, 0, |cs|
  {
    if cs != [] {
      ReachAllBelow(ns, p, cs[..|cs| - 1]);
      ReachBelow(ns, cs[|cs| - 1]);
    }
  }

  /** ReachAll is the union of the operands' reachable sets. */
  lemma {:induction false} ReachAllMember(ns: seq<Node>, p: nat, cs: seq<nat>, x: nat)
    requires WellFormed(ns) && p < |ns|
    requires AllBelow(cs, p)
    ensures x in ReachAll(ns, p, cs) <==> exists c :: c in cs && x in Reach(ns, c)
    decreases |cs|
  {
    if cs != [] {
      var init, last := cs[..|cs| - 1], cs[|cs| - 1];
      ReachAllMember(ns, p, init, x);
      assert cs == init + [last];
      if x in ReachAll(ns, p, cs) {
        if x in Reach(ns, last) {
          assert last in cs;
        } else {
          var c :| c in init && x in Reach(ns, c);
          assert c in cs;
        }
      }
      if exists c :: c in cs && x in Reach(ns, c) {
        var c :| c in cs && x in Reach(ns, c);
        assert c in init || c == last;
      }
    }
  }

  /** Operands of a reachable node are reachable. */
  lemma ChildReachable(ns: seq<Node>, root: nat, u: nat, c: nat)
    requires WellFormed(ns) && root < |ns| && u < |ns|
    requires u in Reach(ns, root) && c in Children(ns[u].op)
    ensures c in Reach(ns, root)
  {
    ReachTrans(ns, root, u);
    ChildrenOk(ns, u);
    ReachAllMember(ns, u, Children(ns[u].op), c);
  }

  /** Reachability is transitive. */
  lemma {:induction false} ReachTrans(ns: seq<Node>, root: nat, u: nat)
    requires WellFormed(ns) && root < |ns| && u < |ns|
    requires u in Reach(ns, root)
    ensures Reach(ns, u) <= Reach(ns, root)
    decreases root
  {
    if u != root {
      ChildrenOk(ns, root);
      var cs := Children(ns[root].op);
      ReachAllMember(ns, root, cs, u);
      var c :| c in cs && u in Reach(ns, c);
      ReachTrans(ns, c, u);
      forall x | x in Reach(ns, c) ensures x in Reach(ns, root) {
        ReachAllMember(ns, root, cs, x);
      }
    }
  }

  /** Whatever an operand reaches, the node that uses it reaches too. */
  lemma Operand(ns: seq<Node>, k: nat, c: nat)
    requires WellFormed(ns) && k < |ns| && c in Children(ns[k].op)
    ensures c < k && c in Reach(ns, k) && Reach(ns, c) <= Reach(ns, k)
  {
    ChildrenOk(ns, k);
    ChildReachable(ns, k, k, c);
    ReachTrans(ns, k, c);
  }

  /** Appending nodes does not change what an existing node reaches. */
  lemma {:induction false} ReachPrefix(ns: seq<Node>, ms: seq<Node>, v: nat)
    requires WellFormed(ms) && ns <= ms && v < |ns|
    ensures WellFormed(ns) && Reach(ns, v) == Reach(ms, v)
    decreases v, 1
  {
    WellFormedPrefix(ns, ms);
    assert ns[v] == ms[v];
    ChildrenOk(ns, v);
    ReachAllPrefix(ns, ms, v, Children(ns[v].op));
  }

  lemma {:induction false} ReachAllPrefix(ns: seq<Node>, ms: seq<Node>, p: nat, cs: seq<nat>)
    requires WellFormed(ms) && ns <= ms && p < |ns| && AllBelow(cs, p)
    ensures WellFormed(ns) && ReachAll(ns, p, cs) == ReachAll(ms, p, cs)
    decreases p, 0, |cs|
  {
    WellFormedPrefix(ns, ms);
    if cs != [] {
      ReachAllPrefix(ns, ms, p, cs[..|cs| - 1]);
      ReachPrefix(ns, ms, cs[|cs| - 1]);
    }
  }

  /** Every node of xs is reachable from k: a backward pass from k reaches it. */
  ghost predicate Feeds(ns: seq<Node>, xs: seq<nat>, k: nat)
    requires WellFormed(ns) && k < |ns|
  {
    forall i :: 0 <= i < |xs| ==> xs[i] in Reach(ns, k)
  }

  lemma FeedsGrow(ns: seq<Node>, ms: seq<Node>, xs: seq<nat>, k: nat)
    requires WellFormed(ms) && ns <= ms && k < |ns|
    requires WellFormed(ns) && Feeds(ns, xs, k)
    ensures Feeds(ms, xs, k)
  {
    ReachPrefix(ns, ms, k);
  }

  /** What c feeds, every node reaching c feeds too. */
  lemma FeedsThrough(ns: seq<Node>, xs: seq<nat>, c: nat, k: nat)
    requires WellFormed(ns) && c < |ns| && k < |ns|
    requires Feeds(ns, xs, c) && c in Reach(ns, k)
    ensures Feeds(ns, xs, k)
  {
    ReachTrans(ns, k, c);
  }

  /** A list that lists operands first holds everything reachable from its members. */
  lemma {:induction false} ClosedReach(ns: seq<Node>, ord: seq<nat>, v: nat)
    requires WellFormed(ns) && v < |ns| && ChildrenBefore(ns, ord) && v in ord
    ensures Reach(ns, v) <= Elems(ord)
    decreases v
  {
    var k :| 0 <= k < |ord| && ord[k] == v;
    assert ChildrenIn(ns, v, ord[..k]);
    ChildrenOk(ns, v);
    var cs := Children(ns[v].op);
    forall x | x in Reach(ns, v) ensures x in Elems(ord) {
      if x != v {
        ReachAllMember(ns, v, cs, x);
        var c :| c in cs && x in Reach(ns, c);
        assert c in ord[..k];
        ClosedReach(ns, ord, c);
      }
    }
  }

  lemma SnocFacts(s: seq<nat>, x: nat)
    ensures (s + [x])[..|s|] == s
    ensures Elems(s + [x]) == Elems(s) + {x}
  {
    assert (s + [x])[..|s|] == s;
    forall y ensures y in Elems(s + [x]) <==> y in Elems(s) + {x} {
      assert y in s + [x] <==> y in s || y == x;
    }
  }

  /** Listing a marked node whose operands are already listed keeps the
      search invariant. */
  lemma SnocSearch(ns: seq<Node>, vis: set<nat>, ord: seq<nat>, v: nat)
    requires SearchInv(ns, vis, ord) && v < |ns| && v in vis && v !in ord
    requires ChildrenIn(ns, v, ord)
    ensures SearchInv(ns, vis, ord + [v])
  {
    var ord' := ord + [v];
    SnocFacts(ord, v);
    forall i, j | 0 <= i < j < |ord'| ensures ord'[i] != ord'[j] {
      if j < |ord| { assert ord'[i] == ord[i] && ord'[j] == ord[j]; }
      else { assert ord'[i] == ord[i]; }
    }
    forall k | 0 <= k < |ord'| ensures ord'[k] < |ns| && ChildrenIn(ns, ord'[k], ord'[..k]) {
      if k < |ord| {
        assert ord'[k] == ord[k] && ord'[..k] == ord[..k];
      } else {
        assert ord'[..k] == ord;
      }
    }
  }

  lemma PrefixTrans(a: seq<nat>, b: seq<nat>, c: seq<nat>)
    requires a <= b && b <= c
    ensures a <= c
  {
  }

  /** What one call of the search does: everything reachable from v becomes
      marked and listed, what was listed stays a prefix, and a node not yet
      marked ends the list. */
  lemma {:induction false} VisitSpec(ns: seq<Node>, v: nat, vis: set<nat>, ord: seq<nat>)
    requires WellFormed(ns) && v < |ns|
    requires SearchInv(ns, vis, ord) && PendingAbove(vis, ord, v)
    ensures Searched(ns, vis, ord, Reach(ns, v), Visit(ns, v, vis, ord))
    ensures var st := Visit(ns, v, vis, ord);
      v !in vis ==> |st.1| > 0 && st.1[|st.1| - 1] == v
    decreases v, 1
  {
    ReachBelow(ns, v);
    if v in vis {
      assert v in ord;
      ClosedReach(ns, ord, v);
    } else {
      ChildrenOk(ns, v);
      var cs := Children(ns[v].op);
      VisitAllSpec(ns, v, cs, vis + {v}, ord);
      var st := VisitAll(ns, v, cs, vis + {v}, ord);
      ReachAllBelow(ns, v, cs);
      assert v !in Elems(ord);
      assert v !in Elems(st.1);
      assert v !in st.1;
      forall c | c in cs ensures c in st.1 {
        ReachAllMember(ns, v, cs, c);
        assert c in Reach(ns, c);
        assert c in Elems(st.1);
      }
      var ord' := st.1 + [v];
      SnocSearch(ns, st.0, st.1, v);
      SnocFacts(st.1, v);
      assert Visit(ns, v, vis, ord) == (st.0, ord');
      PrefixTrans(ord, st.1, ord');
    }
  }

  /** Marking and listing the same nodes keeps the pending ones pending. */
  lemma PendingGrow(vis: set<nat>, ord: seq<nat>, v: int, r: set<nat>, vis1: set<nat>, ord1: seq<nat>, c: int)
    requires PendingAbove(vis, ord, v) && c <= v
    requires vis1 == vis + r && Elems(ord1) == Elems(ord) + r
    ensures PendingAbove(vis1, ord1, c)
  {
    forall x | x in vis1 && x !in ord1 ensures x > c {
      assert x !in Elems(ord1);
      assert x in vis && x !in Elems(ord);
    }
  }

  /** A search from state (vis, ord) that ended in st has marked and listed
      exactly the nodes r besides those, keeping the list so far as a prefix. */
  predicate Searched(ns: seq<Node>, vis: set<nat>, ord: seq<nat>, r: set<nat>, st: (set<nat>, seq<nat>))
  {
    SearchInv(ns, st.0, st.1) && st.0 == vis + r && Elems(st.1) == Elems(ord) + r && ord <= st.1
  }

  /** Two searches in a row have searched the union of what each did. */
  lemma SearchedJoin(ns: seq<Node>, vis: set<nat>, ord: seq<nat>, r1: set<nat>, r2: set<nat>,
                     st1: (set<nat>, seq<nat>), st2: (set<nat>, seq<nat>))
    requires Searched(ns, vis, ord, r1, st1) && Searched(ns, st1.0, st1.1, r2, st2)
    ensures Searched(ns, vis, ord, r1 + r2, st2)
  {
    PrefixTrans(ord, st1.1, st2.1);
  }

  lemma {:induction false} VisitAllSpec(ns: seq<Node>, p: nat, cs: seq<nat>, vis: set<nat>, ord: seq<nat>)
    requires WellFormed(ns) && p < |ns|
    requires AllBelow(cs, p)
    requires SearchInv(ns, vis, ord) && PendingAbove(vis, ord, p - 1)
    ensures Searched(ns, vis, ord, ReachAll(ns, p, cs), VisitAll(ns, p, cs, vis, ord))
    decreases p, 0, |cs|
  {
    if cs == [] {
      assert Elems(ord) + {} == Elems(ord);
    } else {
      var init := cs[..|cs| - 1];
      var c := cs[|cs| - 1];
      VisitAllSpec(ns, p, init, vis, ord);
      var st := VisitAll(ns, p, init, vis, ord);
      PendingGrow(vis, ord, p - 1, ReachAll(ns, p, init), st.0, st.1, c);
      VisitSpec(ns, c, st.0, st.1);
      SearchedJoin(ns, vis, ord, ReachAll(ns, p, init), Reach(ns, c), st, Visit(ns, c, st.0, st.1));
    }
  }

  /** `nodes()` lists every node reachable from the root exactly once, each
      after all of its operands, and ends with the root. */
  lemma TopoSpec(ns: seq<Node>, root: nat)
    requires WellFormed(ns) && root < |ns|
    ensures var t := PostOrder(ns, root);
      NoDup(t) && Elems(t) == Reach(ns, root) && ChildrenBefore(ns, t)
      && |t| > 0 && t[|t| - 1] == root
  {
    assert Elems([]) == {};
    VisitSpec(ns, root, {}, []);
  }
}
