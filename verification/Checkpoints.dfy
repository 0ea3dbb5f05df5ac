/** When a checkpoint still fits: comparing its last block with the order at the same place. */
module Checkpoints {
  import opened Types
  import opened Dag
  import opened Ghostdag
  import opened Colouring
  import opened Linearization
  import opened Engine
  import opened Anchor
  import opened DagState
  import opened Pruning

  /** The chain block that merges a block of the order which is not on the chain itself. */
  lemma {:induction false} MergedBy(g: Graph, gd: Ghosts, v: Hash, x: Hash) returns (y: Hash)
    requires GdOk(g, gd) && v in gd && v != ORIGIN && x in Linear(g, gd, v) && x !in Chain(g, gd, v)
    ensures y in gd && y in g.past && y != ORIGIN && y != g.genesis
    ensures gd[y].selectedParent in gd && gd[y].selectedParent in g.past && gd[y].selectedParent != ORIGIN
    ensures x in MergeSet(g.past, y, gd[y].selectedParent)
    ensures Linear(g, gd, y) <= Linear(g, gd, v)
    decreases if v in g.past then g.past[v] else {}
  {
    assert v != g.genesis;
    LinearStep(g, gd, v);
    SelectedBelow(g, gd, v);
    var sp := gd[v].selectedParent;
    var merge := InOrder(gd, MergeSet(g.past, v, sp));
    if x in merge {
      assert x in Listed(merge);
      y := v;
    } else {
      y := MergedBy(g, gd, sp, x);
    }
  }

  /** What comes before `x` in an order holds everything that precedes `x`. */
  lemma {:induction false} PastBefore(g: Graph, gd: Ghosts, v: Hash, n: nat)
    requires GdOk(g, gd) && v in gd && v != ORIGIN && 0 < n <= |Linear(g, gd, v)|
    ensures var x := Linear(g, gd, v)[n - 1];
      x in g.past && x != ORIGIN && g.past[x] - {ORIGIN} <= Listed(Linear(g, gd, v)[..n - 1])
  {
    var order := Linear(g, gd, v);
    var x := order[n - 1];
    LinearCovers(g, gd, v);
    LinearInTurn(g, gd, v);
    GraphParts(g, gd);
    assert x in Listed(order);
    if x != v {
      PastInside(g.parents, g.past, x, v);
    }
    forall a | a in g.past[x] - {ORIGIN}
      ensures a in Listed(order[..n - 1])
    {
      assert Below(g.past, a, x) && Below(g.past, x, v);
      PastTrans(g.parents, g.past, a, x, v);
      assert a in Listed(order);
      var i :| 0 <= i < |order| && order[i] == a;
      NotOwnPast(g.parents, g.past, x);
      assert forall j :: n - 1 < j < |order| ==> !Below(g.past, order[j], x);
      assert order[..n - 1][i] == a;
    }
  }

  /** A merged block has a block before it that does not precede it: the selected parent of the block
      that merges it. */
  lemma {:induction false} SelectedBefore(g: Graph, gd: Ghosts, v: Hash, n: nat) returns (s: Hash)
    requires GdOk(g, gd) && v in gd && v != ORIGIN && 0 < n <= |Linear(g, gd, v)| &&
      Linear(g, gd, v)[n - 1] !in Chain(g, gd, v)
    ensures s in Listed(Linear(g, gd, v)[..n - 1]) && Linear(g, gd, v)[n - 1] in g.past &&
      s !in g.past[Linear(g, gd, v)[n - 1]]
  {
    var order := Linear(g, gd, v);
    var x := order[n - 1];
    PastBefore(g, gd, v, n);
    var y := MergedBy(g, gd, v, x);
    SelectedBelow(g, gd, y);
    LinearStep(g, gd, y);
    s := gd[y].selectedParent;
    HeavierSelected(g, gd, y, x);
    SelectedNotAbove(g, gd, y, s, x);
    hide GdOk, Linear, Chain, MergeSet;
    NotYet(order, Linear(g, gd, s), n);
  }

  lemma {:induction false} SelectedNotAbove(g: Graph, gd: Ghosts, y: Hash, s: Hash, x: Hash)
    requires GdOk(g, gd) && s in gd && s in g.past && s != ORIGIN && y in g.past && x in MergeSet(g.past, y, s)
    requires Linear(g, gd, y) == Linear(g, gd, s) + InOrder(gd, MergeSet(g.past, y, s)) + [y]
    ensures |Linear(g, gd, s)| > 0 && Linear(g, gd, s)[|Linear(g, gd, s)| - 1] == s && x !in Listed(Linear(g, gd, s))
    ensures Linear(g, gd, s) <= Linear(g, gd, y)
  {
    LastIsBlock(g, gd, s);
    LinearCovers(g, gd, s);
  }

  /** The last of a beginning without `order[n - 1]` comes before it. */
  lemma {:induction false} NotYet(order: seq<Hash>, before: seq<Hash>, n: nat)
    requires |before| > 0 && before <= order && 0 < n <= |order| && order[n - 1] !in Listed(before)
    ensures before[|before| - 1] in Listed(order[..n - 1])
  {
    assert forall i :: 0 <= i < |before| ==> before[i] in Listed(before);
    assert |before| <= n - 1;
    assert order[..n - 1][|before| - 1] == before[|before| - 1];
  }

  /** What a block merges is no heavier than its selected parent, so it does not follow it. */
  lemma {:induction false} HeavierSelected(g: Graph, gd: Ghosts, y: Hash, x: Hash)
    requires GdOk(g, gd) && y in gd && y in g.past && y != ORIGIN && y != g.genesis && x in g.past && x != ORIGIN
    requires gd[y].selectedParent in g.past && x in MergeSet(g.past, y, gd[y].selectedParent)
    ensures gd[y].selectedParent !in g.past[x]
  {
    SelectedBelow(g, gd, y);
    var s := gd[y].selectedParent;
    assert PastStep(g.parents, g.past, y);
    var p :| p in g.parents[y] && Below(g.past, x, p);
    assert p in Listed(g.parents[y]);
    GraphParts(g, gd);
    PastSmaller(g.parents, g.past, p, y);
    if x != p {
      WorkGrows(g, gd, x, p);
    }
    if s in g.past[x] {
      WorkGrows(g, gd, s, x);
    }
    assert p == s || Less(gd, p, s);
  }

  /** Two orders that have a block at the same place have the same beginning up to it, if the block is
      on the selected chain of one of them: no other block can come before it. */
  lemma {:induction false} MatchIsExact(g: Graph, gd: Ghosts, u: Hash, v: Hash, n: nat)
    requires GdOk(g, gd) && u in gd && u != ORIGIN && v in gd && v != ORIGIN
    requires 0 < n <= |Linear(g, gd, u)| && n <= |Linear(g, gd, v)| &&
      Linear(g, gd, u)[n - 1] == Linear(g, gd, v)[n - 1]
    requires Linear(g, gd, u)[n - 1] in Chain(g, gd, u)
    ensures Linear(g, gd, u)[..n] == Linear(g, gd, v)[..n] && Linear(g, gd, v)[n - 1] in Chain(g, gd, v)
  {
    hide Linear, Chain, GdOk;
    var x := Linear(g, gd, u)[n - 1];
    PrunePlace(g, gd, u, n - 1);
    NotMerged(g, gd, v, n);
    PrunePlace(g, gd, v, n - 1);
  }

  /** A block whose own order is as long as its place says is on the chain. */
  lemma {:induction false} NotMerged(g: Graph, gd: Ghosts, v: Hash, n: nat)
    requires GdOk(g, gd) && v in gd && v != ORIGIN && 0 < n <= |Linear(g, gd, v)|
    requires var x := Linear(g, gd, v)[n - 1]; x in gd && x != ORIGIN && |Linear(g, gd, x)| == n
    ensures Linear(g, gd, v)[n - 1] in Chain(g, gd, v)
  {
    hide Linear, Chain, GdOk;
    var x, front := Linear(g, gd, v)[n - 1], Linear(g, gd, v)[..n - 1];
    PastBefore(g, gd, v, n);
    PastSize(g, gd, x);
    ListedSize(front);
    OriginLast(g, gd, v, n);
    if x !in Chain(g, gd, v) {
      var s := SelectedBefore(g, gd, v, n);
      TooMany(g.past[x] - {ORIGIN}, Listed(front), s);
    }
  }

  lemma {:induction false} PastSize(g: Graph, gd: Ghosts, x: Hash)
    requires GdOk(g, gd) && x in gd && x != ORIGIN
    ensures x in g.past && |g.past[x] - {ORIGIN}| == |Linear(g, gd, x)| - 1
  {
    hide Linear, GdOk;
    LinearCovers(g, gd, x);
    OrderFacts(g, gd, x);
    GraphParts(g, gd);
    NotOwnPast(g.parents, g.past, x);
    DistinctSize(Linear(g, gd, x));
    OneMore(g.past[x] - {ORIGIN}, x);
  }

  lemma {:induction false} TooMany(a: set<Hash>, b: set<Hash>, s: Hash)
    requires a <= b && s in b && s !in a
    ensures |a| < |b|
  {
    OneMore(a, s);
    SubsetCount(a + {s}, b);
  }

  lemma {:induction false} OriginLast(g: Graph, gd: Ghosts, v: Hash, n: nat)
    requires GdOk(g, gd) && v in gd && v != ORIGIN && n <= |Linear(g, gd, v)|
    ensures ORIGIN !in Listed(Linear(g, gd, v)[..n]) && (n > 0 ==> ORIGIN !in Listed(Linear(g, gd, v)[..n - 1]))
  {
    LinearCovers(g, gd, v);
    assert forall b :: b in Linear(g, gd, v)[..n] ==> b in Listed(Linear(g, gd, v));
    assert n > 0 ==> forall b :: b in Linear(g, gd, v)[..n - 1] ==> b in Listed(Linear(g, gd, v));
  }
}
