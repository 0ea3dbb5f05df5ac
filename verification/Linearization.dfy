/** The total order of a block's past: chain block by chain block, what each merges, then itself. */
module Linearization {
  import opened Types
  import opened Dag
  import opened Ghostdag
  import opened BlueSets
  import opened Colouring
  import opened Agreement

  ghost function MergedBlocks(d: GhostdagData): set<Hash> {
    if |d.blues| == 0 then {} else Listed(d.blues[1..]) + Listed(d.reds)
  }

  /** The selected parents from genesis to `b`. */
  ghost function Chain(g: Graph, gd: Ghosts, b: Hash): seq<Hash>
    decreases if b in g.past then g.past[b] else {}
  {
    if b == g.genesis || b !in gd then [b] else
      var sp := gd[b].selectedParent;
      if b in g.past && sp in g.past && g.past[sp] < g.past[b] then Chain(g, gd, sp) + [b] else [b]
  }

  /** The order up to `b`. */
  ghost function Linear(g: Graph, gd: Ghosts, b: Hash): seq<Hash>
    decreases if b in g.past then g.past[b] else {}
  {
    if b == g.genesis || b !in gd then [b] else
      var sp := gd[b].selectedParent;
      if b in g.past && sp in g.past && g.past[sp] < g.past[b] then
        Linear(g, gd, sp) + InOrder(gd, MergedBlocks(gd[b])) + [b] else [b]
  }

  lemma {:induction false} LinearStep(g: Graph, gd: Ghosts, b: Hash)
    requires GdOk(g, gd) && b in gd && b != ORIGIN && b != g.genesis
    ensures var sp := gd[b].selectedParent;
      && sp in gd && sp in g.past && b in g.past && sp != ORIGIN && g.past[sp] < g.past[b]
      && MergedBlocks(gd[b]) == MergeSet(g.past, b, sp)
      && Linear(g, gd, b) == Linear(g, gd, sp) + InOrder(gd, MergeSet(g.past, b, sp)) + [b]
      && Chain(g, gd, b) == Chain(g, gd, sp) + [b]
  {
    SelectedBelow(g, gd, b);
    BluesMerged(g, gd, b);
  }

  /** No block comes before a block that it precedes, and none comes twice. */
  ghost predicate InTurn(past: Pasts, order: seq<Hash>) {
    forall i, j :: 0 <= i < j < |order| ==> !Below(past, order[j], order[i])
  }

  lemma {:induction false} InTurnConcat(past: Pasts, u: seq<Hash>, v: seq<Hash>)
    requires InTurn(past, u) && InTurn(past, v)
    requires forall x, y :: x in u && y in v ==> !Below(past, y, x)
    ensures InTurn(past, u + v)
  {
    forall i, j | 0 <= i < j < |u + v|
      ensures !Below(past, (u + v)[j], (u + v)[i])
    {
      if i < |u| <= j {
        assert u[i] in u && v[j - |u|] in v;
      } else if j < |u| {
        assert !Below(past, u[j], u[i]);
      } else {
        assert !Below(past, v[j - |u|], v[i - |u|]);
      }
    }
  }

  lemma {:induction false} ListedConcat(u: seq<Hash>, v: seq<Hash>)
    ensures Listed(u + v) == Listed(u) + Listed(v)
  {
  }

  /** The order up to `b` lists `b` and its past. */
  lemma {:induction false} LinearCovers(g: Graph, gd: Ghosts, b: Hash)
    requires GdOk(g, gd) && b in gd && b != ORIGIN
    ensures b in g.past && Listed(Linear(g, gd, b)) == g.past[b] - {ORIGIN} + {b}
    decreases if b in g.past then g.past[b] else {}
  {
    RootPasts(g);
    if b == g.genesis {
      assert Listed([b]) == {b};
    } else {
      LinearStep(g, gd, b);
      SelectedBelow(g, gd, b);
      var sp := gd[b].selectedParent;
      var merge := InOrder(gd, MergeSet(g.past, b, sp));
      LinearCovers(g, gd, sp);
      OriginBelow(g, sp);
      hide GdOk, Linear;
      ListedConcat(Linear(g, gd, sp), merge);
      ListedSnoc(Linear(g, gd, sp) + merge, b);
    }
  }

  lemma {:induction false} MergeAfterChain(g: Graph, gd: Ghosts, sp: Hash, u: seq<Hash>, v: seq<Hash>)
    requires GdOk(g, gd) && sp in g.past && Listed(u) <= g.past[sp] + {sp} &&
      (forall y :: y in Listed(v) ==> !Below(g.past, y, sp))
    requires InTurn(g.past, u) && InTurn(g.past, v)
    ensures InTurn(g.past, u + v)
  {
    forall x, y | x in u && y in v
      ensures !Below(g.past, y, x)
    {
      assert x in Listed(u) && y in Listed(v);
      PastAbove(g, gd, y, x, sp);
    }
    InTurnConcat(g.past, u, v);
  }

  lemma {:induction false} BlockLast(g: Graph, u: seq<Hash>, b: Hash)
    requires Rooted(g) && b in g.past && Listed(u) <= g.past[b] && InTurn(g.past, u)
    ensures InTurn(g.past, u + [b])
  {
    forall x, y | x in u && y in [b]
      ensures !Below(g.past, y, x)
    {
      assert x in Listed(u);
      NotOwnPast(g.parents, g.past, b);
      if Below(g.past, b, x) {
        PastTrans(g.parents, g.past, b, x, b);
      }
    }
    hide Below;
    InTurnConcat(g.past, u, [b]);
  }

  /** The order up to `b` lists each block once and after all its ancestors. */
  lemma {:induction false} LinearInTurn(g: Graph, gd: Ghosts, b: Hash)
    requires GdOk(g, gd) && b in gd && b != ORIGIN
    ensures InTurn(g.past, Linear(g, gd, b))
    decreases if b in g.past then g.past[b] else {}
  {
    if b != g.genesis {
      LinearStep(g, gd, b);
      SelectedBelow(g, gd, b);
      var sp := gd[b].selectedParent;
      LinearInTurn(g, gd, sp);
      LinearCovers(g, gd, sp);
      OriginBelow(g, sp);
      MergeInTurn(g, gd, b);
      var u, v := Linear(g, gd, sp), InOrder(gd, MergeSet(g.past, b, sp));
      hide GdOk, Linear, InOrder, InTurn;
      MergeAfterChain(g, gd, sp, u, v);
      ListedConcat(u, v);
      BlockLast(g, u + v, b);
    }
  }

  lemma {:induction false} MergeInTurn(g: Graph, gd: Ghosts, b: Hash)
    requires GdOk(g, gd) && b in gd && b != ORIGIN && b != g.genesis
    ensures var sp := gd[b].selectedParent;
      sp in g.past && b in g.past && InTurn(g.past, InOrder(gd, MergeSet(g.past, b, sp)))
  {
    SelectedBelow(g, gd, b);
    var order := InOrder(gd, MergeSet(g.past, b, gd[b].selectedParent));
    OriginBelow(g, gd[b].selectedParent);
    forall i, j | 0 <= i < j < |order|
      ensures !Below(g.past, order[j], order[i])
    {
      assert order[i] in Listed(order) && order[j] in Listed(order);
      PastInside(g.parents, g.past, order[i], b);
      PastInside(g.parents, g.past, order[j], b);
      EarlierNotAbove(g, gd, order, i, j);
    }
  }

  /** Parents come first. */
  lemma {:induction false} ParentsFirst(g: Graph, gd: Ghosts, b: Hash, j: nat, p: Hash) returns (i: nat)
    requires GdOk(g, gd) && b in gd && b != ORIGIN && j < |Linear(g, gd, b)|
    requires var x := Linear(g, gd, b)[j]; x in g.parents && p in g.parents[x] && p != ORIGIN
    ensures i < j && Linear(g, gd, b)[i] == p
  {
    var order := Linear(g, gd, b);
    LinearCovers(g, gd, b);
    LinearInTurn(g, gd, b);
    var x := order[j];
    assert x in Listed(order);
    PastSmaller(g.parents, g.past, p, x);
    assert Below(g.past, x, b);
    PastTrans(g.parents, g.past, p, x, b);
    assert p in Listed(order);
    i :| 0 <= i < |order| && order[i] == p;
    NotOwnPast(g.parents, g.past, x);
    assert Below(g.past, p, x);
  }

  /** The order up to a chain block is the beginning of the order up to any later one. */
  lemma {:induction false} ChainPrefix(g: Graph, gd: Ghosts, c: Hash, b: Hash)
    requires GdOk(g, gd) && b in gd && b != ORIGIN && c in Chain(g, gd, b)
    ensures Linear(g, gd, c) <= Linear(g, gd, b)
    decreases if b in g.past then g.past[b] else {}
  {
    if b != g.genesis && c != b {
      LinearStep(g, gd, b);
      var sp := gd[b].selectedParent;
      assert c in Chain(g, gd, sp);
      ChainPrefix(g, gd, c, sp);
    }
  }

  /** The order up to `b` depends on the past of `b` alone. */
  lemma {:induction false} LinearAgrees(g: Graph, gd: Ghosts, g': Graph, gd': Ghosts, b: Hash)
    requires GdOk(g, gd) && GdOk(g', gd') && g.k == g'.k && g.genesis == g'.genesis
    requires b in gd && b != ORIGIN && SameDag(g, g', b)
    ensures Linear(g, gd, b) == Linear(g', gd', b) && Chain(g, gd, b) == Chain(g', gd', b)
    decreases if b in g.past then g.past[b] else {}
  {
    DataAgrees(g, gd, g', gd', b);
    if b != g.genesis {
      LinearStep(g, gd, b);
      LinearStep(g', gd', b);
      SelectedBelow(g, gd, b);
      var sp := gd[b].selectedParent;
      SameDagBelow(g, g', sp, b);
      LinearAgrees(g, gd, g', gd', sp);
      AncestorsAgree(g, gd, g', gd', b);
      hide GdOk, Linear, Chain, SameOn;
      InOrderSame(g.past, gd, g'.past, gd', g.past[b], MergeSet(g.past, b, sp));
      DataAgrees(g, gd, g', gd', sp);
    }
  }

  lemma {:induction false} AncestorsAgree(g: Graph, gd: Ghosts, g': Graph, gd': Ghosts, b: Hash)
    requires GdOk(g, gd) && GdOk(g', gd') && g.k == g'.k && g.genesis == g'.genesis
    requires b in gd && SameDag(g, g', b)
    ensures b in g.past && SameOn(g.past, gd, g'.past, gd', g.past[b])
  {
    forall h | h in g.past[b]
      ensures SameAt(g.past, gd, g'.past, gd', g.past[b], h)
    {
      PastInside(g.parents, g.past, h, b);
      SameDagBelow(g, g', h, b);
      DataAgrees(g, gd, g', gd', h);
    }
  }

  /** The chain of `b` leads from genesis to `b`, each block the selected parent of the next. */
  lemma {:induction false} ChainLinks(g: Graph, gd: Ghosts, b: Hash)
    requires GdOk(g, gd) && b in gd && b != ORIGIN
    ensures var chain := Chain(g, gd, b);
      && |chain| > 0 && chain[0] == g.genesis && chain[|chain| - 1] == b
      && (forall i :: 0 <= i < |chain| ==> chain[i] in gd && chain[i] != ORIGIN)
      && (forall i :: 0 < i < |chain| ==>
        chain[i] in gd && chain[i] != g.genesis && gd[chain[i]].selectedParent == chain[i - 1])
    decreases if b in g.past then g.past[b] else {}
  {
    if b != g.genesis {
      LinearStep(g, gd, b);
      ChainLinks(g, gd, gd[b].selectedParent);
    }
  }
}
