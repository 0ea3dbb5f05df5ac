/** Re-anchoring: the DAG above a pruning point, with that point as the new genesis, is coloured and
    ordered as before. */
module Anchor {
  import opened Types
  import opened Dag
  import opened Ghostdag
  import opened BlueSets
  import opened Colouring
  import opened Agreement
  import opened Linearization

  ghost predicate Kept(g: Graph, g': Graph, p: Hash, b: Hash) {
    && b in g.parents && b in g'.parents && b in g.past
    && (b != p ==> p in g.past[b] && Listed(g'.parents[b]) == Listed(g.parents[b]))
  }

  /** `g'` is what `g` has above `p`: every kept block descends from `p` and keeps its parents. */
  ghost predicate Reanchored(g: Graph, gd: Ghosts, g': Graph, gd': Ghosts, p: Hash) {
    && GdOk(g, gd) && GdOk(g', gd') && g'.k == g.k && g'.genesis == p
    && p in gd && p != ORIGIN
    && forall b {:trigger Kept(g, g', p, b)} :: b in g'.parents && b != ORIGIN ==> Kept(g, g', p, b)
  }

  /** The kept blocks: those of the new graph, without the origin. */
  ghost function Suffix(g': Graph): set<Hash> {
    g'.parents.Keys - {ORIGIN}
  }

  lemma {:induction false} KeptBlock(g: Graph, gd: Ghosts, g': Graph, gd': Ghosts, p: Hash, b: Hash)
    requires Reanchored(g, gd, g', gd', p) && b in Suffix(g')
    ensures b in g.past && b in g'.past && b in gd && b in gd' && Below(g.past, p, b) && Below(g'.past, p, b) &&
      p in Suffix(g') && b in g.parents && b in g'.parents
    ensures b != p ==>
      ORIGIN !in g'.parents[b] && Listed(g'.parents[b]) == Listed(g.parents[b]) && Listed(g.parents[b]) <= Suffix(g')
    ensures b != p ==> b != g.genesis
  {
    assert Kept(g, g', p, b);
    OriginBelow(g', b);
    if b != p {
      assert HasParents(g', b);
      assert PastStep(g'.parents, g'.past, b);
      forall q | q in Listed(g.parents[b])
        ensures q in Suffix(g')
      {
        assert q in Listed(g'.parents[b]);
      }
      RootPasts(g);
    }
  }

  /** Among kept blocks ancestry is as before. */
  lemma {:induction false} AncestryKept(g: Graph, gd: Ghosts, g': Graph, gd': Ghosts, p: Hash, a: Hash, b: Hash)
    requires Reanchored(g, gd, g', gd', p) && a in Suffix(g') && b in Suffix(g')
    ensures b in g.past && b in g'.past && (a in g.past[b] <==> a in g'.past[b])
    decreases if b in g.past then g.past[b] else {}
  {
    KeptBlock(g, gd, g', gd', p, b);
    KeptBlock(g, gd, g', gd', p, a);
    if b == p {
      RootPasts(g');
      PNotBelow(g, gd, g', gd', p, a);
    } else {
      assert PastStep(g.parents, g.past, b) && PastStep(g'.parents, g'.past, b);
      if a in g.past[b] {
        var q :| q in g.parents[b] && Below(g.past, a, q);
        assert q in Listed(g'.parents[b]);
        PastSmaller(g.parents, g.past, q, b);
        AncestryKept(g, gd, g', gd', p, a, q);
        assert q in g'.parents[b] && Below(g'.past, a, q);
      }
      if a in g'.past[b] {
        var q :| q in g'.parents[b] && Below(g'.past, a, q);
        assert q in Listed(g.parents[b]);
        PastSmaller(g.parents, g.past, q, b);
        AncestryKept(g, gd, g', gd', p, a, q);
        assert q in g.parents[b] && Below(g.past, a, q);
      }
    }
  }

  lemma {:induction false} PNotBelow(g: Graph, gd: Ghosts, g': Graph, gd': Ghosts, p: Hash, a: Hash)
    requires Reanchored(g, gd, g', gd', p) && a in Suffix(g')
    ensures p in g.past && a !in g.past[p]
  {
    KeptBlock(g, gd, g', gd', p, a);
    if a in g.past[p] {
      PastInside(g.parents, g.past, a, p);
      NotOwnPast(g.parents, g.past, p);
    }
  }

  /** What a kept block has behind it: kept blocks, and the past of `p`. */
  lemma {:induction false} PastSplit(g: Graph, gd: Ghosts, g': Graph, gd': Ghosts, p: Hash, b: Hash)
    requires Reanchored(g, gd, g', gd', p) && b in Suffix(g')
    ensures b in g.past && p in g.past && b in g'.past
    ensures g.past[b] <= Suffix(g') + g.past[p] && g.past[p] <= g.past[b]
    ensures g'.past[b] == (g.past[b] - g.past[p]) + {ORIGIN}
    decreases if b in g.past then g.past[b] else {}
  {
    KeptBlock(g, gd, g', gd', p, b);
    if b == p {
      RootPasts(g');
    } else {
      forall x | x in g.past[b]
        ensures x in Suffix(g') + g.past[p]
      {
        assert PastStep(g.parents, g.past, b);
        var q :| q in g.parents[b] && Below(g.past, x, q);
        assert q in Listed(g.parents[b]);
        PastSmaller(g.parents, g.past, q, b);
        PastSplit(g, gd, g', gd', p, q);
      }
      PastInside(g.parents, g.past, p, b);
      forall x
        ensures x in g'.past[b] <==> x in (g.past[b] - g.past[p]) + {ORIGIN}
      {
        SplitAt(g, gd, g', gd', p, b, x);
      }
    }
  }

  lemma {:induction false} SplitAt(g: Graph, gd: Ghosts, g': Graph, gd': Ghosts, p: Hash, b: Hash, x: Hash)
    requires Reanchored(g, gd, g', gd', p) && b in Suffix(g') && b != p && b in g.past && p in g.past && b in g'.past
    requires g.past[b] <= Suffix(g') + g.past[p]
    ensures x in g'.past[b] <==> x in (g.past[b] - g.past[p]) + {ORIGIN}
  {
    OriginBelow(g', b);
    if x in Suffix(g') {
      AncestryKept(g, gd, g', gd', p, x, b);
      PNotBelow(g, gd, g', gd', p, x);
    } else if x in g'.past[b] {
      PastInside(g'.parents, g'.past, x, b);
    }
  }

  /** The condition is exact: in the rebuilt graph everything descends from `p`, so if ancestry among
      the kept blocks is unchanged they all descended from `p` before. */
  lemma {:induction false} DescentNeeded(g: Graph, g': Graph, p: Hash, b: Hash)
    requires Rooted(g') && g'.genesis == p && b in Suffix(g') && b != p && b in g.past
    requires forall a, c :: a in Suffix(g') && c in Suffix(g') && c in g.past && c in g'.past ==>
      (a in g.past[c] <==> a in g'.past[c])
    ensures p in g.past[b]
  {
    OriginBelow(g', b);
    assert p in Suffix(g') && p in g'.past[b];
  }

  // ---------- clusters ----------

  /** Old blues never lie in the anticone of kept blocks. */
  lemma {:induction false} AnticoneKept(g: Graph, gd: Ghosts, g': Graph, gd': Ghosts, p: Hash, s: set<Hash>,
                                        s': set<Hash>, old': set<Hash>, x: Hash)
    requires Reanchored(g, gd, g', gd', p) && p in g.past && old' <= g.past[p]
    requires s' <= g'.parents.Keys && s == (s' - {ORIGIN}) + old'
    ensures x in Suffix(g') ==> AnticoneIn(g.past, s, x) == AnticoneIn(g'.past, s', x)
    ensures x in old' ==> AnticoneIn(g.past, s, x) == AnticoneIn(g.past, old', x)
    ensures AnticoneIn(g'.past, s', ORIGIN) == {}
  {
    forall q | q in s || q in s' || q in old'
      ensures x in Suffix(g') ==> (q in AnticoneIn(g.past, s, x) <==> q in AnticoneIn(g'.past, s', x))
      ensures x in old' ==> (q in AnticoneIn(g.past, s, x) <==> q in AnticoneIn(g.past, old', x))
      ensures q in s' ==> q !in AnticoneIn(g'.past, s', ORIGIN)
    {
      PairKept(g, gd, g', gd', p, q, x);
      PairKept(g, gd, g', gd', p, x, q);
      if q in s' {
        OriginBelow(g', q);
      }
      if x in Suffix(g') {
        OriginBelow(g', x);
      }
    }
  }

  lemma {:induction false} PairKept(g: Graph, gd: Ghosts, g': Graph, gd': Ghosts, p: Hash, q: Hash, x: Hash)
    requires Reanchored(g, gd, g', gd', p) && p in g.past
    ensures q in Suffix(g') && x in Suffix(g') ==> (Anticone(g.past, q, x) <==> Anticone(g'.past, q, x))
    ensures q in g.past[p] && x in Suffix(g') ==> Below(g.past, q, x)
    ensures q in Suffix(g') ==> q !in g.past[p]
  {
    if q in Suffix(g') {
      PNotBelow(g, gd, g', gd', p, q);
      if x in Suffix(g') {
        AncestryKept(g, gd, g', gd', p, q, x);
        AncestryKept(g, gd, g', gd', p, x, q);
      }
    } else if q in g.past[p] && x in Suffix(g') {
      KeptBlock(g, gd, g', gd', p, x);
      PastTrans(g.parents, g.past, q, p, x);
    }
  }

  lemma {:induction false} ClusterKept(g: Graph, gd: Ghosts, g': Graph, gd': Ghosts, p: Hash, s: set<Hash>,
                                       s': set<Hash>, old': set<Hash>)
    requires Reanchored(g, gd, g', gd', p) && p in g.past && old' <= g.past[p] && KCluster(g.past, old', g.k)
    requires s' <= g'.parents.Keys && s == (s' - {ORIGIN}) + old'
    ensures KCluster(g.past, s, g.k) <==> KCluster(g'.past, s', g'.k)
  {
    hide AnticoneIn;
    forall x | x in s
      ensures x in Suffix(g') ==> (Bounded(g.past, s, g.k, x) <==> Bounded(g'.past, s', g.k, x))
      ensures x in old' ==> Bounded(g.past, s, g.k, x)
    {
      AnticoneKept(g, gd, g', gd', p, s, s', old', x);
      if x in old' {
        assert Bounded(g.past, old', g.k, x);
      }
    }
    AnticoneKept(g, gd, g', gd', p, s, s', old', ORIGIN);
    assert Bounded(g'.past, s', g.k, ORIGIN);
    hide Bounded, Reanchored;
    if KCluster(g'.past, s', g'.k) {
      forall x | x in s
        ensures Bounded(g.past, s, g.k, x)
      {
        assert x in s' ==> Bounded(g'.past, s', g.k, x);
      }
    }
    if KCluster(g.past, s, g.k) {
      forall x | x in s'
        ensures Bounded(g'.past, s', g.k, x)
      {
        assert x in s ==> Bounded(g.past, s, g.k, x);
      }
    }
  }

  lemma {:induction false} GreedyKept(g: Graph, gd: Ghosts, g': Graph, gd': Ghosts, p: Hash, base: set<Hash>,
                                      base': set<Hash>, old': set<Hash>, order: seq<Hash>)
    requires Reanchored(g, gd, g', gd', p) && p in g.past && old' <= g.past[p] && KCluster(g.past, old', g.k)
    requires base' <= g'.parents.Keys && base == (base' - {ORIGIN}) + old' && Listed(order) <= Suffix(g')
    ensures Greedy(g.past, base, g.k, order) == Greedy(g'.past, base', g'.k, order)
  {
    if |order| > 0 {
      var init, x := order[..|order| - 1], order[|order| - 1];
      assert order == init + [x];
      ListedSnoc(init, x);
      GreedyKept(g, gd, g', gd', p, base, base', old', init);
      GreedyWithin(g.past, base, g.k, init);
      var c := Greedy(g.past, base, g.k, init);
      hide Reanchored, KCluster;
      ClusterKept(g, gd, g', gd', p, base + Listed(c.blues) + {x}, base' + Listed(c.blues) + {x}, old');
    }
  }

  // ---------- data ----------

  /** The data with score and work counted from the new genesis. */
  function Shifted(d: GhostdagData, score: int, work: int): GhostdagData
    requires d.blueScore >= score && d.blueWork >= work
  {
    d.(blueScore := d.blueScore - score, blueWork := d.blueWork - work)
  }

  /** `b` is recorded in the new graph as in the old one, with its work counted from `p`. */
  ghost predicate SameFrom(g: Graph, gd: Ghosts, g': Graph, gd': Ghosts, p: Hash, b: Hash) {
    && b in gd && b in gd' && p in gd
    && gd'[b].blueWork == gd[b].blueWork - gd[p].blueWork && gd'[b].blueScore == gd[b].blueScore - gd[p].blueScore
    && (b != p ==> gd'[b] == Shifted(gd[b], gd[p].blueScore, gd[p].blueWork))
    && BlueSet(g.past, gd, b) == (BlueSet(g'.past, gd', b) - {ORIGIN}) + BlueSet(g.past, gd, p)
    && BlueSet(g'.past, gd', b) <= g'.parents.Keys
  }

  lemma {:induction false} LessKept(g: Graph, gd: Ghosts, g': Graph, gd': Ghosts, p: Hash, s: set<Hash>)
    requires forall b {:trigger SameFrom(g, gd, g', gd', p, b)} :: b in s ==> SameFrom(g, gd, g', gd', p, b)
    ensures forall a, b :: a in s && b in s ==> (Less(gd, a, b) <==> Less(gd', a, b))
  {
    forall a, b | a in s && b in s
      ensures Less(gd, a, b) <==> Less(gd', a, b)
    {
      assert SameFrom(g, gd, g', gd', p, a) && SameFrom(g, gd, g', gd', p, b);
    }
  }

  lemma {:induction false} InOrderKept(gd: Ghosts, gd': Ghosts, s: set<Hash>)
    requires forall a, b :: a in s && b in s ==> (Less(gd, a, b) <==> Less(gd', a, b))
    ensures InOrder(gd, s) == InOrder(gd', s)
  {
    var order := InOrder(gd, s);
    forall i, j | 0 <= i < j < |order|
      ensures Less(gd', order[i], order[j])
    {
      assert order[i] in Listed(order) && order[j] in Listed(order);
    }
    SortedUnique(gd', order, InOrder(gd', s));
  }

  lemma {:induction false} HeaviestKept(gd: Ghosts, gd': Ghosts, s: set<Hash>, m: Hash)
    requires (forall a, b :: a in s && b in s ==> (Less(gd, a, b) <==> Less(gd', a, b))) && Heaviest(gd, s, m)
    ensures Heaviest(gd', s, m)
  {
  }

  lemma {:induction false} MergeKept(g: Graph, gd: Ghosts, g': Graph, gd': Ghosts, p: Hash, b: Hash, sp: Hash)
    requires Reanchored(g, gd, g', gd', p) && b in Suffix(g') && sp in Suffix(g') && sp in g.past && sp in g'.past &&
      b in g.past && b in g'.past
    ensures MergeSet(g.past, b, sp) == MergeSet(g'.past, b, sp) && MergeSet(g.past, b, sp) <= Suffix(g')
  {
    PastSplit(g, gd, g', gd', p, b);
    PastSplit(g, gd, g', gd', p, sp);
    OriginBelow(g', sp);
    forall x
      ensures x in MergeSet(g.past, b, sp) <==> x in MergeSet(g'.past, b, sp)
      ensures x in MergeSet(g.past, b, sp) ==> x in Suffix(g')
    {
      if x in Suffix(g') {
        PNotBelow(g, gd, g', gd', p, x);
      }
    }
  }

  lemma {:induction false} SizesKept(g: Graph, gd: Ghosts, g': Graph, gd': Ghosts, p: Hash, below: set<Hash>,
                                     below': set<Hash>, old': set<Hash>,
                                     blues: seq<Hash>, sizes: map<Hash, nat>)
    requires Reanchored(g, gd, g', gd', p) && p in g.past && old' <= g.past[p]
    requires below' <= g'.parents.Keys && below == (below' - {ORIGIN}) + old' && Listed(blues) <= Suffix(g')
    requires SizesOk(g.past, below, blues, sizes)
    ensures SizesOk(g'.past, below', blues, sizes)
  {
    var all, all' := below + Listed(blues), below' + Listed(blues);
    assert all == (all' - {ORIGIN}) + old';
    forall x
      ensures SizeOk(g'.past, all', blues, sizes, x)
    {
      assert SizeOk(g.past, all, blues, sizes, x);
      TouchedKept(g, gd, g', gd', p, blues, x);
      if x in Suffix(g') {
        hide AnticoneIn, Touched;
        AnticoneKept(g, gd, g', gd', p, all, all', old', x);
        PNotBelow(g, gd, g', gd', p, x);
      }
    }
  }

  lemma {:induction false} TouchedKept(g: Graph, gd: Ghosts, g': Graph, gd': Ghosts, p: Hash, blues: seq<Hash>, x: Hash)
    requires Reanchored(g, gd, g', gd', p) && p in g.past && Listed(blues) <= Suffix(g')
    ensures x in Suffix(g') ==> (Touched(g.past, blues, x) <==> Touched(g'.past, blues, x))
    ensures x in g.past[p] ==> !Touched(g.past, blues, x)
    ensures x == ORIGIN ==> !Touched(g'.past, blues, x)
  {
    forall q | q in blues
      ensures x in Suffix(g') ==> (Anticone(g.past, q, x) <==> Anticone(g'.past, q, x))
      ensures x in g.past[p] ==> q != x && !Anticone(g.past, q, x)
      ensures x == ORIGIN ==> q != x && !Anticone(g'.past, q, x)
    {
      assert q in Listed(blues);
      PairKept(g, gd, g', gd', p, q, x);
      PairKept(g, gd, g', gd', p, x, q);
      KeptBlock(g, gd, g', gd', p, q);
      OriginBelow(g', q);
    }
    hide Anticone, Suffix, Reanchored;
    if x in Suffix(g') {
      if Touched(g.past, blues, x) && x !in blues {
        var q :| q in blues && Anticone(g.past, q, x);
        assert Anticone(g'.past, q, x);
      }
      if Touched(g'.past, blues, x) && x !in blues {
        var q :| q in blues && Anticone(g'.past, q, x);
        assert Anticone(g.past, q, x);
      }
    }
  }

  /** The data of a kept block, seen from the new genesis. */
  lemma {:induction false} DataKept(g: Graph, gd: Ghosts, g': Graph, gd': Ghosts, p: Hash, b: Hash)
    requires Reanchored(g, gd, g', gd', p) && b in Suffix(g')
    ensures SameFrom(g, gd, g', gd', p, b)
    decreases if b in g.past then g.past[b] else {}
  {
    KeptBlock(g, gd, g', gd', p, b);
    RootBlues(g', gd');
    if b != p {
      forall a | a in Suffix(g') && a in g.past[b]
        ensures SameFrom(g, gd, g', gd', p, a)
      {
        PastInside(g.parents, g.past, a, b);
        DataKept(g, gd, g', gd', p, a);
      }
      DataShifts(g, gd, g', gd', p, b);
    }
  }

  lemma {:induction false} DataShifts(g: Graph, gd: Ghosts, g': Graph, gd': Ghosts, p: Hash, b: Hash)
    requires Reanchored(g, gd, g', gd', p) && b in Suffix(g') && b != p && b in g.past
    requires forall a {:trigger SameFrom(g, gd, g', gd', p, a)} :: a in Suffix(g') && a in g.past[b] ==>
      SameFrom(g, gd, g', gd', p, a)
    ensures SameFrom(g, gd, g', gd', p, b)
  {
    hide Reanchored, GdOk, DataOk, BlueSet, Less;
    ReanchoredParts(g, gd, g', gd', p);
    KeptBlock(g, gd, g', gd', p, b);
    SelectedBelow(g, gd, b);
    var sp := gd[b].selectedParent;
    assert sp in Listed(g.parents[b]);
    KeptBlock(g, gd, g', gd', p, sp);
    assert SameFrom(g, gd, g', gd', p, sp);
    WorkAbove(g, gd, p, b);
    KnownRight(g', gd', b);
    ParentsWithinGraph(g, gd, b);
    var s := Suffix(g') * g.past[b];
    LessKept(g, gd, g', gd', p, s);
    ShiftedRight(g, gd, g', gd', p, b, s);
    BlueSetKept(g, gd, g', gd', p, b);
  }

  lemma {:induction false} ReanchoredParts(g: Graph, gd: Ghosts, g': Graph, gd': Ghosts, p: Hash)
    requires Reanchored(g, gd, g', gd', p)
    ensures GdOk(g, gd) && GdOk(g', gd') && g'.k == g.k && g'.genesis == p && p in gd && p != ORIGIN && p in g.past
  {
  }

  lemma {:induction false} KnownRight(g: Graph, gd: Ghosts, b: Hash)
    requires GdOk(g, gd) && b in gd && b != ORIGIN && b != g.genesis
    ensures DataOk(g, gd, b)
  {
  }

  lemma {:induction false} ParentsWithinGraph(g: Graph, gd: Ghosts, b: Hash)
    requires GdOk(g, gd) && b in gd
    ensures b in g.past && b in g.parents && Listed(g.parents[b]) <= g.past[b]
  {
    ParentsWithin(g, b);
  }

  lemma {:induction false} WorkAbove(g: Graph, gd: Ghosts, p: Hash, b: Hash)
    requires GdOk(g, gd) && b in gd && p in gd && p != ORIGIN && Below(g.past, p, b)
    ensures gd[p].blueWork <= gd[b].blueWork && gd[p].blueScore <= gd[b].blueScore
    decreases if b in g.past then g.past[b] else {}
  {
    ScoreIsWork(g, gd, p);
    ScoreIsWork(g, gd, b);
    if p != b {
      WorkGrows(g, gd, p, b);
    }
  }

  /** With one unit of work a block, score and work are the same. */
  lemma {:induction false} ScoreIsWork(g: Graph, gd: Ghosts, b: Hash)
    requires GdOk(g, gd) && b in gd
    ensures gd[b].blueScore == gd[b].blueWork
    decreases if b in g.past then g.past[b] else {}
  {
    if b != ORIGIN && b != g.genesis {
      SelectedBelow(g, gd, b);
      ScoreIsWork(g, gd, gd[b].selectedParent);
    }
  }

  lemma {:induction false} ShiftedRight(g: Graph, gd: Ghosts, g': Graph, gd': Ghosts, p: Hash, b: Hash, s: set<Hash>)
    requires Reanchored(g, gd, g', gd', p) && b in Suffix(g') && b != p && b in g.past && s == Suffix(g') * g.past[b]
    requires forall x, y :: x in s && y in s ==> (Less(gd, x, y) <==> Less(gd', x, y))
    requires b in gd && b in gd' && p in gd && DataOk(g, gd, b) && DataOk(g', gd', b) &&
      gd[p].blueWork <= gd[b].blueWork && gd[p].blueScore <= gd[b].blueScore
    requires var sp := gd[b].selectedParent;
      SameFrom(g, gd, g', gd', p, sp) && sp in Suffix(g') && sp in g.past && sp in g.past[b] && sp in g'.past &&
      b in g'.past
    requires Listed(g.parents[b]) <= s && Listed(g'.parents[b]) == Listed(g.parents[b])
    ensures gd'[b] == Shifted(gd[b], gd[p].blueScore, gd[p].blueWork)
  {
    hide Reanchored, GdOk, SizesOk, Greedy, KCluster, BlueSet, Less, InOrder, Heaviest;
    ReanchoredParts(g, gd, g', gd', p);
    var d := gd[b];
    var d' := Shifted(d, gd[p].blueScore, gd[p].blueWork);
    var sp := d.selectedParent;
    var old', merge := BlueSet(g.past, gd, p), MergeSet(g.past, b, sp);
    BlueSetBelow(g, gd, p);
    BlueSetCluster(g, gd, p);
    MergeKept(g, gd, g', gd', p, b, sp);
    KeptBlueList(g, gd, g', gd', p, b);
    assert sp != ORIGIN;
    InOrderKept(gd, gd', merge);
    GreedyKept(g, gd, g', gd', p, BlueSet(g.past, gd, sp) + {sp}, BlueSet(g'.past, gd', sp) + {sp}, old',
      InOrder(gd, merge));
    HeaviestKept(gd, gd', Listed(g.parents[b]), sp);
    SizesKept(g, gd, g', gd', p, BlueSet(g.past, gd, sp), BlueSet(g'.past, gd', sp), old', d.blues, d.sizes);
    assert DataFor(g'.past, gd', g'.k, g'.parents[b], g'.past[b], d');
    DataUnique(g'.past, gd', g'.k, g'.parents[b], g'.parents[b], g'.past[b], d', gd'[b]);
  }

  lemma {:induction false} KeptBlueList(g: Graph, gd: Ghosts, g': Graph, gd': Ghosts, p: Hash, b: Hash)
    requires Reanchored(g, gd, g', gd', p) && b in Suffix(g') && b != p && b in gd && gd[b].selectedParent in Suffix(g')
    ensures Listed(gd[b].blues) <= Suffix(g')
  {
    KeptBlock(g, gd, g', gd', p, b);
    KeptBlock(g, gd, g', gd', p, gd[b].selectedParent);
    BluesMerged(g, gd, b);
    MergeKept(g, gd, g', gd', p, b, gd[b].selectedParent);
  }

  lemma {:induction false} BlueSetKept(g: Graph, gd: Ghosts, g': Graph, gd': Ghosts, p: Hash, b: Hash)
    requires Reanchored(g, gd, g', gd', p) && b in Suffix(g') && b != p && b in gd && b in gd'
    requires gd'[b].selectedParent == gd[b].selectedParent && gd'[b].blues == gd[b].blues &&
      gd[b].selectedParent in Suffix(g')
    requires SameFrom(g, gd, g', gd', p, gd[b].selectedParent)
    ensures BlueSet(g.past, gd, b) == (BlueSet(g'.past, gd', b) - {ORIGIN}) + BlueSet(g.past, gd, p) &&
      BlueSet(g'.past, gd', b) <= g'.parents.Keys
  {
    KeptBlock(g, gd, g', gd', p, b);
    KeptBlueList(g, gd, g', gd', p, b);
    BlueSetSplit(g, gd, b);
    BlueSetSplit(g', gd', b);
  }

  // ---------- chain, order, tip ----------

  lemma {:induction false} StepKept(g: Graph, gd: Ghosts, g': Graph, gd': Ghosts, p: Hash, b: Hash)
    requires Reanchored(g, gd, g', gd', p) && b in Suffix(g') && b != p
    ensures b in gd && b in gd' && b in g.past && b in g'.past && b != ORIGIN && b != g.genesis
    ensures var sp := gd[b].selectedParent;
      && gd'[b].selectedParent == sp && sp in Suffix(g') && sp in g.past && sp in g'.past && g.past[sp] < g.past[b]
      && InOrder(gd, MergeSet(g.past, b, sp)) == InOrder(gd', MergeSet(g'.past, b, sp))
  {
    KeptBlock(g, gd, g', gd', p, b);
    DataKept(g, gd, g', gd', p, b);
    SelectedBelow(g, gd, b);
    var sp := gd[b].selectedParent;
    assert sp in Listed(g.parents[b]);
    KeptBlock(g, gd, g', gd', p, sp);
    MergeKept(g, gd, g', gd', p, b, sp);
    var s := MergeSet(g.past, b, sp);
    hide GdOk, Reanchored, SameFrom;
    forall a | a in s
      ensures SameFrom(g, gd, g', gd', p, a)
    {
      DataKept(g, gd, g', gd', p, a);
    }
    LessKept(g, gd, g', gd', p, s);
    InOrderKept(gd, gd', s);
  }

  /** The list without its last element. */
  function Front(s: seq<Hash>): seq<Hash> {
    if |s| == 0 then s else s[..|s| - 1]
  }

  /** The new order is the old one from `p` on, and so is the new chain. */
  lemma {:induction false} OrderFromAnchor(g: Graph, gd: Ghosts, g': Graph, gd': Ghosts, p: Hash, b: Hash)
    requires Reanchored(g, gd, g', gd', p) && b in Suffix(g')
    ensures Linear(g, gd, b) == Front(Linear(g, gd, p)) + Linear(g', gd', b)
    ensures Chain(g, gd, b) == Front(Chain(g, gd, p)) + Chain(g', gd', b)
    decreases if b in g.past then g.past[b] else {}
  {
    if b == p {
      LastIsBlock(g, gd, p);
      KeptBlock(g, gd, g', gd', p, p);
      hide Linear, Chain, Front, GdOk;
      OneAlone(g', gd', p);
    } else {
      StepKept(g, gd, g', gd', p, b);
      var sp := gd[b].selectedParent;
      OrderFromAnchor(g, gd, g', gd', p, sp);
      LinearStep(g, gd, b);
      LinearStep(g', gd', b);
      hide Reanchored, GdOk, Linear, Chain, Front, InOrder;
      FourParts(Front(Linear(g, gd, p)), Linear(g', gd', sp), InOrder(gd, MergeSet(g.past, b, sp)), [b]);
      FourParts(Front(Chain(g, gd, p)), Chain(g', gd', sp), [], [b]);
    }
  }

  lemma {:induction false} OneAlone(g: Graph, gd: Ghosts, b: Hash)
    requires b == g.genesis
    ensures Linear(g, gd, b) == [b] && Chain(g, gd, b) == [b]
  {
  }

  lemma {:induction false} SnocFront(s: seq<Hash>, x: Hash)
    ensures Front(s + [x]) == s
  {
  }

  lemma {:induction false} FourParts(u: seq<Hash>, v: seq<Hash>, w: seq<Hash>, x: seq<Hash>)
    ensures u + v + w + x == u + (v + w + x)
    ensures u + v + x == u + (v + x)
  {
  }

  lemma {:induction false} LastIsBlock(g: Graph, gd: Ghosts, b: Hash)
    requires GdOk(g, gd) && b in gd && b != ORIGIN
    ensures |Linear(g, gd, b)| > 0 && Linear(g, gd, b) == Front(Linear(g, gd, b)) + [b]
    ensures |Chain(g, gd, b)| > 0 && Chain(g, gd, b) == Front(Chain(g, gd, b)) + [b]
  {
    var u, v: seq<Hash> := [], [];
    if b != g.genesis {
      LinearStep(g, gd, b);
      var sp := gd[b].selectedParent;
      u, v := Linear(g, gd, sp) + InOrder(gd, MergeSet(g.past, b, sp)), Chain(g, gd, sp);
    } else {
      assert [] + [b] == [b];
    }
    assert Linear(g, gd, b) == u + [b] && Chain(g, gd, b) == v + [b];
    hide Linear, Chain, Front;
    SnocFront(u, b);
    SnocFront(v, b);
  }

  /** The heaviest block, if kept, is still the heaviest. */
  lemma {:induction false} TipFromAnchor(g: Graph, gd: Ghosts, g': Graph, gd': Ghosts, p: Hash, tip: Hash)
    requires Reanchored(g, gd, g', gd', p) && tip in Suffix(g') && Heaviest(gd, gd.Keys - {ORIGIN}, tip)
    ensures Heaviest(gd', gd'.Keys - {ORIGIN}, tip)
  {
    var s := Suffix(g');
    assert gd'.Keys - {ORIGIN} == s;
    forall a | a in s
      ensures SameFrom(g, gd, g', gd', p, a) && a in gd
    {
      DataKept(g, gd, g', gd', p, a);
    }
    LessKept(g, gd, g', gd', p, s);
  }

  /** The window of chain blocks that decides the next target is the same, if enough blocks are kept. */
  lemma {:induction false} WindowFromAnchor(g: Graph, gd: Ghosts, g': Graph, gd': Ghosts, p: Hash, b: Hash, n: nat)
    requires Reanchored(g, gd, g', gd', p) && b in Suffix(g') && |Chain(g', gd', b)| >= n
    ensures Last(Chain(g, gd, b), n) == Last(Chain(g', gd', b), n)
  {
    OrderFromAnchor(g, gd, g', gd', p, b);
    hide Chain, Linear, Front, Reanchored;
    LastOfBoth(Front(Chain(g, gd, p)), Chain(g', gd', b), n);
  }

  lemma {:induction false} LastOfBoth(u: seq<Hash>, v: seq<Hash>, n: nat)
    requires |v| >= n
    ensures Last(u + v, n) == Last(v, n)
  {
  }

  // ---------- which blocks are kept ----------

  ghost predicate Antichain(g: Graph, b: Hash) {
    b in g.parents && forall q, r :: q in g.parents[b] && r in g.parents[b] ==> r in g.past && q !in g.past[r]
  }

  /** A block that descends from `p` and has no redundant parent has no parent below `p`. */
  lemma {:induction false} ParentsKept(g: Graph, p: Hash, b: Hash, q: Hash)
    requires PastOk(g.parents, g.past) && b in g.past && p in g.past && p in g.past[b] && Antichain(g, b) &&
      q in g.parents[b]
    ensures q !in g.past[p]
  {
    assert PastStep(g.parents, g.past, b);
    var r :| r in g.parents[b] && Below(g.past, p, r);
    if q in g.past[p] {
      PastTrans(g.parents, g.past, q, p, r);
    }
  }

  /** Cutting the order at a chain block keeps that block and what is neither it nor in its past. */
  lemma {:induction false} CutAt(g: Graph, gd: Ghosts, p: Hash, b: Hash)
    requires GdOk(g, gd) && b in gd && b != ORIGIN && p in Chain(g, gd, b)
    ensures p in g.past && b in g.past && p in gd && p != ORIGIN
    ensures var n := |Linear(g, gd, p)|;
      && 0 < n <= |Linear(g, gd, b)| && Linear(g, gd, b)[n - 1] == p
      && Listed(Linear(g, gd, b)[n - 1..]) == {p} + (g.past[b] + {b} - g.past[p] - {p} - {ORIGIN})
  {
    ChainMember(g, gd, p, b);
    ChainPrefix(g, gd, p, b);
    LinearCovers(g, gd, b);
    LinearCovers(g, gd, p);
    LinearInTurn(g, gd, b);
    LastIsBlock(g, gd, p);
    OriginBelow(g, p);
    var order, prefix := Linear(g, gd, b), Linear(g, gd, p);
    hide GdOk, Linear, Chain, Rooted, PastOk;
    CutListed(g.past, order, prefix, p);
    CutSets(g.past[b], g.past[p], b, p);
  }

  lemma {:induction false} CutSets(u: set<Hash>, v: set<Hash>, b: Hash, p: Hash)
    requires b != ORIGIN && p != ORIGIN
    ensures (u - {ORIGIN} + {b}) - (v - {ORIGIN} + {p}) == u + {b} - v - {p} - {ORIGIN}
  {
  }

  lemma {:induction false} ChainMember(g: Graph, gd: Ghosts, p: Hash, b: Hash)
    requires GdOk(g, gd) && b in gd && b != ORIGIN && p in Chain(g, gd, b)
    ensures p in gd && p in g.past && p != ORIGIN && b in g.past
  {
    ChainLinks(g, gd, b);
    hide Chain;
    var i :| 0 <= i < |Chain(g, gd, b)| && Chain(g, gd, b)[i] == p;
  }

  lemma {:induction false} CutListed(past: Pasts, order: seq<Hash>, prefix: seq<Hash>, p: Hash)
    requires InTurn(past, order) && prefix <= order && |prefix| > 0 && prefix == Front(prefix) + [p]
    ensures order[|prefix| - 1] == p && Listed(order[|prefix| - 1..]) == {p} + (Listed(order) - Listed(prefix))
  {
    var n := |prefix|;
    var rest := order[n..];
    assert order == prefix + rest;
    ListedConcat(prefix, rest);
    forall j | 0 <= j < |rest|
      ensures rest[j] !in prefix
    {
      assert rest[j] == order[n + j];
      forall i | 0 <= i < n
        ensures prefix[i] != rest[j]
      {
        assert prefix[i] == order[i];
        assert !Below(past, order[n + j], order[i]);
      }
    }
    hide InTurn;
    assert Listed(rest) == Listed(order) - Listed(prefix);
    assert order[n - 1..] == [p] + rest;
    ListedConcat([p], rest);
    assert Listed([p]) == {p};
  }
}
