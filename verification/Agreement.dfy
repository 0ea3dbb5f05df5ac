/** The data of a block depends on its past alone: whatever else a store holds, and in whatever
    order blocks arrived, two stores with the same past of a block agree on its data. */
module Agreement {
  import opened Types
  import opened Dag
  import opened Ghostdag
  import opened BlueSets

  ghost predicate SameAt(past: Pasts, gd: Ghosts, past': Pasts, gd': Ghosts, u: set<Hash>, h: Hash) {
    && h in past && h in past' && h in gd && h in gd'
    && past[h] == past'[h] && past[h] <= u && gd[h] == gd'[h]
  }

  /** Two stores agree on the blocks of `u`, which holds all their ancestors. */
  ghost predicate SameOn(past: Pasts, gd: Ghosts, past': Pasts, gd': Ghosts, u: set<Hash>) {
    forall h {:trigger SameAt(past, gd, past', gd', u, h)} :: h in u ==> SameAt(past, gd, past', gd', u, h)
  }

  lemma {:induction false} LessSame(past: Pasts, gd: Ghosts, past': Pasts, gd': Ghosts, u: set<Hash>, a: Hash, b: Hash)
    requires SameOn(past, gd, past', gd', u) && a in u && b in u
    ensures Less(gd, a, b) <==> Less(gd', a, b)
    ensures Below(past, a, b) <==> Below(past', a, b)
    ensures Anticone(past, a, b) <==> Anticone(past', a, b)
  {
    assert SameAt(past, gd, past', gd', u, a) && SameAt(past, gd, past', gd', u, b);
  }

  lemma {:induction false} InOrderSame(past: Pasts, gd: Ghosts, past': Pasts, gd': Ghosts, u: set<Hash>, s: set<Hash>)
    requires SameOn(past, gd, past', gd', u) && s <= u
    ensures InOrder(gd, s) == InOrder(gd', s)
  {
    var order := InOrder(gd, s);
    forall i, j | 0 <= i < j < |order|
      ensures Less(gd', order[i], order[j])
    {
      assert order[i] in Listed(order) && order[j] in Listed(order);
      LessSame(past, gd, past', gd', u, order[i], order[j]);
    }
    SortedUnique(gd', order, InOrder(gd', s));
  }

  lemma {:induction false} AnticoneSame(past: Pasts, gd: Ghosts, past': Pasts, gd': Ghosts, u: set<Hash>, s: set<Hash>,
                                        p: Hash)
    requires SameOn(past, gd, past', gd', u) && s <= u && p in u
    ensures AnticoneIn(past, s, p) == AnticoneIn(past', s, p)
  {
    forall q | q in s
      ensures Anticone(past, q, p) <==> Anticone(past', q, p)
    {
      LessSame(past, gd, past', gd', u, q, p);
    }
    hide Anticone;
  }

  lemma {:induction false} ClusterSame(past: Pasts, gd: Ghosts, past': Pasts, gd': Ghosts, u: set<Hash>, s: set<Hash>,
                                       k: nat)
    requires SameOn(past, gd, past', gd', u) && s <= u
    ensures KCluster(past, s, k) <==> KCluster(past', s, k)
  {
    forall p | p in s
      ensures Bounded(past, s, k, p) <==> Bounded(past', s, k, p)
    {
      AnticoneSame(past, gd, past', gd', u, s, p);
    }
    hide Bounded;
    if KCluster(past', s, k) {
      assert forall p {:trigger Bounded(past, s, k, p)} :: p in s ==> Bounded(past', s, k, p);
    }
  }

  lemma {:induction false} GreedySame(past: Pasts, gd: Ghosts, past': Pasts, gd': Ghosts, u: set<Hash>,
                                      base: set<Hash>, k: nat, order: seq<Hash>)
    requires SameOn(past, gd, past', gd', u) && base <= u && Listed(order) <= u
    ensures Greedy(past, base, k, order) == Greedy(past', base, k, order)
  {
    if |order| > 0 {
      var init, x := order[..|order| - 1], order[|order| - 1];
      assert order == init + [x];
      ListedSnoc(init, x);
      GreedySame(past, gd, past', gd', u, base, k, init);
      GreedyWithin(past, base, k, init);
      ClusterSame(past, gd, past', gd', u, base + Listed(Greedy(past, base, k, init).blues) + {x}, k);
    }
  }

  lemma {:induction false} BlueSetSame(g: Graph, gd: Ghosts, past': Pasts, gd': Ghosts, u: set<Hash>, b: Hash)
    requires GdOk(g, gd) && SameOn(g.past, gd, past', gd', u) && b in u
    ensures BlueSet(g.past, gd, b) == BlueSet(past', gd', b)
    decreases if b in g.past then g.past[b] else {}
  {
    assert SameAt(g.past, gd, past', gd', u, b);
    RootPasts(g);
    if b != ORIGIN {
      var sp := gd[b].selectedParent;
      if b != g.genesis {
        SelectedBelow(g, gd, b);
      }
      assert sp in g.past[b] && sp in u;
      assert SameAt(g.past, gd, past', gd', u, sp);
      BlueSetSame(g, gd, past', gd', u, sp);
    }
  }

  lemma {:induction false} SizesSame(past: Pasts, gd: Ghosts, past': Pasts, gd': Ghosts, u: set<Hash>,
                                     below: set<Hash>, blues: seq<Hash>, sizes: map<Hash, nat>)
    requires SameOn(past, gd, past', gd', u) && below + Listed(blues) <= u && SizesOk(past, below, blues, sizes)
    ensures SizesOk(past', below, blues, sizes)
  {
    forall p
      ensures SizeOk(past', below + Listed(blues), blues, sizes, p)
    {
      assert SizeOk(past, below + Listed(blues), blues, sizes, p);
      if p in below + Listed(blues) {
        AnticoneSame(past, gd, past', gd', u, below + Listed(blues), p);
        TouchedSame(past, gd, past', gd', u, blues, p);
      }
    }
  }

  lemma {:induction false} TouchedSame(past: Pasts, gd: Ghosts, past': Pasts, gd': Ghosts, u: set<Hash>,
                                       blues: seq<Hash>, p: Hash)
    requires SameOn(past, gd, past', gd', u) && Listed(blues) <= u && p in u
    ensures Touched(past, blues, p) <==> Touched(past', blues, p)
  {
    forall q | q in blues
      ensures Anticone(past, q, p) <==> Anticone(past', q, p)
    {
      assert q in Listed(blues);
      LessSame(past, gd, past', gd', u, q, p);
    }
    hide Anticone;
    if Touched(past, blues, p) && p !in blues {
      var q :| q in blues && Anticone(past, q, p);
      assert Anticone(past', q, p);
    }
    if Touched(past', blues, p) && p !in blues {
      var q :| q in blues && Anticone(past', q, p);
      assert Anticone(past, q, p);
    }
  }

  lemma {:induction false} ColoursSame(past: Pasts, gd: Ghosts, past': Pasts, gd': Ghosts, u: set<Hash>,
                                       base: set<Hash>, k: nat, merge: set<Hash>)
    requires SameOn(past, gd, past', gd', u) && base <= u && merge <= u
    ensures Greedy(past, base, k, InOrder(gd, merge)) == Greedy(past', base, k, InOrder(gd', merge))
    ensures Listed(Greedy(past, base, k, InOrder(gd, merge)).blues) <= u
  {
    hide SameOn, Greedy;
    InOrderSame(past, gd, past', gd', u, merge);
    GreedySame(past, gd, past', gd', u, base, k, InOrder(gd, merge));
    GreedyWithin(past, base, k, InOrder(gd, merge));
  }

  lemma {:induction false} BlueList(d: GhostdagData)
    requires |d.blues| > 0
    ensures Listed(d.blues) == {d.blues[0]} + Listed(d.blues[1..])
  {
    assert d.blues == [d.blues[0]] + d.blues[1..];
  }

  /** Data right for one store is right for any store that agrees on the past. */
  lemma {:induction false} DataSame(g: Graph, gd: Ghosts, past': Pasts, gd': Ghosts, u: set<Hash>, ps: seq<Hash>,
                                    whole: set<Hash>, d: GhostdagData)
    requires GdOk(g, gd) && SameOn(g.past, gd, past', gd', u) && whole <= u && Listed(ps) <= u
    requires DataFor(g.past, gd, g.k, ps, whole, d)
    ensures DataFor(past', gd', g.k, ps, whole, d)
  {
    var sp := d.selectedParent;
    assert sp in Listed(ps);
    assert SameAt(g.past, gd, past', gd', u, sp);
    BlueSetBelow(g, gd, sp);
    BlueSetSame(g, gd, past', gd', u, sp);
    BlueList(d);
    hide GdOk, SizesOk, SameOn, Greedy, BlueSet, Heaviest, InOrder;
    ColoursSame(g.past, gd, past', gd', u, BlueSet(g.past, gd, sp) + {sp}, g.k, whole - g.past[sp] - {sp});
    SizesSame(g.past, gd, past', gd', u, BlueSet(g.past, gd, sp), d.blues, d.sizes);
    HeaviestSame(g.past, gd, past', gd', u, Listed(ps), sp);
  }

  lemma {:induction false} HeaviestSame(past: Pasts, gd: Ghosts, past': Pasts, gd': Ghosts, u: set<Hash>, s: set<Hash>,
                                        m: Hash)
    requires SameOn(past, gd, past', gd', u) && s <= u && Heaviest(gd, s, m)
    ensures Heaviest(gd', s, m)
  {
    forall x | x in s
      ensures x == m || Less(gd', x, m)
    {
      LessSame(past, gd, past', gd', u, x, m);
    }
  }

  /** The data of a block is determined. */
  lemma {:induction false} DataUnique(past: Pasts, gd: Ghosts, k: nat, ps: seq<Hash>, ps': seq<Hash>, whole: set<Hash>,
                                      d: GhostdagData, d': GhostdagData)
    requires DataFor(past, gd, k, ps, whole, d) && DataFor(past, gd, k, ps', whole, d') && Listed(ps) == Listed(ps')
    ensures d == d'
  {
    assert d.selectedParent == d'.selectedParent;
    var sp := d.selectedParent;
    assert d.blues == [sp] + d.blues[1..] && d'.blues == [sp] + d'.blues[1..];
    hide Greedy, SizesOk;
    SizesUnique(past, BlueSet(past, gd, sp), d.blues, d.sizes, d'.sizes);
  }

  lemma {:induction false} SizesUnique(past: Pasts, below: set<Hash>, blues: seq<Hash>, sizes: map<Hash, nat>,
                                       sizes': map<Hash, nat>)
    requires SizesOk(past, below, blues, sizes) && SizesOk(past, below, blues, sizes')
    ensures sizes == sizes'
  {
    forall p
      ensures p in sizes <==> p in sizes'
      ensures p in sizes && p in sizes' ==> sizes[p] == sizes'[p]
    {
      assert SizeOk(past, below + Listed(blues), blues, sizes, p);
      assert SizeOk(past, below + Listed(blues), blues, sizes', p);
    }
  }

  // ---------- the same DAG in another order ----------

  ghost predicate SameParents(g: Graph, g': Graph, h: Hash) {
    h in g.parents && h in g'.parents && Listed(g.parents[h]) == Listed(g'.parents[h])
  }

  /** `b` and all its ancestors have the same parents in both graphs, in whatever order listed. */
  ghost predicate SameDag(g: Graph, g': Graph, b: Hash) {
    forall h {:trigger SameParents(g, g', h)} :: Below(g.past, h, b) ==> SameParents(g, g', h)
  }

  lemma {:induction false} SameDagBelow(g: Graph, g': Graph, a: Hash, b: Hash)
    requires PastOk(g.parents, g.past) && SameDag(g, g', b) && Below(g.past, a, b)
    ensures SameDag(g, g', a)
  {
    forall h | Below(g.past, h, a)
      ensures SameParents(g, g', h)
    {
      PastTrans(g.parents, g.past, h, a, b);
    }
  }

  lemma {:induction false} PastSame(g: Graph, g': Graph, b: Hash)
    requires PastOk(g.parents, g.past) && PastOk(g'.parents, g'.past) && b in g.past && SameDag(g, g', b)
    ensures b in g'.past && g.past[b] == g'.past[b]
    decreases g.past[b]
  {
    assert SameParents(g, g', b);
    assert PastStep(g.parents, g.past, b) && PastStep(g'.parents, g'.past, b);
    var ps, ps' := g.parents[b], g'.parents[b];
    forall p | p in ps
      ensures p in ps' && p in g.past && p in g'.past && g.past[p] == g'.past[p]
    {
      assert p in Listed(ps);
      PastSmaller(g.parents, g.past, p, b);
      SameDagBelow(g, g', p, b);
      PastSame(g, g', p);
    }
    MergedSame(ps, g.past, g'.past);
    MergedListed(ps, ps', g'.past);
  }

  lemma {:induction false} MergedListed(ps: seq<Hash>, ps': seq<Hash>, past: Pasts)
    requires Listed(ps) == Listed(ps')
    ensures Merged(ps, past) == Merged(ps', past)
  {
    forall x
      ensures x in Merged(ps, past) <==> x in Merged(ps', past)
    {
      InMerged(ps, past, x);
      InMerged(ps', past, x);
      forall p
        ensures p in ps <==> p in ps'
      {
        assert p in Listed(ps) <==> p in Listed(ps');
      }
    }
  }

  /** Two engines that know the same ancestors of `b` record the same data for it. */
  lemma {:induction false} DataAgrees(g: Graph, gd: Ghosts, g': Graph, gd': Ghosts, b: Hash)
    requires GdOk(g, gd) && GdOk(g', gd') && g.k == g'.k && g.genesis == g'.genesis
    requires b in gd && SameDag(g, g', b)
    ensures b in gd' && b in g.past && b in g'.past && g.past[b] == g'.past[b] && gd[b] == gd'[b]
    decreases if b in g.past then g.past[b] else {}
  {
    PastSame(g, g', b);
    if b != ORIGIN && b != g.genesis {
      var u := g.past[b];
      forall h | h in u
        ensures SameAt(g.past, gd, g'.past, gd', u, h)
      {
        PastInside(g.parents, g.past, h, b);
        SameDagBelow(g, g', h, b);
        DataAgrees(g, gd, g', gd', h);
      }
      assert DataOk(g, gd, b) && DataOk(g', gd', b);
      ParentsWithin(g, b);
      assert SameParents(g, g', b);
      hide GdOk, DataFor;
      DataSame(g, gd, g'.past, gd', u, g.parents[b], u, gd[b]);
      DataUnique(g'.past, gd', g'.k, g.parents[b], g'.parents[b], u, gd[b], gd'[b]);
    }
  }

  lemma {:induction false} ParentsWithin(g: Graph, b: Hash)
    requires PastOk(g.parents, g.past) && b in g.past
    ensures Listed(g.parents[b]) <= g.past[b]
  {
    forall p | p in g.parents[b]
      ensures p in g.past[b]
    {
      PastSmaller(g.parents, g.past, p, b);
    }
  }

  // ---------- a longer DAG ----------

  function Extended(g: Graph, n: Hash, ps: seq<Hash>, whole: set<Hash>): Graph {
    g.(parents := g.parents[n := ps], past := g.past[n := whole])
  }

  /** Recording a new block leaves the records of all others right. */
  lemma {:induction false} GdGrows(g: Graph, gd: Ghosts, n: Hash, ps: seq<Hash>, d: GhostdagData)
    requires GdOk(g, gd) && n !in g.past && |ps| > 0 && ORIGIN !in ps && (forall p :: p in ps ==> p in g.past)
    requires DataFor(g.past, gd, g.k, ps, Merged(ps, g.past), d)
    ensures GdOk(Extended(g, n, ps, Merged(ps, g.past)), gd[n := d])
  {
    var g', gd' := Extended(g, n, ps, Merged(ps, g.past)), gd[n := d];
    PastGrows(g.parents, g.past, n, ps);
    StoreSame(g, gd, n, g'.past, gd');
    RootedGrows(g, n, ps, Merged(ps, g.past));
    hide DataFor, Merged, Rooted, PastOk;
    forall b | b in gd' && b != ORIGIN && b != g'.genesis
      ensures DataOk(g', gd', b)
    {
      if b == n {
        MergedKnown(g, ps);
        DataSame(g, gd, g'.past, gd', g.past.Keys, ps, Merged(ps, g.past), d);
      } else {
        assert DataOk(g, gd, b);
        ParentsWithin(g, b);
        PastKnownIn(g, b);
        DataSame(g, gd, g'.past, gd', g.past.Keys, g.parents[b], g.past[b], gd[b]);
      }
    }
  }

  lemma {:induction false} PastKnownIn(g: Graph, b: Hash)
    requires PastOk(g.parents, g.past) && b in g.past
    ensures g.past[b] <= g.past.Keys
  {
    forall a | a in g.past[b]
      ensures a in g.past
    {
      PastInside(g.parents, g.past, a, b);
    }
  }

  lemma {:induction false} MergedKnown(g: Graph, ps: seq<Hash>)
    requires PastOk(g.parents, g.past) && forall p :: p in ps ==> p in g.past
    ensures Merged(ps, g.past) <= g.past.Keys && Listed(ps) <= g.past.Keys
  {
    forall a | a in Merged(ps, g.past)
      ensures a in g.past
    {
      var p :| p in ps && Below(g.past, a, p);
      if a != p {
        PastInside(g.parents, g.past, a, p);
      }
    }
  }

  lemma {:induction false} StoreSame(g: Graph, gd: Ghosts, n: Hash, past': Pasts, gd': Ghosts)
    requires GdOk(g, gd) && n !in g.past && past'.Keys == g.past.Keys + {n} && gd'.Keys == gd.Keys + {n}
    requires forall h :: h in g.past ==> past'[h] == g.past[h] && gd'[h] == gd[h]
    ensures SameOn(g.past, gd, past', gd', g.past.Keys)
  {
    forall h | h in g.past.Keys
      ensures SameAt(g.past, gd, past', gd', g.past.Keys, h)
    {
      PastKnownIn(g, h);
    }
  }

  lemma {:induction false} RootedGrows(g: Graph, n: Hash, ps: seq<Hash>, whole: set<Hash>)
    requires Rooted(g) && n !in g.past && |ps| > 0 && ORIGIN !in ps && PastOk(g.parents[n := ps], g.past[n := whole])
    ensures Rooted(Extended(g, n, ps, whole))
  {
    var g' := Extended(g, n, ps, whole);
    forall b | b in g'.parents && b != ORIGIN && b != g'.genesis
      ensures HasParents(g', b)
    {
      assert b != n ==> HasParents(g, b);
    }
  }
}
