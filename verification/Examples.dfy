/** Concrete block DAGs in which something that looks plausible goes wrong. The anticone bound is 0, so
    every merged block is red and work counts the blocks of the chain. */
module Examples {
  import opened Types
  import opened Dag
  import opened Ghostdag
  import opened Colouring
  import opened Agreement
  import opened Engine
  import opened Linearization
  import opened Anchor
  import opened Replay
  import opened NiPoPoW
  import opened Pruning
  import opened Protocol
  import opened Target
  import opened Difficulty

  // ---------- building a graph block by block ----------

  ghost function With(g: Graph, n: Hash, ps: seq<Hash>): Graph {
    Extended(g, n, ps, Merged(ps, g.past))
  }

  /** Every block with known parents has data. */
  lemma {:induction false} DataExists(g: Graph, gd: Ghosts, n: Hash, ps: seq<Hash>, sp: Hash) returns (d: GhostdagData)
    requires GdOk(g, gd) && n !in g.past && |ps| > 0 && ORIGIN !in ps && (forall p :: p in ps ==> p in g.past) &&
      Heaviest(gd, Listed(ps), sp)
    ensures d.selectedParent == sp && GdOk(With(g, n, ps), gd[n := d])
    ensures sp in g.past &&
      d.blueWork == gd[sp].blueWork + 1 +
      |Greedy(g.past, BlueSet(g.past, gd, sp) + {sp}, g.k, InOrder(gd, Merged(ps, g.past) - g.past[sp] - {sp})).blues|
  {
    GraphParts(g, gd);
    var c := Greedy(g.past, BlueSet(g.past, gd, sp) + {sp}, g.k, InOrder(gd, Merged(ps, g.past) - g.past[sp] - {sp}));
    var blues := [sp] + c.blues;
    var all := BlueSet(g.past, gd, sp) + Listed(blues);
    var sizes: map<Hash, nat> := map p | p in all && Touched(g.past, blues, p) :: |AnticoneIn(g.past, all, p)|;
    d := GhostdagData(gd[sp].blueScore + |blues|, gd[sp].blueWork + |blues|, sp, blues, c.reds, sizes);
    assert d.blues[1..] == c.blues;
    assert DataFor(g.past, gd, g.k, ps, Merged(ps, g.past), d);
    GdGrows(g, gd, n, ps, d);
  }

  /** With the bound 0 nothing merged beside the selected parent is blue. */
  lemma {:induction false} AllRed(past: Pasts, base: set<Hash>, sp: Hash, order: seq<Hash>)
    requires sp in base && forall x :: x in order ==> Anticone(past, x, sp)
    ensures Greedy(past, base, 0, order).blues == []
  {
    if |order| > 0 {
      var init, x := order[..|order| - 1], order[|order| - 1];
      assert forall y :: y in init ==> y in order;
      AllRed(past, base, sp, init);
      var all := base + Listed(Greedy(past, base, 0, init).blues) + {x};
      assert x in AnticoneIn(past, all, sp);
      assert !Bounded(past, all, 0, sp);
    }
  }

  /** What a step of the construction gives: the orders so far stay, the new block comes last. */
  ghost predicate Placed(g: Graph, gd: Ghosts, g': Graph, gd': Ghosts, n: Hash, ps: seq<Hash>, sp: Hash) {
    && g' == With(g, n, ps) && GdOk(g', gd') && gd'.Keys == gd.Keys + {n} && sp in g.past && sp in gd
    && (forall h :: h in gd ==> gd'[h] == gd[h])
    && gd'[n].selectedParent == sp && gd'[n].blueWork == gd[sp].blueWork + 1
    && Linear(g', gd', n) == Linear(g, gd, sp) + InOrder(gd', Merged(ps, g.past) - g.past[sp] - {sp}) + [n]
    && Chain(g', gd', n) == Chain(g, gd, sp) + [n]
    && (forall b :: b in gd && b != ORIGIN ==>
      Linear(g', gd', b) == Linear(g, gd, b) && Chain(g', gd', b) == Chain(g, gd, b))
  }

  lemma {:induction false} Place(g: Graph, gd: Ghosts, n: Hash, ps: seq<Hash>, sp: Hash)
      returns (g': Graph, gd': Ghosts)
    requires GdOk(g, gd) && g.k == 0 && n !in g.past && n != ORIGIN && |ps| > 0 && ORIGIN !in ps &&
      (forall p :: p in ps ==> p in g.past)
    requires Heaviest(gd, Listed(ps), sp)
    ensures Placed(g, gd, g', gd', n, ps, sp)
  {
    GraphParts(g, gd);
    hide GdOk, Linear, Chain, Greedy, InOrder, BlueSet, Heaviest, Anticone;
    var d := DataExists(g, gd, n, ps, sp);
    g', gd' := With(g, n, ps), gd[n := d];
    MergedBeside(g, gd, ps, sp);
    AllRed(g.past, BlueSet(g.past, gd, sp) + {sp}, sp, InOrder(gd, Merged(ps, g.past) - g.past[sp] - {sp}));
    GraphParts(g', gd');
    LinearStep(g', gd', n);
    OrdersStay(g, gd, n, ps, d);
  }

  lemma {:induction false} OrdersStay(g: Graph, gd: Ghosts, n: Hash, ps: seq<Hash>, d: GhostdagData)
    requires GdOk(g, gd) && n !in g.past && n !in gd && n != ORIGIN && GdOk(With(g, n, ps), gd[n := d])
    ensures forall b :: b in gd && b != ORIGIN ==>
      && Linear(With(g, n, ps), gd[n := d], b) == Linear(g, gd, b)
      && Chain(With(g, n, ps), gd[n := d], b) == Chain(g, gd, b)
  {
    hide GdOk, Linear, Chain;
    forall b | b in gd && b != ORIGIN
      ensures Linear(With(g, n, ps), gd[n := d], b) == Linear(g, gd, b)
      ensures Chain(With(g, n, ps), gd[n := d], b) == Chain(g, gd, b)
    {
      OrderStays(g, gd, n, ps, d, b);
    }
  }

  lemma {:induction false} MergedBeside(g: Graph, gd: Ghosts, ps: seq<Hash>, sp: Hash)
    requires GdOk(g, gd) && (forall p :: p in ps ==> p in g.past) && Heaviest(gd, Listed(ps), sp) && ORIGIN !in ps
    ensures sp in g.past && forall x :: x in InOrder(gd, Merged(ps, g.past) - g.past[sp] - {sp}) ==>
      Anticone(g.past, x, sp)
    ensures sp != ORIGIN
  {
    assert sp in Listed(ps);
    GraphParts(g, gd);
    var order := InOrder(gd, Merged(ps, g.past) - g.past[sp] - {sp});
    forall x | x in order
      ensures Anticone(g.past, x, sp)
    {
      assert x in Listed(order);
      InMerged(ps, g.past, x);
      var p :| p in ps && Below(g.past, x, p);
      assert p in Listed(ps);
      GenesisOrigin(g, gd, sp, x);
      if x != p {
        PastInside(g.parents, g.past, x, p);
        WorkGrows(g, gd, x, p);
      }
      if sp in g.past[x] {
        WorkGrows(g, gd, sp, x);
      }
      assert p == sp || Less(gd, p, sp);
    }
  }

  lemma {:induction false} GenesisOrigin(g: Graph, gd: Ghosts, b: Hash, x: Hash)
    requires GdOk(g, gd) && b in g.past && b != ORIGIN && x !in g.past[b]
    ensures x != ORIGIN
  {
    RootPasts(g);
    if b != g.genesis {
      OriginBelow(g, b);
    }
  }

  lemma {:induction false} InOrderFew(gd: Ghosts, x: Hash)
    ensures InOrder(gd, {x}) == [x] && InOrder(gd, {}) == []
  {
    SortedUnique(gd, [x], InOrder(gd, {x}));
  }

  /** Genesis alone, with the id 1. */
  lemma {:induction false} Start() returns (g: Graph, gd: Ghosts)
    ensures GdOk(g, gd) && g.k == 0 && g.genesis == 1 && g.past.Keys == gd.Keys == {ORIGIN, 1}
    ensures g.past[ORIGIN] == {} && g.past[1] == {ORIGIN} && gd[1].blueWork == 0 && Linear(g, gd, 1) == [1] &&
      Chain(g, gd, 1) == [1]
  {
    var e := EmptyGraph(1, 0);
    GenesisAlone(1, 0);
    OriginMerged(e.past);
    g, gd := Extended(e, 1, [ORIGIN], Merged([ORIGIN], e.past)), map[ORIGIN := ORIGIN_DATA][1 := GENESIS_DATA];
  }

  lemma {:induction false} MergedOf(past: Pasts, ps: seq<Hash>)
    requires 0 < |ps| <= 2 && forall p :: p in ps ==> p in past
    ensures |ps| == 1 ==> Merged(ps, past) == past[ps[0]] + {ps[0]}
    ensures |ps| == 2 ==> Merged(ps, past) == past[ps[0]] + {ps[0]} + past[ps[1]] + {ps[1]}
  {
    forall x
      ensures |ps| == 1 ==> (x in Merged(ps, past) <==> x in past[ps[0]] + {ps[0]})
      ensures |ps| == 2 ==> (x in Merged(ps, past) <==> x in past[ps[0]] + {ps[0]} + past[ps[1]] + {ps[1]})
    {
      InMerged(ps, past, x);
      assert ps[0] in ps && (|ps| == 2 ==> ps[1] in ps);
    }
  }

  /** A graph written out: parents, pasts, blue work, orders and chains. */
  datatype Sketch = Sketch(parents: Parents, past: Pasts, work: map<Hash, nat>, orders: map<Hash, seq<Hash>>,
                           chains: map<Hash, seq<Hash>>) {
    ghost predicate Fits() {
      work.Keys == orders.Keys == chains.Keys == past.Keys - {ORIGIN} && ORIGIN in past
    }

    /** One more block on top of `p`. */
    function OnTop(n: Hash, p: Hash): Sketch
      requires p in past && p in work && p in orders && p in chains
    {
      Sketch(parents[n := [p]], past[n := past[p] + {p}], work[n := work[p] + 1], orders[n := orders[p] + [n]],
        chains[n := chains[p] + [n]])
    }

    /** One more block on `p` that merges `q`. */
    function OnBoth(n: Hash, p: Hash, q: Hash): Sketch
      requires p in past && p in work && p in orders && p in chains
    {
      Sketch(parents[n := [p, q]], past[n := past[p] + {p, q}], work[n := work[p] + 1],
        orders[n := orders[p] + [q, n]], chains[n := chains[p] + [n]])
    }
  }

  ghost predicate DrawnAt(g: Graph, gd: Ghosts, k: Sketch, b: Hash) {
    b in gd && b in k.work && b in k.orders && b in k.chains && gd[b].blueWork == k.work[b] &&
      Linear(g, gd, b) == k.orders[b] && Chain(g, gd, b) == k.chains[b]
  }

  /** The sketch shows the graph. */
  ghost predicate Drawn(g: Graph, gd: Ghosts, k: Sketch) {
    && GdOk(g, gd) && g.k == 0 && g.genesis == 1 && g.parents == k.parents && g.past == k.past && k.Fits()
    && forall b {:trigger DrawnAt(g, gd, k, b)} :: b in k.work ==> DrawnAt(g, gd, k, b)
  }

  /** The second sketch shows `n` on the parents `ps` as well. */
  ghost predicate Extends(k: Sketch, k': Sketch, n: Hash, ps: seq<Hash>) {
    && k'.parents == k.parents[n := ps] && k'.past == k.past[n := Merged(ps, k.past)] &&
      k'.work.Keys == k.work.Keys + {n}
    && forall b :: b in k.work && b in k.orders && b in k.chains ==>
      b in k'.work && k'.work[b] == k.work[b] && b in k'.orders && k'.orders[b] == k.orders[b] && b in k'.chains &&
        k'.chains[b] == k.chains[b]
  }

  lemma {:induction false} Redrawn(g: Graph, gd: Ghosts, g': Graph, gd': Ghosts, k: Sketch, k': Sketch, n: Hash,
                                   ps: seq<Hash>, p: Hash)
    requires Drawn(g, gd, k) && Placed(g, gd, g', gd', n, ps, p) && n !in k.past && n != ORIGIN && k'.Fits()
    requires Extends(k, k', n, ps) && DrawnAt(g', gd', k', n)
    ensures Drawn(g', gd', k')
  {
    hide GdOk, Linear, Chain, InOrder, Merged;
    forall b | b in k'.work
      ensures DrawnAt(g', gd', k', b)
    {
      if b != n {
        assert DrawnAt(g, gd, k, b);
      }
    }
  }

  lemma {:induction false} Shown(g: Graph, gd: Ghosts, k: Sketch, b: Hash)
    requires Drawn(g, gd, k) && b in k.work
    ensures k.Fits() && b in k.orders && b in k.chains
    ensures DrawnAt(g, gd, k, b) && GdOk(g, gd) && g.k == 0 && gd.Keys == g.past.Keys == k.past.Keys &&
      g.past == k.past && b in k.past && b != ORIGIN
    ensures b !in k.past[b] && g.parents == k.parents
  {
    GraphParts(g, gd);
    NotOwnPast(g.parents, g.past, b);
  }

  lemma {:induction false} StillFits(k: Sketch, n: Hash, p: Hash, q: Hash)
    requires k.Fits() && n != ORIGIN && p in k.work && p in k.past && p in k.orders && p in k.chains
    requires n !in k.past
    ensures k.OnTop(n, p).Fits() && k.OnBoth(n, p, q).Fits()
    ensures Merged([p], k.past) == k.past[p] + {p} ==> Extends(k, k.OnTop(n, p), n, [p])
    ensures Merged([p, q], k.past) == k.past[p] + {p, q} ==> Extends(k, k.OnBoth(n, p, q), n, [p, q])
  {
  }

  lemma {:induction false} AddOnTop(g: Graph, gd: Ghosts, k: Sketch, n: Hash, p: Hash) returns (g': Graph, gd': Ghosts)
    requires Drawn(g, gd, k) && n !in k.past && n != ORIGIN && p in k.work
    ensures p in k.past && p in k.orders && p in k.chains && Drawn(g', gd', k.OnTop(n, p))
  {
    Shown(g, gd, k, p);
    assert Listed([p]) == {p};
    StillFits(k, n, p, p);
    hide Drawn, GdOk, Linear, Chain, InOrder, Merged, Placed, DrawnAt, Listed, Below, Sketch.Fits, Sketch.OnTop,
      Extends;
    g', gd' := Place(g, gd, n, [p], p);
    MergedOf(k.past, [p]);
    assert Merged([p], k.past) - k.past[p] - {p} == {};
    OnTopAt(g, gd, g', gd', k, n, p);
    Redrawn(g, gd, g', gd', k, k.OnTop(n, p), n, [p], p);
  }

  lemma {:induction false} OnTopAt(g: Graph, gd: Ghosts, g': Graph, gd': Ghosts, k: Sketch, n: Hash, p: Hash)
    requires DrawnAt(g, gd, k, p) && Placed(g, gd, g', gd', n, [p], p) && p in k.past && g.past == k.past
    requires Merged([p], k.past) - k.past[p] - {p} == {}
    ensures DrawnAt(g', gd', k.OnTop(n, p), n)
  {
    hide GdOk, Linear, Chain, InOrder, Merged;
    InOrderFew(gd', p);
    assert Linear(g, gd, p) + [] + [n] == Linear(g, gd, p) + [n];
  }

  /** A block on a heavier parent `p` and a lighter one, `q`, that shares the rest of its past. */
  lemma {:induction false} AddOnBoth(g: Graph, gd: Ghosts, k: Sketch, n: Hash, p: Hash, q: Hash)
      returns (g': Graph, gd': Ghosts)
    requires Drawn(g, gd, k) && n !in k.past && n != ORIGIN && p in k.work && q in k.work && p in k.past && q in k.past
    requires (k.work[q] < k.work[p] || (k.work[q] == k.work[p] && q < p)) && q !in k.past[p] && k.past[q] <= k.past[p]
    ensures p in k.orders && p in k.chains && Drawn(g', gd', k.OnBoth(n, p, q))
  {
    Shown(g, gd, k, p);
    Shown(g, gd, k, q);
    StillFits(k, n, p, q);
    HeavierOfTwo(gd, k, p, q);
    hide Drawn, GdOk, Linear, Chain, InOrder, Merged, Placed, DrawnAt, Listed, Below, Heaviest, Sketch.Fits,
      Sketch.OnBoth, Extends;
    g', gd' := Place(g, gd, n, [p, q], p);
    MergedOf(k.past, [p, q]);
    TwoSets(k.past[p], k.past[q], p, q);
    OnBothAt(g, gd, g', gd', k, n, p, q);
    Redrawn(g, gd, g', gd', k, k.OnBoth(n, p, q), n, [p, q], p);
  }

  lemma {:induction false} TwoSets(a: set<Hash>, b: set<Hash>, p: Hash, q: Hash)
    requires b <= a && p !in a && q !in a && p != q
    ensures a + {p} + b + {q} == a + {p, q} && a + {p, q} - a - {p} == {q}
  {
  }

  lemma {:induction false} HeavierOfTwo(gd: Ghosts, k: Sketch, p: Hash, q: Hash)
    requires p in gd && q in gd && p in k.work && q in k.work && gd[p].blueWork == k.work[p] &&
      gd[q].blueWork == k.work[q]
    requires k.work[q] < k.work[p] || (k.work[q] == k.work[p] && q < p)
    ensures Heaviest(gd, Listed([p, q]), p)
  {
    assert Listed([p, q]) == {p, q};
  }

  lemma {:induction false} OnBothAt(g: Graph, gd: Ghosts, g': Graph, gd': Ghosts, k: Sketch, n: Hash, p: Hash, q: Hash)
    requires DrawnAt(g, gd, k, p) && Placed(g, gd, g', gd', n, [p, q], p) && p in k.past && g.past == k.past
    requires Merged([p, q], k.past) - k.past[p] - {p} == {q}
    ensures DrawnAt(g', gd', k.OnBoth(n, p, q), n)
  {
    hide GdOk, Linear, Chain, InOrder, Merged;
    InOrderFew(gd', q);
    assert Linear(g, gd, p) + [q] + [n] == Linear(g, gd, p) + [q, n];
  }

  const GENESIS: Sketch :=
    Sketch(map[ORIGIN := [], 1 := [ORIGIN]], map[ORIGIN := {}, 1 := {ORIGIN}], map[1 := 0], map[1 := [1]],
    map[1 := [1]])

  lemma {:induction false} Begin() returns (g: Graph, gd: Ghosts)
    ensures Drawn(g, gd, GENESIS)
  {
    g, gd := Start();
    forall b | b in GENESIS.work
      ensures DrawnAt(g, gd, GENESIS, b)
    {
    }
  }

  /** The sketch with `n` on top of genesis. */
  function Child(k: Sketch, n: Hash): Sketch {
    Sketch(k.parents[n := [1]], k.past[n := {ORIGIN, 1}], k.work[n := 1], k.orders[n := [1, n]], k.chains[n := [1, n]])
  }

  lemma {:induction false} ChildIs(k: Sketch, n: Hash)
    requires 1 in k.past && k.past[1] == {ORIGIN} && 1 in k.work && k.work[1] == 0 && 1 in k.orders &&
      k.orders[1] == [1] && 1 in k.chains && k.chains[1] == [1]
    ensures k.OnTop(n, 1) == Child(k, n)
  {
    assert k.past[1] + {1} == {ORIGIN, 1} && k.orders[1] + [n] == [1, n] && k.chains[1] + [n] == [1, n];
  }

  const FORK: Sketch := Child(Child(Child(GENESIS, 2), 3), 4)

  /** Three blocks on genesis. */
  lemma {:induction false} Fork() returns (g: Graph, gd: Ghosts)
    ensures Drawn(g, gd, FORK)
  {
    hide Drawn;
    g, gd := Begin();
    var k1, k2, k3 := GENESIS, Child(GENESIS, 2), Child(Child(GENESIS, 2), 3);
    g, gd := AddOnTop(g, gd, k1, 2, 1);
    ChildIs(k1, 2);
    g, gd := AddOnTop(g, gd, k2, 3, 1);
    ChildIs(k2, 3);
    g, gd := AddOnTop(g, gd, k3, 4, 1);
    ChildIs(k3, 4);
  }

  /** The sketch with `n` on top of `p` beside block 2, both on genesis. */
  function Merging(k: Sketch, n: Hash, p: Hash): Sketch {
    Sketch(k.parents[n := [p, 2]], k.past[n := {ORIGIN, 1, 2, p}], k.work[n := 2], k.orders[n := [1, p, 2, n]],
      k.chains[n := [1, p, n]])
  }

  lemma {:induction false} MergingIs(k: Sketch, n: Hash, p: Hash)
    requires p in k.past && k.past[p] == {ORIGIN, 1} && p in k.work && k.work[p] == 1
    requires p in k.orders && k.orders[p] == [1, p] && p in k.chains && k.chains[p] == [1, p]
    ensures k.OnBoth(n, p, 2) == Merging(k, n, p)
  {
    assert k.past[p] + {p, 2} == {ORIGIN, 1, 2, p} && k.orders[p] + [2, n] == [1, p, 2, n] &&
      k.chains[p] + [n] == [1, p, n];
  }

  /** A checkpoint that seems to fit and does not. Blocks 2, 3 and 4 follow genesis; 5 merges 2 beside 3,
      and later 6 merges 2 beside 4. While 5 is the tip, a checkpoint of three blocks ends with 2; once 6
      is the tip, 2 is again the third block, but the second is another one. No parent is redundant. */
  lemma {:induction false} StaleCheckpoint() returns (g: Graph, gd: Ghosts)
    ensures GdOk(g, gd) && Lean(g)
    ensures Heaviest(gd, gd.Keys - {ORIGIN, 6}, 5) && Heaviest(gd, gd.Keys - {ORIGIN}, 6)
    ensures Linear(g, gd, 5) == [1, 3, 2, 5] && Linear(g, gd, 6) == [1, 4, 2, 6]
    ensures 2 !in Chain(g, gd, 5) && 2 !in Chain(g, gd, 6)
  {
    hide Drawn;
    g, gd := Fork();
    g, gd := AddOnBoth(g, gd, FORK, 5, 3, 2);
    MergingIs(FORK, 5, 3);
    var k5 := Merging(FORK, 5, 3);
    g, gd := AddOnBoth(g, gd, k5, 6, 4, 2);
    MergingIs(k5, 6, 4);
    var k6 := Merging(k5, 6, 4);
    Shown(g, gd, k6, 5);
    Shown(g, gd, k6, 6);
    hide GdOk, Linear, Chain;
    StaleShown(g, gd, k6);
  }

  lemma {:induction false} StaleShown(g: Graph, gd: Ghosts, k: Sketch)
    requires Drawn(g, gd, k)
    requires k.past ==
      map[ORIGIN := {}, 1 := {ORIGIN}, 2 := {ORIGIN, 1}, 3 := {ORIGIN, 1}, 4 := {ORIGIN, 1}, 5 :=
      {ORIGIN, 1, 2, 3}, 6 := {ORIGIN, 1, 2, 4}]
    requires k.parents == map[ORIGIN := [], 1 := [ORIGIN], 2 := [1], 3 := [1], 4 := [1], 5 := [3, 2], 6 := [4, 2]]
    requires k.work == map[1 := 0, 2 := 1, 3 := 1, 4 := 1, 5 := 2, 6 := 2]
    ensures GdOk(g, gd) && Lean(g)
    ensures Heaviest(gd, gd.Keys - {ORIGIN, 6}, 5) && Heaviest(gd, gd.Keys - {ORIGIN}, 6)
  {
    hide GdOk, Linear, Chain, Lean, Below, Heaviest;
    Works(g, gd, k);
    hide Drawn, DrawnAt;
    StaleApart(k);
    LeanOf(g, k);
    TwoTips(gd, k);
  }

  lemma {:induction false} StaleApart(k: Sketch)
    requires k.past ==
      map[ORIGIN := {}, 1 := {ORIGIN}, 2 := {ORIGIN, 1}, 3 := {ORIGIN, 1}, 4 := {ORIGIN, 1}, 5 :=
      {ORIGIN, 1, 2, 3}, 6 := {ORIGIN, 1, 2, 4}]
    requires k.parents == map[ORIGIN := [], 1 := [ORIGIN], 2 := [1], 3 := [1], 4 := [1], 5 := [3, 2], 6 := [4, 2]]
    ensures forall b :: b in k.parents && b != ORIGIN && b != 1 ==>
      forall p, q :: p in k.parents[b] && q in k.parents[b] ==> q in k.past && p !in k.past[q]
  {
    forall b, p, q | b in k.parents && b != ORIGIN && b != 1 && p in k.parents[b] && q in k.parents[b]
      ensures q in k.past && p !in k.past[q]
    {
      assert b <= 4 ==> p == 1 && q == 1;
    }
  }

  lemma {:induction false} TwoTips(gd: Ghosts, k: Sketch)
    requires k.work == map[1 := 0, 2 := 1, 3 := 1, 4 := 1, 5 := 2, 6 := 2] && gd.Keys - {ORIGIN} == k.work.Keys
    requires forall b :: b in k.work ==> b in gd && gd[b].blueWork == k.work[b]
    ensures Heaviest(gd, gd.Keys - {ORIGIN, 6}, 5) && Heaviest(gd, gd.Keys - {ORIGIN}, 6)
  {
  }

  lemma {:induction false} Works(g: Graph, gd: Ghosts, k: Sketch)
    requires Drawn(g, gd, k)
    ensures GdOk(g, gd) && g.genesis == 1 && gd.Keys - {ORIGIN} == k.work.Keys && g.parents == k.parents &&
      g.past == k.past
    ensures forall b :: b in k.work ==> b in gd && gd[b].blueWork == k.work[b]
  {
    GraphParts(g, gd);
    hide GdOk, Linear, Chain;
    forall b | b in k.work
      ensures b in gd && gd[b].blueWork == k.work[b]
    {
      assert DrawnAt(g, gd, k, b);
    }
  }

  lemma {:induction false} LeanOf(g: Graph, k: Sketch)
    requires g.parents == k.parents && g.past == k.past && g.genesis == 1
    requires forall b :: b in k.parents && b != ORIGIN && b != 1 ==>
      forall p, q :: p in k.parents[b] && q in k.parents[b] ==> q in k.past && p !in k.past[q]
    ensures Lean(g)
  {
  }

  /** With it the state after block 6 is wrong. */
  lemma {:induction false} StaleState(headers: Headers, txs: Txs)
    requires forall b :: b in {2, 3, 4, 5, 6} ==> b in txs && txs[b] == [b]
    ensures var checkpoint := Run(Trace(), headers, txs, 1, [], [1, 3, 2]);
      Run(Trace(), headers, txs, 1, checkpoint, [1, 4, 2, 6][3..]) != Run(Trace(), headers, txs, 1, [], [1, 4, 2, 6])
  {
    var frozen: seq<Hash>, order: seq<Hash> := [1, 3, 2], [1, 4, 2, 6];
    assert frozen[1..] == [3, 2] && order[1..] == [4, 2, 6];
    PrefixExactly(headers, txs, 1, frozen, order);
    assert frozen[1] != order[1];
  }

  // ---------- a prune that leaves too short a chain ----------

  /** The sketch with `n`, whose row is written out. */
  function Row(k: Sketch, n: Hash, ps: seq<Hash>, past: set<Hash>, work: nat, order: seq<Hash>,
               chain: seq<Hash>): Sketch {
    Sketch(k.parents[n := ps], k.past[n := past], k.work[n := work], k.orders[n := order], k.chains[n := chain])
  }

  const LINE: Sketch :=
    Row(Child(GENESIS, 2), 3, [2], {ORIGIN, 1, 2}, 2, [1, 2, 3], [1, 2, 3])

  const WIDE: Sketch :=
    Row(Row(LINE, 4, [3], {ORIGIN, 1, 2, 3}, 3, [1, 2, 3, 4], [1, 2, 3, 4]), 5, [3], {ORIGIN, 1, 2, 3}, 3,
      [1, 2, 3, 5], [1, 2, 3, 5])

  const JOINED: Sketch := Row(WIDE, 6, [5, 4], {ORIGIN, 1, 2, 3, 4, 5}, 4, [1, 2, 3, 5, 4, 6], [1, 2, 3, 5, 6])

  lemma {:induction false} Lined() returns (g: Graph, gd: Ghosts)
    ensures Drawn(g, gd, LINE)
  {
    hide Drawn;
    g, gd := Begin();
    g, gd := AddOnTop(g, gd, GENESIS, 2, 1);
    ChildIs(GENESIS, 2);
    var k2 := Child(GENESIS, 2);
    g, gd := AddOnTop(g, gd, k2, 3, 2);
    assert k2.past[2] + {2} == {ORIGIN, 1, 2} && k2.orders[2] + [3] == [1, 2, 3] && k2.chains[2] + [3] == [1, 2, 3];
  }

  lemma {:induction false} Widened() returns (g: Graph, gd: Ghosts)
    ensures Drawn(g, gd, WIDE)
  {
    hide Drawn;
    g, gd := Lined();
    g, gd := AddOnTop(g, gd, LINE, 4, 3);
    assert LINE.past[3] + {3} == {ORIGIN, 1, 2, 3} && LINE.orders[3] + [4] == [1, 2, 3, 4] &&
      LINE.chains[3] + [4] == [1, 2, 3, 4];
    var k4 := Row(LINE, 4, [3], {ORIGIN, 1, 2, 3}, 3, [1, 2, 3, 4], [1, 2, 3, 4]);
    g, gd := AddOnTop(g, gd, k4, 5, 3);
    assert k4.orders[3] + [5] == [1, 2, 3, 5] && k4.chains[3] + [5] == [1, 2, 3, 5];
  }

  lemma {:induction false} Joined() returns (g: Graph, gd: Ghosts)
    ensures Drawn(g, gd, JOINED)
  {
    hide Drawn;
    g, gd := Widened();
    g, gd := AddOnBoth(g, gd, WIDE, 6, 5, 4);
    assert WIDE.past[5] + {5, 4} == {ORIGIN, 1, 2, 3, 4, 5} && WIDE.orders[5] + [4, 6] == [1, 2, 3, 5, 4, 6] &&
      WIDE.chains[5] + [6] == [1, 2, 3, 5, 6];
  }

  /** Leaving a window and the finality depth of blocks behind the tip does not leave a window of chain
      blocks. Blocks 2 and 3 follow genesis one by one, 4 and 5 are on 3, and 6 merges 4 beside 5. For a
      window of 3 and depth 1 the cut is at 3; from there to the tip the chain has 3 blocks, one less than
      the next target is computed from. */
  lemma {:induction false} ShortWindow() returns (g: Graph, gd: Ghosts)
    ensures GdOk(g, gd) && Lean(g) && Heaviest(gd, gd.Keys - {ORIGIN}, 6)
    ensures Linear(g, gd, 6) == [1, 2, 3, 5, 4, 6] && Chain(g, gd, 6) == [1, 2, 3, 5, 6] && Chain(g, gd, 3) == [1, 2, 3]
    ensures CutOf(Linear(g, gd, 6), Chain(g, gd, 6), 3 + 1) == 2 && CleanAbove(g, 6, 3)
    ensures |Chain(g, gd, 6)| - |Chain(g, gd, 3)| + 1 == 3
  {
    hide Drawn;
    g, gd := Joined();
    Shown(g, gd, JOINED, 6);
    Shown(g, gd, JOINED, 3);
    ShortShown(g, gd);
    hide GdOk, Linear, Chain, Lean, Deepest, CleanAbove, Heaviest;
    assert Deepest([1, 2, 3, 5, 4, 6], Listed([1, 2, 3, 5, 6]), 2) == 2 by {
      DeepestHere([1, 2, 3, 5, 4, 6], Listed([1, 2, 3, 5, 6]), 2);
    }
  }

  lemma {:induction false} DeepestHere(order: seq<Hash>, chain: set<Hash>, i: nat)
    requires i < |order| && order[i] in chain
    ensures Deepest(order, chain, i) == i
  {
  }

  lemma {:induction false} ShortShown(g: Graph, gd: Ghosts)
    requires Drawn(g, gd, JOINED)
    ensures GdOk(g, gd) && Lean(g) && Heaviest(gd, gd.Keys - {ORIGIN}, 6) && CleanAbove(g, 6, 3)
  {
    hide GdOk, Linear, Chain, Lean, Below, CleanAbove, Drawn, DrawnAt, Heaviest, Less;
    Works(g, gd, JOINED);
    JoinedWork();
    HeaviestOf(gd, JOINED, 6);
    JoinedLean();
    LeanOf(g, JOINED);
    CleanOf(g);
  }

  lemma {:induction false} JoinedWork()
    ensures 6 in JOINED.work && forall b :: b in JOINED.work && b != 6 ==> JOINED.work[b] < JOINED.work[6]
  {
  }

  lemma {:induction false} JoinedLean()
    ensures forall b :: b in JOINED.parents && b != ORIGIN && b != 1 ==>
      forall p, q :: p in JOINED.parents[b] && q in JOINED.parents[b] ==> q in JOINED.past && p !in JOINED.past[q]
  {
    assert JOINED.parents == map[ORIGIN := [], 1 := [ORIGIN], 2 := [1], 3 := [2], 4 := [3], 5 := [3], 6 := [5, 4]];
  }

  lemma {:induction false} HeaviestOf(gd: Ghosts, k: Sketch, m: Hash)
    requires gd.Keys - {ORIGIN} == k.work.Keys && m in k.work && forall b :: b in k.work ==>
      b in gd && gd[b].blueWork == k.work[b]
    requires forall b :: b in k.work && b != m ==> k.work[b] < k.work[m]
    ensures Heaviest(gd, gd.Keys - {ORIGIN}, m)
  {
  }

  lemma {:induction false} CleanOf(g: Graph)
    requires g.past == JOINED.past
    ensures CleanAbove(g, 6, 3)
  {
  }

  /** So the next target may change: four blocks of one second make it ten times as hard, but for the three
      that are left the window is not full and the last target stays. */
  lemma {:induction false} TargetChanges()
    ensures var half: U256, p := U256_MAX / 2, Params(10, 3);
      var b := Sample(0, half);
      TargetAfter([b, b, b, b], p, half) == U256_MAX / 20 && TargetAfter([b, b, b], p, half) == half > U256_MAX / 20
  {
    var half: U256, p := U256_MAX / 2, Params(10, 3);
    var b := Sample(0, half);
    var w := [b, b, b, b];
    WorkIsExpectation(half);
    assert TWO_256 / (half + 1) == 2;
    assert WorkForTarget(half) == 2;
    hide WorkForTarget;
    WindowSums(w, 1, 10);
    WindowSums(w, 2, 10);
    WindowSums(w, 3, 10);
    assert WeightedTime(w, 3, 10) == 6 && DifficultySum(w, 3) == 6;
    assert Last(w, 4) == w;
  }

  /** Where the product leaves 256 bits it is cut: on-time blocks of the highest difficulty make the next
      one three times easier. */
  lemma {:induction false} CutProduct()
    ensures TargetAfter([Sample(0, 0), Sample(1, 0), Sample(2, 0)], Params(1, 2), 0) == 3
  {
    var w := [Sample(0, 0), Sample(1, 0), Sample(2, 0)];
    assert WorkForTarget(0) == U256_MAX;
    hide WorkForTarget;
    WindowSums(w, 1, 1);
    WindowSums(w, 2, 1);
    assert WeightedTime(w, 2, 1) == 3 && DifficultySum(w, 2) == 2 * U256_MAX;
    assert Last(w, 3) == w;
  }

  // ---------- redundant parents ----------

  /** A block on 2 and on genesis below it: the search takes genesis for merged although it is in the past
      of the selected parent. */
  lemma {:induction false} RedundantParent() returns (g: Graph, gd: Ghosts)
    ensures GdOk(g, gd) && 1 in g.past && 2 in g.past && Heaviest(gd, Listed([2, 1]), 2)
    ensures MergedFor(g.past, [2, 1], 2) == {1} && Merged([2, 1], g.past) - g.past[2] - {2} == {}
  {
    hide Drawn;
    g, gd := Begin();
    g, gd := AddOnTop(g, gd, GENESIS, 2, 1);
    ChildIs(GENESIS, 2);
    var k := Child(GENESIS, 2);
    Shown(g, gd, k, 1);
    Shown(g, gd, k, 2);
    HeavierOfTwo(gd, k, 2, 1);
    hide GdOk, Linear, Chain;
    MergedOf(g.past, [2, 1]);
    forall x
      ensures x in MergedFor(g.past, [2, 1], 2) <==> x == 1
    {
      assert Below(g.past, 1, 1) && 1 in [2, 1];
    }
  }

  // ---------- a kept block that does not descend from the cut ----------

  const BESIDE: Sketch := Child(Child(GENESIS, 2), 3)

  /** What adding the blocks from 3 on again gives: genesis was not kept, so 2 is put on 3. */
  const REBUILT: Graph :=
    Graph(map[ORIGIN := [], 3 := [ORIGIN], 2 := [3], 4 := [3, 2]],
    map[ORIGIN := {}, 3 := {ORIGIN}, 2 := {ORIGIN, 3}, 4 := {ORIGIN, 2, 3}], 3, 0)

  lemma {:induction false} RebuiltRooted()
    ensures Rooted(REBUILT)
  {
    var e := EmptyGraph(3, 0);
    GenesisAlone(3, 0);
    OriginMerged(e.past);
    var g := Extended(e, 3, [ORIGIN], Merged([ORIGIN], e.past));
    PastGrows(g.parents, g.past, 2, [3]);
    MergedOf(g.past, [3]);
    var h := With(g, 2, [3]);
    assert g.past[3] + {3} == {ORIGIN, 3};
    PastGrows(h.parents, h.past, 4, [3, 2]);
    MergedOf(h.past, [3, 2]);
    assert h.past[3] + {3} + h.past[2] + {2} == {ORIGIN, 2, 3};
    var r := With(h, 4, [3, 2]);
    assert r.parents == REBUILT.parents && r.past == REBUILT.past;
  }

  lemma {:induction false} CutHere() returns (g: Graph, gd: Ghosts)
    ensures Drawn(g, gd, Merging(BESIDE, 4, 3))
  {
    hide Drawn;
    g, gd := Begin();
    g, gd := AddOnTop(g, gd, GENESIS, 2, 1);
    ChildIs(GENESIS, 2);
    g, gd := AddOnTop(g, gd, Child(GENESIS, 2), 3, 1);
    ChildIs(Child(GENESIS, 2), 3);
    g, gd := AddOnBoth(g, gd, BESIDE, 4, 3, 2);
    MergingIs(BESIDE, 4, 3);
  }

  /** Blocks 2 and 3 are on genesis and 4 merges 2 beside 3, so the order is 1, 3, 2, 4. Cut at 3 it keeps
      2, which does not descend from 3; in the rebuilt graph it does. */
  lemma {:induction false} NotFromTheCut() returns (g: Graph, gd: Ghosts)
    ensures GdOk(g, gd) && Linear(g, gd, 4) == [1, 3, 2, 4] && 3 in Chain(g, gd, 4) && 2 in g.past && 4 in g.past
    ensures !CleanAbove(g, 4, 3) && 3 !in g.past[2]
    ensures Rooted(REBUILT) && REBUILT.genesis == 3 && Suffix(REBUILT) == Listed(Linear(g, gd, 4)[1..]) &&
      3 in REBUILT.past[2]
  {
    hide Drawn;
    g, gd := CutHere();
    var k := Merging(BESIDE, 4, 3);
    Shown(g, gd, k, 4);
    Shown(g, gd, k, 2);
    RebuiltRooted();
    hide GdOk, Linear, Chain, Rooted, CleanAbove, Listed;
    Unclean(g.past, k.past);
    NotClean(g);
    RebuiltBlocks();
    assert Linear(g, gd, 4) == k.orders[4] == [1, 3, 2, 4] && Chain(g, gd, 4) == k.chains[4] == [1, 3, 4];
  }

  lemma {:induction false} Unclean(past: Pasts, shown: Pasts)
    requires past == shown == Merging(BESIDE, 4, 3).past
    ensures 2 in past && 4 in past && 3 in past && 2 in past[4] && 2 !in past[3] && 3 !in past[2]
  {
  }

  lemma {:induction false} NotClean(g: Graph)
    requires 2 in g.past && 4 in g.past && 3 in g.past && 2 in g.past[4] && 2 !in g.past[3] && 3 !in g.past[2]
    ensures !CleanAbove(g, 4, 3)
  {
    assert Below(g.past, 2, 4) && !Below(g.past, 2, 3) && !Below(g.past, 3, 2);
  }

  lemma {:induction false} RebuiltBlocks()
    ensures 2 in REBUILT.past && 3 in REBUILT.past[2] && REBUILT.genesis == 3 &&
      Suffix(REBUILT) == Listed([1, 3, 2, 4][1..])
  {
    assert [1, 3, 2, 4][1..] == [3, 2, 4];
    assert Listed([3, 2, 4]) == {2, 3, 4};
  }
}
