/** GHOSTDAG as a specification: the order by blue work, k-clusters, greedy colouring, and what the
    data recorded for every block must be. */
module Ghostdag {
  import opened Types
  import opened Dag

  datatype GhostdagData = GhostdagData(blueScore: nat, blueWork: nat, selectedParent: Hash, blues: seq<Hash>,
                                       reds: seq<Hash>, sizes: map<Hash, nat>)

  type Ghosts = map<Hash, GhostdagData>

  /** A block DAG with its first block and the bound on anticone sizes. */
  datatype Graph = Graph(parents: Parents, past: Pasts, genesis: Hash, k: nat)

  // ---------- the order by blue work, then by id ----------

  function BlueWork(gd: Ghosts, h: Hash): nat {
    if h in gd then gd[h].blueWork else 0
  }

  predicate Less(gd: Ghosts, a: Hash, b: Hash) {
    BlueWork(gd, a) < BlueWork(gd, b) || (BlueWork(gd, a) == BlueWork(gd, b) && a < b)
  }

  ghost predicate Heaviest(gd: Ghosts, s: set<Hash>, m: Hash) {
    m in s && forall x :: x in s ==> x == m || Less(gd, x, m)
  }

  ghost predicate Sorted(gd: Ghosts, order: seq<Hash>) {
    forall i, j :: 0 <= i < j < |order| ==> Less(gd, order[i], order[j])
  }

  lemma {:induction false} HeaviestExists(gd: Ghosts, s: set<Hash>)
    requires s != {}
    ensures exists m :: Heaviest(gd, s, m)
  {
    var m :| m in s;
    if forall x :: x in s ==> x == m {
      assert Heaviest(gd, s, m);
    } else {
      var y :| y in s && y != m;
      var rest := s - {m};
      assert y in rest;
      HeaviestExists(gd, rest);
      var n :| Heaviest(gd, rest, n);
      var top := if Less(gd, m, n) then n else m;
      forall x | x in s
        ensures x == top || Less(gd, x, top)
      {
        assert x == m || x in rest;
      }
      assert Heaviest(gd, s, top);
    }
  }

  /** The blocks of a set, lightest first. */
  ghost function InOrder(gd: Ghosts, s: set<Hash>): (order: seq<Hash>)
    ensures Listed(order) == s && Sorted(gd, order)
  {
    if s == {} then [] else
      HeaviestExists(gd, s);
      var m :| Heaviest(gd, s, m);
      var rest := InOrder(gd, s - {m});
      assert Listed(rest + [m]) == Listed(rest) + {m};
      assert forall i :: 0 <= i < |rest| ==> rest[i] in Listed(rest);
      rest + [m]
  }

  lemma {:induction false} SortedUnique(gd: Ghosts, u: seq<Hash>, v: seq<Hash>)
    requires Sorted(gd, u) && Sorted(gd, v) && Listed(u) == Listed(v)
    ensures u == v
  {
    ListedNone(u);
    ListedNone(v);
    if |u| > 0 {
      assert u[|u| - 1] in Listed(v);
      assert v[|v| - 1] in Listed(u);
      var i :| 0 <= i < |v| && v[i] == u[|u| - 1];
      var j :| 0 <= j < |u| && u[j] == v[|v| - 1];
      assert u[|u| - 1] == v[|v| - 1];
      SortedInit(gd, u);
      SortedInit(gd, v);
      SortedUnique(gd, u[..|u| - 1], v[..|v| - 1]);
      assert u == u[..|u| - 1] + [u[|u| - 1]];
      assert v == v[..|v| - 1] + [v[|v| - 1]];
    }
  }

  lemma {:induction false} ListedNone(s: seq<Hash>)
    ensures Listed(s) == {} <==> |s| == 0
  {
    if |s| > 0 {
      assert s[0] in Listed(s);
    }
  }

  lemma {:induction false} SortedInit(gd: Ghosts, u: seq<Hash>)
    requires Sorted(gd, u) && |u| > 0
    ensures Sorted(gd, u[..|u| - 1]) && Listed(u[..|u| - 1]) == Listed(u) - {u[|u| - 1]}
  {
    var w := u[..|u| - 1];
    forall x | x in Listed(u) - {u[|u| - 1]}
      ensures x in Listed(w)
    {
      var i :| 0 <= i < |u| && u[i] == x;
      assert w[i] == x;
    }
  }

  // ---------- clusters ----------

  ghost predicate Anticone(past: Pasts, a: Hash, b: Hash) {
    !Below(past, a, b) && !Below(past, b, a)
  }

  ghost function AnticoneIn(past: Pasts, s: set<Hash>, p: Hash): set<Hash> {
    set q | q in s && Anticone(past, q, p)
  }

  ghost predicate Bounded(past: Pasts, s: set<Hash>, k: nat, p: Hash) {
    |AnticoneIn(past, s, p)| <= k
  }

  /** No block of the set has more than `k` blocks of the set in its anticone. */
  ghost predicate KCluster(past: Pasts, s: set<Hash>, k: nat) {
    forall p {:trigger Bounded(past, s, k, p)} :: p in s ==> Bounded(past, s, k, p)
  }

  datatype Colours = Colours(blues: seq<Hash>, reds: seq<Hash>)

  /** Blocks taken one by one: blue if the blues so far stay a k-cluster with it, else red. */
  ghost function Greedy(past: Pasts, base: set<Hash>, k: nat, order: seq<Hash>): Colours {
    if |order| == 0 then Colours([], []) else
      var c, x := Greedy(past, base, k, order[..|order| - 1]), order[|order| - 1];
      if KCluster(past, base + Listed(c.blues) + {x}, k) then Colours(c.blues + [x], c.reds)
        else Colours(c.blues, c.reds + [x])
  }

  lemma {:induction false} GreedyStep(past: Pasts, base: set<Hash>, k: nat, order: seq<Hash>, i: nat)
    requires i < |order|
    ensures Greedy(past, base, k, order[..i + 1]) ==
      var c, x := Greedy(past, base, k, order[..i]), order[i];
      if KCluster(past, base + Listed(c.blues) + {x}, k) then Colours(c.blues + [x], c.reds)
        else Colours(c.blues, c.reds + [x])
  {
    assert order[..i + 1][..i] == order[..i];
  }

  lemma {:induction false} GreedyWithin(past: Pasts, base: set<Hash>, k: nat, order: seq<Hash>)
    ensures var c := Greedy(past, base, k, order);
      Listed(c.blues) + Listed(c.reds) == Listed(order) && |c.blues| + |c.reds| == |order|
  {
    if |order| > 0 {
      var init, x := order[..|order| - 1], order[|order| - 1];
      GreedyWithin(past, base, k, init);
      var c := Greedy(past, base, k, init);
      assert order == init + [x];
      ListedSnoc(init, x);
      ListedSnoc(c.blues, x);
      ListedSnoc(c.reds, x);
    }
  }

  lemma {:induction false} ListedSnoc(s: seq<Hash>, x: Hash)
    ensures Listed(s + [x]) == Listed(s) + {x}
  {
  }

  /** The greedy choice keeps a k-cluster. */
  lemma {:induction false} GreedyCluster(past: Pasts, base: set<Hash>, k: nat, order: seq<Hash>)
    requires KCluster(past, base, k)
    ensures KCluster(past, base + Listed(Greedy(past, base, k, order).blues), k)
  {
    if |order| == 0 {
      assert base + Listed([]) == base;
    } else {
      var init, x := order[..|order| - 1], order[|order| - 1];
      var c := Greedy(past, base, k, init);
      GreedyCluster(past, base, k, init);
      ListedSnoc(c.blues, x);
      assert base + Listed(c.blues) + {x} == base + (Listed(c.blues) + {x});
    }
  }

  /** `x` comes after a k-cluster `b`: it precedes none of its blocks. */
  ghost predicate After(past: Pasts, b: set<Hash>, x: Hash) {
    forall p :: p in b ==> !Below(past, x, p)
  }

  /** The blocks of `b` that do not precede `x`. */
  ghost function Beside(past: Pasts, b: set<Hash>, x: Hash): set<Hash> {
    set p | p in b && !Below(past, p, x)
  }

  lemma {:induction false} OneMore<T>(s: set<T>, x: T)
    requires x !in s
    ensures |s + {x}| == |s| + 1
  {
  }

  /** How the anticones within the cluster change when `x` joins. */
  lemma {:induction false} AnticoneJoins(past: Pasts, b: set<Hash>, x: Hash, p: Hash)
    requires After(past, b, x) && x !in b && p in b
    ensures AnticoneIn(past, b + {x}, p) == AnticoneIn(past, b, p) + (if p in Beside(past, b, x) then {x} else {})
    ensures |AnticoneIn(past, b + {x}, p)| == |AnticoneIn(past, b, p)| + (if p in Beside(past, b, x) then 1 else 0)
  {
    assert x !in AnticoneIn(past, b, p);
    if p in Beside(past, b, x) {
      assert AnticoneIn(past, b + {x}, p) == AnticoneIn(past, b, p) + {x};
      OneMore(AnticoneIn(past, b, p), x);
    } else {
      assert AnticoneIn(past, b + {x}, p) == AnticoneIn(past, b, p);
    }
  }

  lemma {:induction false} AnticoneOfNew(past: Pasts, b: set<Hash>, x: Hash)
    requires After(past, b, x)
    ensures AnticoneIn(past, b + {x}, x) == AnticoneIn(past, b, x) == Beside(past, b, x)
  {
  }

  /** The test of the candidate against its anticone decides whether the cluster survives. */
  lemma {:induction false} JoinTest(past: Pasts, b: set<Hash>, k: nat, x: Hash)
    requires KCluster(past, b, k) && After(past, b, x) && x !in b
    ensures KCluster(past, b + {x}, k) <==>
      |Beside(past, b, x)| <= k && forall p :: p in Beside(past, b, x) ==> |AnticoneIn(past, b, p)| < k
  {
    AnticoneOfNew(past, b, x);
    forall p | p in b
      ensures Bounded(past, b + {x}, k, p) <==> (p in Beside(past, b, x) ==> |AnticoneIn(past, b, p)| < k)
    {
      assert Bounded(past, b, k, p);
      AnticoneJoins(past, b, x, p);
    }
    if KCluster(past, b + {x}, k) {
      assert Bounded(past, b + {x}, k, x);
      forall p | p in Beside(past, b, x)
        ensures |AnticoneIn(past, b, p)| < k
      {
        assert Bounded(past, b + {x}, k, p);
      }
    }
    if |Beside(past, b, x)| <= k && forall p :: p in Beside(past, b, x) ==> |AnticoneIn(past, b, p)| < k {
      forall p | p in b + {x}
        ensures Bounded(past, b + {x}, k, p)
      {
      }
    }
  }

  /** With `k` blues merged next to the selected parent there is no place for another: checking
      further could not turn a candidate blue. */
  lemma {:induction false} FullMeansRed(past: Pasts, b: set<Hash>, sp: Hash, merged: set<Hash>, k: nat, x: Hash)
    requires KCluster(past, b, k) && After(past, b, x) && x !in b && sp in b && merged <= b && |merged| >= k
    requires !Below(past, sp, x) && forall y :: y in merged ==> Anticone(past, y, sp)
    ensures !KCluster(past, b + {x}, k)
  {
    JoinTest(past, b, k, x);
    SubsetCount(merged, AnticoneIn(past, b, sp));
    assert sp in Beside(past, b, x);
  }

  // ---------- the data of every block ----------

  ghost function MergeSet(past: Pasts, b: Hash, sp: Hash): set<Hash>
    requires b in past && sp in past
  {
    past[b] - past[sp] - {sp}
  }

  /** The blues in the past of `b`: those it merges and those of its selected parent. */
  ghost function BlueSet(past: Pasts, gd: Ghosts, b: Hash): set<Hash>
    decreases if b in past then past[b] else {}
  {
    if b !in gd then {} else
      var sp := gd[b].selectedParent;
      Listed(gd[b].blues) + if b in past && sp in past && past[sp] < past[b] then BlueSet(past, gd, sp) else {}
  }

  /** The recorded anticone size of `p` as seen from `b`: the nearest record along the chain. */
  ghost function Recorded(past: Pasts, gd: Ghosts, b: Hash, p: Hash): int
    decreases if b in past then past[b] else {}
  {
    if b !in gd then -1
    else if p in gd[b].sizes then gd[b].sizes[p]
    else
      var sp := gd[b].selectedParent;
      if b in past && sp in past && past[sp] < past[b] then Recorded(past, gd, sp, p) else -1
  }

  /** A block of `b` whose anticone met one of `blues`. */
  ghost predicate Touched(past: Pasts, blues: seq<Hash>, p: Hash) {
    p in blues || exists q :: q in blues && Anticone(past, q, p)
  }

  ghost predicate SizeOk(past: Pasts, all: set<Hash>, blues: seq<Hash>, sizes: map<Hash, nat>, p: Hash) {
    && (p in sizes <==> p in all && Touched(past, blues, p))
    && (p in sizes ==> sizes[p] == |AnticoneIn(past, all, p)|)
  }

  /** Sizes are recorded for exactly the blues whose anticone this block changed, and are true. */
  ghost predicate SizesOk(past: Pasts, below: set<Hash>, blues: seq<Hash>, sizes: map<Hash, nat>) {
    forall p {:trigger SizeOk(past, below + Listed(blues), blues, sizes, p)} ::
      SizeOk(past, below + Listed(blues), blues, sizes, p)
  }

  const ORIGIN_DATA := GhostdagData(0, 0, NONE, [], [], map[])

  const GENESIS_DATA := GhostdagData(0, 0, ORIGIN, [ORIGIN], [], map[ORIGIN := 0])

  /** The data of a block with these parents and this past. Every block has one unit of work. */
  ghost predicate DataFor(past: Pasts, gd: Ghosts, k: nat, ps: seq<Hash>, whole: set<Hash>, d: GhostdagData) {
    var sp := d.selectedParent;
    && Heaviest(gd, Listed(ps), sp) && sp in past && sp in gd
    && |d.blues| > 0 && d.blues[0] == sp
    && Colours(d.blues[1..], d.reds) ==
      Greedy(past, BlueSet(past, gd, sp) + {sp}, k, InOrder(gd, whole - past[sp] - {sp}))
    && d.blueScore == gd[sp].blueScore + |d.blues| && d.blueWork == gd[sp].blueWork + |d.blues|
    && SizesOk(past, BlueSet(past, gd, sp), d.blues, d.sizes)
  }

  ghost predicate DataOk(g: Graph, gd: Ghosts, b: Hash) {
    && b in g.parents && b in g.past && b in gd
    && DataFor(g.past, gd, g.k, g.parents[b], g.past[b], gd[b])
  }

  ghost predicate HasParents(g: Graph, b: Hash) {
    b in g.parents && |g.parents[b]| > 0 && ORIGIN !in g.parents[b]
  }

  /** One root: the origin, with genesis as its only child. */
  ghost predicate Rooted(g: Graph) {
    && PastOk(g.parents, g.past)
    && ORIGIN in g.parents && g.parents[ORIGIN] == []
    && g.genesis != ORIGIN && g.genesis in g.parents && g.parents[g.genesis] == [ORIGIN]
    && forall b {:trigger HasParents(g, b)} :: b in g.parents && b != ORIGIN && b != g.genesis ==> HasParents(g, b)
  }

  ghost predicate GdOk(g: Graph, gd: Ghosts) {
    && Rooted(g) && gd.Keys == g.past.Keys
    && gd[ORIGIN] == ORIGIN_DATA && gd[g.genesis] == GENESIS_DATA
    && forall b {:trigger DataOk(g, gd, b)} :: b in gd && b != ORIGIN && b != g.genesis ==> DataOk(g, gd, b)
  }

  lemma {:induction false} GraphParts(g: Graph, gd: Ghosts)
    requires GdOk(g, gd)
    ensures Rooted(g) && PastOk(g.parents, g.past) && gd.Keys == g.past.Keys == g.parents.Keys && ORIGIN in gd &&
      g.genesis in gd && g.genesis != ORIGIN
  {
  }

  lemma {:induction false} RootPasts(g: Graph)
    requires Rooted(g)
    ensures ORIGIN in g.past && g.genesis in g.past && g.past[ORIGIN] == {} && g.past[g.genesis] == {ORIGIN}
  {
    assert PastStep(g.parents, g.past, ORIGIN);
    assert PastStep(g.parents, g.past, g.genesis);
    forall x
      ensures x in g.past[ORIGIN] <==> false
      ensures x in g.past[g.genesis] <==> x == ORIGIN
    {
      InMerged([], g.past, x);
      InMerged([ORIGIN], g.past, x);
      if x in g.past[g.genesis] {
        var p :| p in [ORIGIN] && Below(g.past, x, p);
      }
      assert ORIGIN in [ORIGIN] && (x == ORIGIN ==> Below(g.past, x, ORIGIN));
    }
  }

  /** Every block but the two first descends from genesis. */
  lemma {:induction false} GenesisBelow(g: Graph, b: Hash)
    requires Rooted(g) && b in g.past && b != ORIGIN && b != g.genesis
    ensures g.genesis in g.past[b]
    decreases g.past[b]
  {
    assert HasParents(g, b);
    var p := g.parents[b][0];
    PastSmaller(g.parents, g.past, p, b);
    if p != g.genesis {
      GenesisBelow(g, p);
    }
  }

  lemma {:induction false} SelectedBelow(g: Graph, gd: Ghosts, b: Hash)
    requires GdOk(g, gd) && b in gd && b != ORIGIN && b != g.genesis
    ensures DataOk(g, gd, b)
    ensures var sp := gd[b].selectedParent;
      sp in gd && sp in g.past && sp in g.past[b] && g.past[sp] < g.past[b] && sp != ORIGIN && b != sp &&
        sp in g.parents[b]
  {
    assert DataOk(g, gd, b);
    assert HasParents(g, b);
    PastSmaller(g.parents, g.past, gd[b].selectedParent, b);
  }

  /** Blue work grows along every edge of the DAG above the origin. */
  lemma {:induction false} WorkGrows(g: Graph, gd: Ghosts, a: Hash, b: Hash)
    requires GdOk(g, gd) && b in gd && a in g.past[b] && a != ORIGIN
    ensures a in gd && gd[a].blueWork < gd[b].blueWork
    decreases g.past[b]
  {
    RootPasts(g);
    PastInside(g.parents, g.past, a, b);
    SelectedBelow(g, gd, b);
    assert PastStep(g.parents, g.past, b);
    var p :| p in g.parents[b] && Below(g.past, a, p);
    PastSmaller(g.parents, g.past, p, b);
    assert p in Listed(g.parents[b]);
    hide GdOk, Greedy, SizesOk;
    if a != p {
      WorkGrows(g, gd, a, p);
    }
  }

  /** Blocks sorted by blue work come after their ancestors. */
  lemma {:induction false} SortedTopological(g: Graph, gd: Ghosts, order: seq<Hash>, i: nat, j: nat)
    requires GdOk(g, gd) && Sorted(gd, order) && i < |order| && j < |order|
    requires order[i] in gd && order[j] in gd && order[i] != ORIGIN && order[i] in g.past[order[j]]
    ensures i < j
  {
    WorkGrows(g, gd, order[i], order[j]);
    hide GdOk;
    assert forall l :: j < l < |order| ==> Less(gd, order[j], order[l]);
  }
}
