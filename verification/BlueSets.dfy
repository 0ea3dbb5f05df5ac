/** What the recorded data says about the blues in the past of every block: they form a k-cluster,
    and the sizes recorded along the chain are the true ones. */
module BlueSets {
  import opened Types
  import opened Dag
  import opened Ghostdag

  lemma {:induction false} BlueSetSplit(g: Graph, gd: Ghosts, b: Hash)
    requires GdOk(g, gd) && b in gd && b != ORIGIN && b != g.genesis
    ensures var sp := gd[b].selectedParent;
      sp in g.past && sp in gd && BlueSet(g.past, gd, b) == BlueSet(g.past, gd, sp) + Listed(gd[b].blues)
  {
    SelectedBelow(g, gd, b);
  }

  lemma {:induction false} RootBlues(g: Graph, gd: Ghosts)
    requires GdOk(g, gd)
    ensures BlueSet(g.past, gd, ORIGIN) == {} && BlueSet(g.past, gd, g.genesis) == {ORIGIN}
  {
    RootPasts(g);
    assert Listed([]) == {} && Listed([ORIGIN]) == {ORIGIN};
  }

  /** The blues a block merges: its selected parent, then the greedy choice. */
  lemma {:induction false} BluesMerged(g: Graph, gd: Ghosts, b: Hash)
    requires GdOk(g, gd) && b in gd && b != ORIGIN && b != g.genesis
    ensures var d := gd[b]; var sp := d.selectedParent;
      && sp in g.past && b in g.past && |d.blues| > 0
      && d.blues == [sp] + d.blues[1..]
      && Listed(d.blues) == {sp} + Listed(d.blues[1..])
      && Listed(d.blues[1..]) + Listed(d.reds) == MergeSet(g.past, b, sp)
      && |d.blues| - 1 + |d.reds| == |InOrder(gd, MergeSet(g.past, b, sp))|
  {
    SelectedBelow(g, gd, b);
    var d := gd[b];
    var sp := d.selectedParent;
    hide GdOk, SizesOk, Greedy;
    GreedyWithin(g.past, BlueSet(g.past, gd, sp) + {sp}, g.k, InOrder(gd, MergeSet(g.past, b, sp)));
    assert d.blues == [sp] + d.blues[1..];
  }

  lemma {:induction false} BlueSetBelow(g: Graph, gd: Ghosts, b: Hash)
    requires GdOk(g, gd) && b in gd
    ensures b in g.past && BlueSet(g.past, gd, b) <= g.past[b]
    decreases if b in g.past then g.past[b] else {}
  {
    RootPasts(g);
    RootBlues(g, gd);
    if b != ORIGIN && b != g.genesis {
      SelectedBelow(g, gd, b);
      BlueSetSplit(g, gd, b);
      BluesMerged(g, gd, b);
      hide GdOk, DataOk;
      BlueSetBelow(g, gd, gd[b].selectedParent);
    }
  }

  /** The selected parent joins its own blues without meeting any in its anticone. */
  lemma {:induction false} TopJoins(past: Pasts, s: set<Hash>, k: nat, sp: Hash)
    requires sp in past && s <= past[sp] && KCluster(past, s, k)
    ensures KCluster(past, s + {sp}, k)
    ensures AnticoneIn(past, s + {sp}, sp) == {} && forall p :: p in s ==>
      AnticoneIn(past, s + {sp}, p) == AnticoneIn(past, s, p)
  {
    forall p | p in s + {sp}
      ensures Bounded(past, s + {sp}, k, p)
      ensures AnticoneIn(past, s + {sp}, p) == if p == sp then {} else AnticoneIn(past, s, p)
    {
      if p == sp {
        assert AnticoneIn(past, s + {sp}, sp) == {};
      } else {
        assert Bounded(past, s, k, p);
        assert AnticoneIn(past, s + {sp}, p) == AnticoneIn(past, s, p);
      }
    }
  }

  /** The blue set of every block is a k-cluster. */
  lemma {:induction false} BlueSetCluster(g: Graph, gd: Ghosts, b: Hash)
    requires GdOk(g, gd) && b in gd
    ensures KCluster(g.past, BlueSet(g.past, gd, b), g.k)
    decreases if b in g.past then g.past[b] else {}
  {
    RootBlues(g, gd);
    if b == g.genesis {
      assert AnticoneIn(g.past, {ORIGIN}, ORIGIN) == {};
    } else if b != ORIGIN {
      SelectedBelow(g, gd, b);
      BlueSetSplit(g, gd, b);
      BluesMerged(g, gd, b);
      var sp := gd[b].selectedParent;
      BlueSetBelow(g, gd, sp);
      BlueSetCluster(g, gd, sp);
      MergedIsGreedy(g, gd, b);
      hide GdOk, DataOk, KCluster;
      TopJoins(g.past, BlueSet(g.past, gd, sp), g.k, sp);
      GreedyCluster(g.past, BlueSet(g.past, gd, sp) + {sp}, g.k, InOrder(gd, MergeSet(g.past, b, sp)));
      assert BlueSet(g.past, gd, sp) + {sp} + Listed(gd[b].blues[1..]) == BlueSet(g.past, gd, sp) + Listed(gd[b].blues);
    }
  }

  lemma {:induction false} MergedIsGreedy(g: Graph, gd: Ghosts, b: Hash)
    requires GdOk(g, gd) && b in gd && b != ORIGIN && b != g.genesis
    ensures var d := gd[b]; var sp := d.selectedParent;
      && sp in g.past && b in g.past && |d.blues| > 0
      && Colours(d.blues[1..], d.reds) ==
        Greedy(g.past, BlueSet(g.past, gd, sp) + {sp}, g.k, InOrder(gd, MergeSet(g.past, b, sp)))
  {
    SelectedBelow(g, gd, b);
  }

  lemma {:induction false} RecordsOf(g: Graph, gd: Ghosts, b: Hash, p: Hash)
    requires GdOk(g, gd) && b in gd && b != ORIGIN && b != g.genesis
    ensures var d := gd[b]; SizeOk(g.past, BlueSet(g.past, gd, d.selectedParent) + Listed(d.blues), d.blues, d.sizes, p)
  {
    SelectedBelow(g, gd, b);
  }

  /** A record that this block did not renew is still true for it. */
  lemma {:induction false} UntouchedAnticone(past: Pasts, below: set<Hash>, blues: seq<Hash>, p: Hash)
    requires p in below && !Touched(past, blues, p)
    ensures AnticoneIn(past, below + Listed(blues), p) == AnticoneIn(past, below, p)
  {
  }

  /** The nearest record along the chain is the true anticone size. */
  lemma {:induction false} RecordedTrue(g: Graph, gd: Ghosts, b: Hash, p: Hash)
    requires GdOk(g, gd) && b in gd && p in BlueSet(g.past, gd, b)
    ensures Recorded(g.past, gd, b, p) == |AnticoneIn(g.past, BlueSet(g.past, gd, b), p)|
    decreases if b in g.past then g.past[b] else {}
  {
    RootBlues(g, gd);
    if b == g.genesis {
      assert AnticoneIn(g.past, {ORIGIN}, ORIGIN) == {};
    } else {
      SelectedBelow(g, gd, b);
      BlueSetSplit(g, gd, b);
      RecordsOf(g, gd, b, p);
      hide GdOk, DataOk;
      var sp := gd[b].selectedParent;
      if p !in gd[b].sizes {
        assert p in BlueSet(g.past, gd, sp);
        UntouchedAnticone(g.past, BlueSet(g.past, gd, sp), gd[b].blues, p);
        RecordedTrue(g, gd, sp, p);
      }
    }
  }
}
