/** Colouring the merge set of one new block: the state between two candidates. */
module Colouring {
  import opened Types
  import opened Dag
  import opened Ghostdag
  import opened BlueSets

  /** No non-selected parent lies in the past of the selected one. */
  ghost predicate Tidy(past: Pasts, gd: Ghosts, ps: seq<Hash>) {
    forall sp, p :: Heaviest(gd, Listed(ps), sp) && p in ps && p != sp ==> !Below(past, p, sp)
  }

  /** A block that waits for its colour: known, and related neither way to the selected parent. */
  ghost predicate Candidate(g: Graph, gd: Ghosts, sp: Hash, x: Hash) {
    && x in gd && x in g.past && x != ORIGIN && x != g.genesis
    && !Below(g.past, x, sp) && !Below(g.past, sp, x)
  }

  /** The candidates, lightest first. */
  ghost predicate Waiting(g: Graph, gd: Ghosts, sp: Hash, order: seq<Hash>) {
    && GdOk(g, gd) && sp in gd && sp in g.past && sp != ORIGIN
    && Sorted(gd, order)
    && forall i {:trigger order[i]} :: 0 <= i < |order| ==> Candidate(g, gd, sp, order[i])
  }

  lemma {:induction false} OriginBelow(g: Graph, b: Hash)
    requires Rooted(g) && b in g.past
    ensures Below(g.past, ORIGIN, b)
    ensures b != ORIGIN ==> Below(g.past, g.genesis, b)
  {
    RootPasts(g);
    if b != ORIGIN && b != g.genesis {
      GenesisBelow(g, b);
      PastTrans(g.parents, g.past, ORIGIN, g.genesis, b);
    }
  }

  lemma {:induction false} MergedCandidate(g: Graph, gd: Ghosts, ps: seq<Hash>, sp: Hash, x: Hash)
    requires GdOk(g, gd) && (forall p :: p in ps ==> p in gd) && ORIGIN !in ps
    requires Heaviest(gd, Listed(ps), sp) && x in Merged(ps, g.past) && !Below(g.past, x, sp)
    ensures sp in g.past && sp != ORIGIN && Candidate(g, gd, sp, x)
  {
    assert sp in ps && sp in gd;
    var p :| p in ps && Below(g.past, x, p);
    assert p in Listed(ps);
    if x != p {
      PastInside(g.parents, g.past, x, p);
    }
    OriginBelow(g, sp);
    if Below(g.past, sp, x) {
      PastTrans(g.parents, g.past, sp, x, p);
      if sp != p {
        WorkGrows(g, gd, sp, p);
      }
    }
  }

  /** The merge set in order is a list of candidates. */
  lemma {:induction false} MergeSetWaits(g: Graph, gd: Ghosts, ps: seq<Hash>, sp: Hash, order: seq<Hash>)
    requires GdOk(g, gd) && (forall p :: p in ps ==> p in gd) && ORIGIN !in ps && Heaviest(gd, Listed(ps), sp) &&
      sp in g.past
    requires Sorted(gd, order) && Listed(order) == Merged(ps, g.past) - g.past[sp] - {sp}
    ensures Waiting(g, gd, sp, order)
  {
    assert sp in ps;
    forall i | 0 <= i < |order|
      ensures Candidate(g, gd, sp, order[i])
    {
      assert order[i] in Listed(order);
      MergedCandidate(g, gd, ps, sp, order[i]);
    }
  }

  ghost function ColouredSet(g: Graph, gd: Ghosts, sp: Hash, blues: seq<Hash>): set<Hash> {
    BlueSet(g.past, gd, sp) + Listed(blues)
  }

  /** The first `i` candidates have been coloured. */
  ghost predicate Coloured(g: Graph, gd: Ghosts, sp: Hash, order: seq<Hash>, i: nat, blues: seq<Hash>, reds: seq<Hash>,
                           sizes: map<Hash, nat>)
    requires i <= |order|
  {
    && |blues| > 0 && blues[0] == sp
    && Colours(blues[1..], reds) == Greedy(g.past, BlueSet(g.past, gd, sp) + {sp}, g.k, order[..i])
    && SizesOk(g.past, BlueSet(g.past, gd, sp), blues, sizes)
  }

  lemma {:induction false} ColouringStarts(g: Graph, gd: Ghosts, sp: Hash, order: seq<Hash>)
    requires Waiting(g, gd, sp, order)
    ensures Coloured(g, gd, sp, order, 0, [sp], [], map[sp := 0])
  {
    BlueSetBelow(g, gd, sp);
    BlueSetCluster(g, gd, sp);
    var below := BlueSet(g.past, gd, sp);
    assert Listed([sp]) == {sp};
    hide GdOk, KCluster;
    TopJoins(g.past, below, g.k, sp);
    forall p
      ensures SizeOk(g.past, below + Listed([sp]), [sp], map[sp := 0], p)
    {
      assert p in below ==> Below(g.past, p, sp);
    }
  }

  /** The blues so far are distinct blocks: the selected parent, and candidates that are not related to it. */
  lemma {:induction false} BluesSoFar(g: Graph, gd: Ghosts, sp: Hash, order: seq<Hash>, i: nat, blues: seq<Hash>,
                                      reds: seq<Hash>, sizes: map<Hash, nat>)
    requires Waiting(g, gd, sp, order) && i <= |order| && Coloured(g, gd, sp, order, i, blues, reds, sizes)
    ensures blues == [sp] + blues[1..] && Listed(blues[1..]) + Listed(reds) == Listed(order[..i])
    ensures Listed(blues) == {sp} + Listed(blues[1..])
    ensures KCluster(g.past, ColouredSet(g, gd, sp, blues), g.k)
    ensures forall y :: y in blues[1..] ==> Candidate(g, gd, sp, y)
    ensures ColouredSet(g, gd, sp, blues) == BlueSet(g.past, gd, sp) + {sp} + Listed(blues[1..])
  {
    hide GdOk, KCluster, SizesOk, BlueSet, Greedy, Candidate;
    BlueSetBelow(g, gd, sp);
    BlueSetCluster(g, gd, sp);
    var base := BlueSet(g.past, gd, sp) + {sp};
    TopJoins(g.past, BlueSet(g.past, gd, sp), g.k, sp);
    GreedyWithin(g.past, base, g.k, order[..i]);
    GreedyCluster(g.past, base, g.k, order[..i]);
    assert blues == [sp] + blues[1..];
    assert base + Listed(blues[1..]) == ColouredSet(g, gd, sp, blues);
    forall y | y in blues[1..]
      ensures Candidate(g, gd, sp, y)
    {
      assert y in Listed(order[..i]);
      var j :| 0 <= j < i && order[j] == y;
    }
  }

  /** The next candidate comes after all blues so far and is not among them. */
  lemma {:induction false} NextAfter(g: Graph, gd: Ghosts, sp: Hash, order: seq<Hash>, i: nat, blues: seq<Hash>,
                                     reds: seq<Hash>, sizes: map<Hash, nat>)
    requires Waiting(g, gd, sp, order) && i < |order| && Coloured(g, gd, sp, order, i, blues, reds, sizes)
    ensures After(g.past, ColouredSet(g, gd, sp, blues), order[i]) && order[i] !in ColouredSet(g, gd, sp, blues)
  {
    BluesSoFar(g, gd, sp, order, i, blues, reds, sizes);
    BlueSetBelow(g, gd, sp);
    var x := order[i];
    assert Candidate(g, gd, sp, x);
    forall p | p in ColouredSet(g, gd, sp, blues)
      ensures !Below(g.past, x, p)
    {
      if Below(g.past, p, sp) {
        PastAbove(g, gd, x, p, sp);
      } else {
        assert p in Listed(order[..i]);
        var j :| 0 <= j < i && order[j] == p;
        EarlierNotAbove(g, gd, order, j, i);
      }
    }
    assert Below(g.past, x, x);
  }

  lemma {:induction false} PastAbove(g: Graph, gd: Ghosts, x: Hash, p: Hash, sp: Hash)
    requires GdOk(g, gd) && Below(g.past, p, sp) && !Below(g.past, x, sp)
    ensures !Below(g.past, x, p)
  {
    if Below(g.past, x, p) {
      PastTrans(g.parents, g.past, x, p, sp);
    }
  }

  lemma {:induction false} EarlierNotAbove(g: Graph, gd: Ghosts, order: seq<Hash>, j: nat, i: nat)
    requires GdOk(g, gd) && Sorted(gd, order) && j < i < |order| && order[i] in gd && order[j] in gd &&
      order[i] != ORIGIN
    ensures !Below(g.past, order[i], order[j])
  {
    assert Less(gd, order[j], order[i]);
    if Below(g.past, order[i], order[j]) {
      SortedTopological(g, gd, order, i, j);
    }
  }

  /** The code's answer for the next candidate: red at once when `k` blues are already merged. */
  lemma {:induction false} FullIsRed(g: Graph, gd: Ghosts, sp: Hash, order: seq<Hash>, i: nat, blues: seq<Hash>,
                                     reds: seq<Hash>, sizes: map<Hash, nat>)
    requires Waiting(g, gd, sp, order) && i < |order| && Coloured(g, gd, sp, order, i, blues, reds, sizes)
    ensures |blues| <= g.k + 1
    ensures |blues| == g.k + 1 ==> !KCluster(g.past, ColouredSet(g, gd, sp, blues) + {order[i]}, g.k)
  {
    BluesSoFar(g, gd, sp, order, i, blues, reds, sizes);
    NextAfter(g, gd, sp, order, i, blues, reds, sizes);
    BluesDistinct(g, gd, sp, order, i);
    DistinctSize(blues[1..]);
    var all, merged := ColouredSet(g, gd, sp, blues), Listed(blues[1..]);
    assert Candidate(g, gd, sp, order[i]);
    hide GdOk, KCluster, SizesOk, Greedy;
    assert merged <= AnticoneIn(g.past, all, sp);
    SubsetCount(merged, AnticoneIn(g.past, all, sp));
    ClusterAt(g.past, all, g.k, sp);
    if |blues| == g.k + 1 {
      FullMeansRed(g.past, all, sp, merged, g.k, order[i]);
    }
  }

  lemma {:induction false} ClusterAt(past: Pasts, s: set<Hash>, k: nat, p: Hash)
    requires KCluster(past, s, k) && p in s
    ensures |AnticoneIn(past, s, p)| <= k
  {
    assert Bounded(past, s, k, p);
  }

  ghost predicate Distinct(s: seq<Hash>) {
    forall i, j :: 0 <= i < j < |s| ==> s[i] != s[j]
  }

  lemma {:induction false} DistinctSize(s: seq<Hash>)
    requires Distinct(s)
    ensures |Listed(s)| == |s|
  {
    if |s| > 0 {
      var init, x := s[..|s| - 1], s[|s| - 1];
      DistinctSize(init);
      assert s == init + [x];
      ListedSnoc(init, x);
      OneMore(Listed(init), x);
    } else {
      ListedNone(s);
    }
  }

  lemma {:induction false} BluesDistinct(g: Graph, gd: Ghosts, sp: Hash, order: seq<Hash>, i: nat)
    requires Sorted(gd, order) && i <= |order|
    ensures Distinct(Greedy(g.past, BlueSet(g.past, gd, sp) + {sp}, g.k, order[..i]).blues)
    ensures Distinct(Greedy(g.past, BlueSet(g.past, gd, sp) + {sp}, g.k, order[..i]).reds)
  {
    SortedApart(gd, order);
    GreedyDistinct(g.past, BlueSet(g.past, gd, sp) + {sp}, g.k, order, i);
  }

  lemma {:induction false} SortedApart(gd: Ghosts, order: seq<Hash>)
    requires Sorted(gd, order)
    ensures Distinct(order)
  {
    forall i, j | 0 <= i < j < |order|
      ensures order[i] != order[j]
    {
      assert Less(gd, order[i], order[j]);
    }
  }

  lemma {:induction false} GreedyDistinct(past: Pasts, base: set<Hash>, k: nat, order: seq<Hash>, i: nat)
    requires Distinct(order) && i <= |order|
    ensures Distinct(Greedy(past, base, k, order[..i]).blues) && Distinct(Greedy(past, base, k, order[..i]).reds)
  {
    if i > 0 {
      GreedyDistinct(past, base, k, order, i - 1);
      GreedyStep(past, base, k, order, i - 1);
      GreedyWithin(past, base, k, order[..i - 1]);
      var c, x := Greedy(past, base, k, order[..i - 1]), order[i - 1];
      hide Greedy, KCluster;
      NotBefore(order, i - 1);
      DistinctSnoc(c.blues, x);
      DistinctSnoc(c.reds, x);
    }
  }

  lemma {:induction false} NotBefore(order: seq<Hash>, i: nat)
    requires Distinct(order) && i < |order|
    ensures order[i] !in Listed(order[..i])
  {
  }

  lemma {:induction false} DistinctSnoc(s: seq<Hash>, x: Hash)
    requires Distinct(s) && x !in Listed(s)
    ensures Distinct(s + [x])
  {
    assert forall i :: 0 <= i < |s| ==> s[i] in Listed(s);
  }

  // ---------- recording a blue ----------

  /** The record with `x` added and the blues beside it counted once more. */
  function WithBlue(sizes: map<Hash, nat>, x: Hash, size: nat, seen: map<Hash, nat>): map<Hash, nat> {
    sizes[x := size] + map p | p in seen :: seen[p] + 1
  }

  /** What the check of a blue candidate hands over: the blues beside it with their sizes. */
  ghost predicate Seen(past: Pasts, all: set<Hash>, x: Hash, size: nat, seen: map<Hash, nat>) {
    && seen.Keys == Beside(past, all, x) && size == |seen|
    && forall p :: p in seen ==> seen[p] == |AnticoneIn(past, all, p)|
  }

  lemma {:induction false} WithBlueAt(sizes: map<Hash, nat>, x: Hash, size: nat, seen: map<Hash, nat>, p: Hash)
    requires x !in seen
    ensures var r := WithBlue(sizes, x, size, seen);
      && (p in r <==> p == x || p in sizes || p in seen)
      && (p in r ==> r[p] == if p in seen then seen[p] + 1 else if p == x then size else sizes[p])
  {
  }

  lemma {:induction false} RecordOne(past: Pasts, below: set<Hash>, blues: seq<Hash>, sizes: map<Hash, nat>, x: Hash,
                                     size: nat, seen: map<Hash, nat>, p: Hash)
    requires var all := below + Listed(blues); After(past, all, x) && x !in all && Seen(past, all, x, size, seen)
    requires SizeOk(past, below + Listed(blues), blues, sizes, p)
    ensures SizeOk(past, below + Listed(blues) + {x}, blues + [x], WithBlue(sizes, x, size, seen), p)
  {
    var all := below + Listed(blues);
    assert x !in seen;
    WithBlueAt(sizes, x, size, seen, p);
    hide WithBlue;
    if p == x {
      RecordNew(past, all, blues, x, size, seen);
    } else if p in all {
      hide After;
      RecordOld(past, all, blues, x, seen, p);
      hide Touched, AnticoneIn, Beside;
    } else {
      hide Touched, AnticoneIn, After;
      assert p !in seen;
    }
  }

  lemma {:induction false} RecordNew(past: Pasts, all: set<Hash>, blues: seq<Hash>, x: Hash, size: nat, seen: map<Hash,
                                     nat>)
    requires After(past, all, x) && x !in all && Seen(past, all, x, size, seen)
    ensures Touched(past, blues + [x], x) && size == |AnticoneIn(past, all + {x}, x)|
  {
    hide AnticoneIn, Beside;
    AnticoneOfNew(past, all, x);
    assert |seen.Keys| == |seen|;
  }

  lemma {:induction false} RecordOld(past: Pasts, all: set<Hash>, blues: seq<Hash>, x: Hash, seen: map<Hash, nat>,
                                     p: Hash)
    requires After(past, all, x) && x !in all && seen.Keys == Beside(past, all, x) && p in all
    requires forall q :: q in seen ==> seen[q] == |AnticoneIn(past, all, q)|
    ensures Touched(past, blues + [x], p) <==> Touched(past, blues, p) || p in seen
    ensures |AnticoneIn(past, all + {x}, p)| == if p in seen then seen[p] + 1 else |AnticoneIn(past, all, p)|
  {
    hide AnticoneIn, Beside, Touched;
    TouchedMore(past, all, blues, x, p);
    AnticoneJoins(past, all, x, p);
  }

  lemma {:induction false} TouchedMore(past: Pasts, all: set<Hash>, blues: seq<Hash>, x: Hash, p: Hash)
    requires After(past, all, x) && p != x
    ensures p in all ==> (Touched(past, blues + [x], p) <==> Touched(past, blues, p) || p in Beside(past, all, x))
  {
    if p in all {
      if Touched(past, blues, p) && p !in blues {
        var q :| q in blues && Anticone(past, q, p);
        assert q in blues + [x];
      }
      if p in Beside(past, all, x) {
        assert x in blues + [x] && Anticone(past, x, p);
      }
    }
  }

  lemma {:induction false} RecordAll(past: Pasts, below: set<Hash>, blues: seq<Hash>, sizes: map<Hash, nat>, x: Hash,
                                     size: nat, seen: map<Hash, nat>)
    requires var all := below + Listed(blues); After(past, all, x) && x !in all && Seen(past, all, x, size, seen)
    requires SizesOk(past, below, blues, sizes)
    ensures SizesOk(past, below, blues + [x], WithBlue(sizes, x, size, seen))
  {
    ListedSnoc(blues, x);
    assert below + Listed(blues + [x]) == below + Listed(blues) + {x};
    hide SizeOk;
    forall p
      ensures SizeOk(past, below + Listed(blues + [x]), blues + [x], WithBlue(sizes, x, size, seen), p)
    {
      assert SizeOk(past, below + Listed(blues), blues, sizes, p);
      RecordOne(past, below, blues, sizes, x, size, seen, p);
    }
  }

  /** One more candidate coloured. */
  lemma {:induction false} ColouredOneMore(g: Graph, gd: Ghosts, sp: Hash, order: seq<Hash>, i: nat, blues: seq<Hash>,
                                           reds: seq<Hash>, sizes: map<Hash, nat>,
                                           blue: bool, size: nat, seen: map<Hash, nat>)
    requires Waiting(g, gd, sp, order) && i < |order| && Coloured(g, gd, sp, order, i, blues, reds, sizes)
    requires blue <==> KCluster(g.past, ColouredSet(g, gd, sp, blues) + {order[i]}, g.k)
    requires blue ==> Seen(g.past, ColouredSet(g, gd, sp, blues), order[i], size, seen)
    ensures blue ==> Coloured(g, gd, sp, order, i + 1, blues + [order[i]], reds, WithBlue(sizes, order[i], size, seen))
    ensures !blue ==> Coloured(g, gd, sp, order, i + 1, blues, reds + [order[i]], sizes)
  {
    hide GdOk, KCluster, SizesOk, Greedy, Seen, BlueSet, WithBlue, After;
    BluesSoFar(g, gd, sp, order, i, blues, reds, sizes);
    NextAfter(g, gd, sp, order, i, blues, reds, sizes);
    var base := BlueSet(g.past, gd, sp) + {sp};
    GreedyStep(g.past, base, g.k, order, i);
    if blue {
      assert (blues + [order[i]])[1..] == blues[1..] + [order[i]];
      RecordAll(g.past, BlueSet(g.past, gd, sp), blues, sizes, order[i], size, seen);
    }
  }
}
