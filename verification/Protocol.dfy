/** The GHOSTDAG protocol: selected parent, merge set, and the colour of every merged block. */
module Protocol {
  import opened Types
  import opened Dag
  import opened Store
  import opened Inquirer
  import opened Ghostdag
  import opened BlueSets
  import opened Colouring

  datatype ColouringState = Blue | Red | Pending

  /** What is merged besides the exact merge set: parents that other parents already descend from. */
  ghost function MergedFor(past: Pasts, ps: seq<Hash>, sp: Hash): set<Hash>
    requires sp in past
  {
    (Listed(ps) - {sp}) + (Merged(ps, past) - past[sp] - {sp})
  }

  /** Without redundant parents it is the merge set. */
  lemma {:induction false} MergedExactly(past: Pasts, ps: seq<Hash>, sp: Hash)
    requires sp in past && sp in ps
    ensures MergedFor(past, ps, sp) == Merged(ps, past) - past[sp] - {sp} <==>
      forall p :: p in ps && p != sp ==> !Below(past, p, sp)
  {
    hide Merged, Below;
    ParentsMerged(past, ps);
    MergedParts(Listed(ps), Merged(ps, past), past[sp], sp);
    forall p | p in Listed(ps) && p != sp
      ensures p in past[sp] <==> Below(past, p, sp)
    {
      BelowIs(past, p, sp);
    }
  }

  lemma {:induction false} BelowIs(past: Pasts, p: Hash, sp: Hash)
    requires sp in past && p != sp
    ensures Below(past, p, sp) <==> p in past[sp]
  {
  }

  lemma {:induction false} ParentsMerged(past: Pasts, ps: seq<Hash>)
    ensures Listed(ps) <= Merged(ps, past)
  {
    forall p | p in ps
      ensures p in Merged(ps, past)
    {
      assert Below(past, p, p);
    }
  }

  lemma {:induction false} MergedParts(listed: set<Hash>, whole: set<Hash>, known: set<Hash>, sp: Hash)
    requires listed <= whole
    ensures (listed - {sp}) + (whole - known - {sp}) == whole - known - {sp} <==>
      forall p :: p in listed && p != sp ==> p !in known
  {
    if (listed - {sp}) + (whole - known - {sp}) == whole - known - {sp} {
      forall p | p in listed && p != sp
        ensures p !in known
      {
        assert p in (listed - {sp}) + (whole - known - {sp});
      }
    }
  }

  /** The search from the non-selected parents: `merged` was found, `queue` is still to be expanded. */
  ghost predicate Searching(g: Graph, ps: seq<Hash>, sp: Hash, merged: set<Hash>, queue: seq<Hash>, seen: set<Hash>)
    requires sp in g.past
  {
    && Listed(ps) - {sp} <= merged <= MergedFor(g.past, ps, sp)
    && Listed(queue) <= merged
    && (forall x {:trigger Settled(g, sp, merged, x)} :: x in merged && x !in queue ==> Settled(g, sp, merged, x))
    && (forall x :: x in seen ==> Below(g.past, x, sp))
  }

  /** The parents of `x` were found too, or precede the selected parent. */
  ghost predicate Settled(g: Graph, sp: Hash, merged: set<Hash>, x: Hash) {
    x in g.parents && forall q :: q in g.parents[x] ==> q in merged || Below(g.past, q, sp)
  }

  lemma {:induction false} SearchStarts(g: Graph, ps: seq<Hash>, sp: Hash, queue: seq<Hash>)
    requires sp in g.past && Listed(queue) == Listed(ps) - {sp}
    ensures Searching(g, ps, sp, Listed(queue), queue, {})
  {
  }

  lemma {:induction false} FoundKnown(g: Graph, ps: seq<Hash>, sp: Hash, merged: set<Hash>, queue: seq<Hash>,
                                      seen: set<Hash>, x: Hash)
    requires Rooted(g) && (forall p :: p in ps ==> p in g.past && p != ORIGIN) && sp in ps &&
      Searching(g, ps, sp, merged, queue, seen)
    requires x in merged
    ensures x in g.past && x != ORIGIN && PastStep(g.parents, g.past, x)
    ensures forall q :: q in g.parents[x] ==> q in g.past && q in g.past[x]
  {
    OriginBelow(g, sp);
    if x !in ps {
      var p :| p in ps && Below(g.past, x, p);
      PastInside(g.parents, g.past, x, p);
    }
    assert PastStep(g.parents, g.past, x);
    forall q | q in g.parents[x]
      ensures q in g.past && q in g.past[x]
    {
      PastSmaller(g.parents, g.past, q, x);
    }
  }

  /** A parent of a found block that does not precede the selected parent belongs to the merge set. */
  lemma {:induction false} ParentFound(g: Graph, ps: seq<Hash>, sp: Hash, x: Hash, q: Hash)
    requires Rooted(g) && sp in g.past && x in MergedFor(g.past, ps, sp) && x in g.past && q in g.past[x] &&
      !Below(g.past, q, sp)
    ensures q in MergedFor(g.past, ps, sp)
  {
    if x in ps {
      assert Below(g.past, q, x);
    } else {
      var p :| p in ps && Below(g.past, x, p);
      PastTrans(g.parents, g.past, q, x, p);
    }
  }

  /** Once nothing is left to expand, everything that does not precede the selected parent was found. */
  lemma {:induction false} SearchComplete(g: Graph, ps: seq<Hash>, sp: Hash, merged: set<Hash>, seen: set<Hash>)
    requires Rooted(g) && (forall p :: p in ps ==> p in g.past) && sp in ps && Searching(g, ps, sp, merged, [], seen)
    ensures merged == MergedFor(g.past, ps, sp)
  {
    forall y | y in MergedFor(g.past, ps, sp)
      ensures y in merged
    {
      if !(y in ps && y != sp) {
        var p :| p in ps && Below(g.past, y, p);
        ReachedBelow(g, sp, merged, p, y);
      }
    }
  }

  lemma {:induction false} ReachedBelow(g: Graph, sp: Hash, merged: set<Hash>, x: Hash, y: Hash)
    requires Rooted(g) && x in merged && x in g.past && Below(g.past, y, x) && sp in g.past && !Below(g.past, y, sp)
    requires forall z {:trigger Settled(g, sp, merged, z)} :: z in merged ==> Settled(g, sp, merged, z)
    ensures y in merged
    decreases g.past[x]
  {
    if y != x {
      assert PastStep(g.parents, g.past, x);
      assert Settled(g, sp, merged, x);
      var q :| q in g.parents[x] && Below(g.past, y, q);
      PastSmaller(g.parents, g.past, q, x);
      if q !in merged {
        PastTrans(g.parents, g.past, y, q, sp);
      } else {
        ReachedBelow(g, sp, merged, q, y);
      }
    }
  }

  /** Expanding `x`: its first `j` parents have been looked at. */
  ghost predicate Expanding(g: Graph, ps: seq<Hash>, sp: Hash, merged: set<Hash>, queue: seq<Hash>, seen: set<Hash>,
                            x: Hash, j: nat) {
    && sp in g.past && x in g.parents && j <= |g.parents[x]|
    && Listed(ps) - {sp} <= merged <= MergedFor(g.past, ps, sp) && x in merged
    && Listed(queue) <= merged
    && (forall y {:trigger Settled(g, sp, merged, y)} :: y in merged && y !in queue && y != x ==>
      Settled(g, sp, merged, y))
    && (forall y :: y in seen ==> Below(g.past, y, sp))
    && (forall q :: q in g.parents[x][..j] ==> q in merged || Below(g.past, q, sp))
  }

  lemma {:induction false} ExpandStarts(g: Graph, ps: seq<Hash>, sp: Hash, merged: set<Hash>, queue: seq<Hash>,
                                        seen: set<Hash>)
    requires sp in g.past && |queue| > 0 && Searching(g, ps, sp, merged, queue, seen) && queue[0] in g.parents
    ensures Expanding(g, ps, sp, merged, queue[1..], seen, queue[0], 0)
  {
    assert queue == [queue[0]] + queue[1..];
    assert queue[0] in Listed(queue);
    forall y | y in merged && y !in queue[1..] && y != queue[0]
      ensures Settled(g, sp, merged, y)
    {
      assert y !in queue;
    }
  }

  lemma {:induction false} ExpandEnds(g: Graph, ps: seq<Hash>, sp: Hash, merged: set<Hash>, queue: seq<Hash>,
                                      seen: set<Hash>, x: Hash)
    requires x in g.parents && Expanding(g, ps, sp, merged, queue, seen, x, |g.parents[x]|)
    ensures Searching(g, ps, sp, merged, queue, seen)
  {
    assert g.parents[x][..|g.parents[x]|] == g.parents[x];
    assert Settled(g, sp, merged, x);
  }

  lemma {:induction false} ExpandSkips(g: Graph, ps: seq<Hash>, sp: Hash, merged: set<Hash>, queue: seq<Hash>,
                                       seen: set<Hash>, seen': set<Hash>, x: Hash, j: nat)
    requires Expanding(g, ps, sp, merged, queue, seen, x, j) && j < |g.parents[x]|
    requires var q := g.parents[x][j];
      (q in merged || Below(g.past, q, sp)) && (seen' == seen || (seen' == seen + {q} && Below(g.past, q, sp)))
    ensures Expanding(g, ps, sp, merged, queue, seen', x, j + 1)
  {
    assert g.parents[x][..j + 1] == g.parents[x][..j] + [g.parents[x][j]];
  }

  lemma {:induction false} ExpandAdds(g: Graph, ps: seq<Hash>, sp: Hash, merged: set<Hash>, queue: seq<Hash>,
                                      seen: set<Hash>, x: Hash, j: nat)
    requires Expanding(g, ps, sp, merged, queue, seen, x, j) && j < |g.parents[x]|
    requires g.parents[x][j] in MergedFor(g.past, ps, sp)
    ensures Expanding(g, ps, sp, merged + {g.parents[x][j]}, queue + [g.parents[x][j]], seen, x, j + 1)
  {
    var q := g.parents[x][j];
    assert g.parents[x][..j + 1] == g.parents[x][..j] + [q];
    ListedSnoc(queue, q);
    forall y | y in merged + {q} && y !in queue + [q] && y != x
      ensures Settled(g, sp, merged + {q}, y)
    {
      assert y !in queue;
      assert Settled(g, sp, merged, y);
    }
  }

  class GhostdagManager {
    const genesis: Hash
    const k: nat
    const reach: ReachabilityStore
    var gd: Ghosts
    var relations: Parents

    constructor (genesis: Hash, k: nat, reach: ReachabilityStore)
      ensures this.genesis == genesis && this.k == k && this.reach == reach
      ensures gd == map[ORIGIN := ORIGIN_DATA] && relations == map[]
    {
      this.genesis, this.k, this.reach := genesis, k, reach;
      gd, relations := map[ORIGIN := ORIGIN_DATA], map[];
    }

    /** The stores hold the data of the DAG `g`, and the index answers for it. */
    ghost predicate Serves(g: Graph)
      reads this, reach
    {
      && g.genesis == genesis && g.k == k
      && GdOk(g, gd)
      && relations == g.parents - {ORIGIN}
      && Indexes(reach, g.past, ORIGIN)
    }

    lemma {:induction false} Known(g: Graph)
      requires Serves(g)
      ensures GdOk(g, gd) && Rooted(g) && g.parents.Keys == g.past.Keys == gd.Keys == reach.tree.Keys
      ensures PastOk(g.parents, g.past) && Indexes(reach, g.past, ORIGIN)
      ensures ORIGIN in g.past && genesis in g.past && g.genesis == genesis && g.k == k && genesis != ORIGIN
      ensures relations == g.parents - {ORIGIN}
    {
    }

    /** The parent with the most blue work; equal work is decided by the larger id. */
    method FindSelectedParent(parents: seq<Hash>) returns (best: Hash)
      requires |parents| > 0 && forall p :: p in parents ==> p in gd
      ensures Heaviest(gd, Listed(parents), best)
      ensures best in parents && forall p :: p in parents && p != best ==>
        gd[p].blueWork < gd[best].blueWork || (gd[p].blueWork == gd[best].blueWork && p < best)
    {
      best := parents[0];
      for i := 1 to |parents|
        invariant best in parents[..i]
        invariant forall p :: p in parents[..i] ==> p == best || Less(gd, p, best)
      {
        assert parents[..i + 1] == parents[..i] + [parents[i]];
        if Less(gd, best, parents[i]) {
          best := parents[i];
        }
      }
      assert parents[..|parents|] == parents;
    }

    method IsAncestor(a: Hash, b: Hash, ghost g: Graph) returns (answer: bool)
      requires Serves(g) && a in g.past && b in g.past
      ensures answer <==> Below(g.past, a, b)
    {
      Known(g);
      var r;
      r, answer := IsDagAncestorOf(reach, a, b, g.past, ORIGIN);
    }

    /** All blocks that the non-selected parents lead to before meeting the past of the selected one. */
    method UnorderedMergeset(sp: Hash, parents: seq<Hash>, ghost g: Graph) returns (merged: set<Hash>)
      requires Serves(g) && sp in parents && forall p :: p in parents ==> p in g.past && p != ORIGIN
      ensures merged == MergedFor(g.past, parents, sp)
    {
      Known(g);
      var queue := [];
      for i := 0 to |parents|
        invariant Listed(queue) == Listed(parents[..i]) - {sp}
      {
        ListedSnoc(parents[..i], parents[i]);
        assert parents[..i + 1] == parents[..i] + [parents[i]];
        if parents[i] != sp {
          ListedSnoc(queue, parents[i]);
          queue := queue + [parents[i]];
        }
      }
      assert parents[..|parents|] == parents;
      merged := set q | q in queue;
      assert merged == Listed(queue);
      var seen: set<Hash> := {};
      SearchStarts(g, parents, sp, queue);
      hide GdOk, Rooted, Searching, Serves, MergedFor, PastOk;
      ghost var world := MergedFor(g.past, parents, sp);
      while |queue| > 0
        invariant Searching(g, parents, sp, merged, queue, seen)
        invariant merged <= world
        decreases world - merged, |queue|
      {
        QueueHead(g, parents, sp, merged, queue, seen);
        FoundKnown(g, parents, sp, merged, queue, seen, queue[0]);
        merged, queue, seen := Expand(sp, parents, merged, queue, seen, g);
        Within(g, parents, sp, merged, queue, seen);
      }
      assert queue == [];
      SearchComplete(g, parents, sp, merged, seen);
    }

    lemma {:induction false} QueueHead(g: Graph, ps: seq<Hash>, sp: Hash, merged: set<Hash>, queue: seq<Hash>,
                                       seen: set<Hash>)
      requires sp in g.past && |queue| > 0 && Searching(g, ps, sp, merged, queue, seen)
      ensures queue[0] in merged
    {
      assert queue[0] in Listed(queue);
    }

    lemma {:induction false} Within(g: Graph, ps: seq<Hash>, sp: Hash, merged: set<Hash>, queue: seq<Hash>,
                                    seen: set<Hash>)
      requires sp in g.past && Searching(g, ps, sp, merged, queue, seen)
      ensures merged <= MergedFor(g.past, ps, sp)
    {
    }

    /** Takes the head of the queue and looks at its parents. */
    method Expand(sp: Hash, parents: seq<Hash>, merged: set<Hash>, queue: seq<Hash>, seen: set<Hash>, ghost g: Graph)
        returns (merged': set<Hash>, queue': seq<Hash>, seen': set<Hash>)
      requires Serves(g) && sp in parents && sp in g.past && forall p :: p in parents ==> p in g.past && p != ORIGIN
      requires |queue| > 0 && Searching(g, parents, sp, merged, queue, seen)
      requires queue[0] in merged && queue[0] in g.past && queue[0] != ORIGIN
      requires forall q ::
        queue[0] in g.parents && q in g.parents[queue[0]] ==> q in g.past && q in g.past[queue[0]]
      ensures Searching(g, parents, sp, merged', queue', seen')
      ensures merged < merged' || (merged == merged' && |queue'| < |queue|)
    {
      hide GdOk, Rooted, Searching, Serves, MergedFor, PastOk, Expanding;
      Known(g);
      var current := queue[0];
      ExpandStarts(g, parents, sp, merged, queue, seen);
      merged', queue', seen' := merged, queue[1..], seen;
      var currentParents := relations[current];
      for j := 0 to |currentParents|
        invariant Expanding(g, parents, sp, merged', queue', seen', current, j)
        invariant merged < merged' || (merged == merged' && |queue'| < |queue|)
      {
        var parent := currentParents[j];
        ExpandedFacts(g, parents, sp, merged', queue', seen', current, j);
        if parent in merged' || parent in seen' {
          ExpandSkips(g, parents, sp, merged', queue', seen', seen', current, j);
          continue;
        }
        var known := IsAncestor(parent, sp, g);
        if known {
          ExpandSkips(g, parents, sp, merged', queue', seen', seen' + {parent}, current, j);
          seen' := seen' + {parent};
          continue;
        }
        ParentFound(g, parents, sp, current, parent);
        ExpandAdds(g, parents, sp, merged', queue', seen', current, j);
        merged', queue' := merged' + {parent}, queue' + [parent];
      }
      ExpandEnds(g, parents, sp, merged', queue', seen', current);
    }

    lemma {:induction false} ExpandedFacts(g: Graph, ps: seq<Hash>, sp: Hash, merged: set<Hash>, queue: seq<Hash>,
                                           seen: set<Hash>, x: Hash, j: nat)
      requires Expanding(g, ps, sp, merged, queue, seen, x, j)
      ensures sp in g.past && x in MergedFor(g.past, ps, sp) && forall y :: y in seen ==> Below(g.past, y, sp)
    {
    }

    /** The blocks of a set, lightest first. */
    method SortBlocks(blocks: set<Hash>) returns (order: seq<Hash>)
      ensures order == InOrder(gd, blocks)
      ensures forall b :: b in order <==> b in blocks
      ensures forall i, j {:trigger order[i], order[j]} :: 0 <= i < j < |order| ==>
        var a, b := order[i], order[j];
        var x, y := if a in gd then gd[a].blueWork else 0, if b in gd then gd[b].blueWork else 0;
        x < y || (x == y && a < b)
    {
      order := [];
      var rest := blocks;
      while rest != {}
        invariant rest <= blocks && Listed(order) == blocks - rest && Sorted(gd, order)
        decreases rest
      {
        var b :| b in rest;
        rest := rest - {b};
        var i := 0;
        while i < |order| && Less(gd, order[i], b)
          invariant 0 <= i <= |order| && forall j :: 0 <= j < i ==> Less(gd, order[j], b)
        {
          i := i + 1;
        }
        InsertSorted(gd, order, i, b);
        order := order[..i] + [b] + order[i..];
      }
      SortedUnique(gd, order, InOrder(gd, blocks));
    }

    // ---------- colours ----------

    /** The blue anticone size of `p` as seen from a block with selected parent `top` that recorded
        `sizes`. The walk along the chain always meets a record before it meets genesis. */
    method BlueAnticoneSize(p: Hash, sizes: map<Hash, nat>, top: Hash, ghost g: Graph) returns (size: nat)
      requires Serves(g) && top in g.past && top != ORIGIN
      requires p in sizes || (p in BlueSet(g.past, gd, top) && p != ORIGIN)
      ensures size == if p in sizes then sizes[p] else Recorded(g.past, gd, top, p)
    {
      Known(g);
      var current, selected := sizes, top;
      hide Serves;
      while true
        invariant selected in gd && selected in g.past && selected != ORIGIN
        invariant p in current || (p in BlueSet(g.past, gd, selected) && p != ORIGIN)
        invariant (if p in sizes then sizes[p] else Recorded(g.past, gd, top, p)) ==
          (if p in current then current[p] else Recorded(g.past, gd, selected, p))
        decreases g.past[selected]
      {
        if p in current {
          return current[p];
        }
        RootBlues(g, gd);
        // The original panics at genesis or the origin.
        assert selected != genesis && selected != ORIGIN;
        SelectedBelow(g, gd, selected);
        BlueSetSplit(g, gd, selected);
        RecordsOf(g, gd, selected, p);
        current, selected := gd[selected].sizes, gd[selected].selectedParent;
      }
    }

    /** The check of candidate `x` against one blue: skipped if it precedes `x`, counted otherwise. */
    method VisitPeer(peer: Hash, sp: Hash, sizes: map<Hash, nat>, x: Hash, seen: map<Hash, nat>, size: nat,
                     ghost g: Graph, ghost all: set<Hash>, ghost visited: set<Hash>)
        returns (state: ColouringState, seen': map<Hash, nat>, size': nat)
      requires Serves(g) && x in g.past && peer in g.past && sp in g.past && sp != ORIGIN
      requires SoFar(g, all, visited, x, seen, size) && peer in all && peer !in visited
      requires Below(g.past, peer, x) || HasRecord(g, gd, all, sp, sizes, peer)
      ensures state == Red || state == Pending
      ensures state == Pending ==> SoFar(g, all, visited + {peer}, x, seen', size')
      ensures state == Red ==> Forbidden(g, all, x)
    {
      Known(g);
      seen', size' := seen, size;
      hide Serves, SoFar, HasRecord, Forbidden, GdOk, Rooted, PastOk, AnticoneIn, Recorded, BlueSet, Indexes;
      var known := IsAncestor(peer, x, g);
      if known {
        SoFarSkips(g, all, visited, x, seen, size, peer);
        return Pending, seen', size';
      }
      RecordUse(g, gd, all, sp, sizes, peer);
      var peerSize := BlueAnticoneSize(peer, sizes, sp, g);
      SoFarCounts(g, all, visited, x, seen, size, peer, peerSize);
      seen' := seen[peer := peerSize];
      size' := size + 1;
      if size' > k {
        return Red, seen', size';
      }
      if peerSize == k {
        return Red, seen', size';
      }
      // The original asserts that no recorded size exceeds the bound.
      assert peerSize <= k;
      return Pending, seen', size';
    }

    /** The check of candidate `x` against the blues merged by one chain block. */
    method CheckWithChainBlock(chain: Option<Hash>, peers: seq<Hash>, sp: Hash, sizes: map<Hash, nat>, x: Hash,
                               seen: map<Hash, nat>, size: nat,
                               ghost g: Graph, ghost all: set<Hash>, ghost visited: set<Hash>)
        returns (state: ColouringState, seen': map<Hash, nat>, size': nat)
      requires Serves(g) && x in g.past && (chain.Some? ==> chain.value in g.past) && sp in g.past && sp != ORIGIN
      requires SoFar(g, all, visited, x, seen, size) && PeersReady(g, all, visited, peers)
      requires forall p {:trigger HasRecord(g, gd, all, sp, sizes, p)} :: p in peers ==>
        Below(g.past, p, x) || HasRecord(g, gd, all, sp, sizes, p)
      ensures state == Blue <==> chain.Some? && Below(g.past, chain.value, x)
      ensures state == Blue ==> seen' == seen && size' == size
      ensures state == Pending ==> SoFar(g, all, visited + Listed(peers), x, seen', size')
      ensures state == Red ==> Forbidden(g, all, x)
    {
      hide Serves, SoFar, HasRecord, Forbidden, GdOk, Rooted, PastOk, PeersReady, AnticoneIn, Recorded, BlueSet,
        Indexes, Below;
      Known(g);
      seen', size' := seen, size;
      if chain.Some? {
        var known := IsAncestor(chain.value, x, g);
        if known {
          return Blue, seen', size';
        }
      }
      assert visited + Listed(peers[..0]) == visited;
      for i := 0 to |peers|
        invariant SoFar(g, all, visited + Listed(peers[..i]), x, seen', size')
      {
        PeerNext(g, all, visited, peers, i);
        state, seen', size' := VisitPeer(peers[i], sp, sizes, x, seen', size', g, all, visited + Listed(peers[..i]));
        if state == Red {
          return;
        }
      }
      assert peers[..|peers|] == peers;
      return Pending, seen', size';
    }

    /** Whether candidate `x`, the next in order, is blue; if so, the blues beside it and their sizes. */
    method CheckBlueCandidate(x: Hash, sp: Hash, blues: seq<Hash>, sizes: map<Hash, nat>, ghost g: Graph,
                              ghost order: seq<Hash>, ghost i: nat, ghost reds: seq<Hash>)
        returns (blue: bool, size: nat, seen: map<Hash, nat>)
      requires Serves(g) && Waiting(g, gd, sp, order) && i < |order| && x == order[i] &&
        Coloured(g, gd, sp, order, i, blues, reds, sizes)
      ensures blue <==> KCluster(g.past, ColouredSet(g, gd, sp, blues) + {x}, k)
      ensures blue ==> Seen(g.past, ColouredSet(g, gd, sp, blues), x, size, seen)
    {
      Known(g);
      ghost var all := ColouredSet(g, gd, sp, blues);
      FullIsRed(g, gd, sp, order, i, blues, reds, sizes);
      CandidateFacts(g, gd, sp, order, i, blues, reds, sizes);
      hide Serves, GdOk, Rooted, Waiting, Coloured, KCluster, ColouredSet, SoFar, Forbidden, AtChain, PastOk, Seen,
        PeersReady;
      seen, size := map[], 0;
      if |blues| == k + 1 {
        return false, size, seen;
      }
      var chain: Option<Hash>, peers, next := None, blues, sp;
      ghost var visited: set<Hash> := {};
      SoFarStarts(g, all, x);
      while true
        invariant SoFar(g, all, visited, x, seen, size)
        invariant AtChain(g, gd, sp, blues, all, visited, chain)
        invariant if chain.None? then peers == blues && next == sp
          else chain.value in gd && peers == gd[chain.value].blues && next == gd[chain.value].selectedParent
        decreases chain.None?, if chain.Some? && chain.value in g.past then g.past[chain.value] else {}
      {
        PeersAreReady(g, gd, sp, order, i, blues, reds, sizes, visited, chain);
        var state;
        state, seen, size := CheckWithChainBlock(chain, peers, sp, sizes, x, seen, size, g, all, visited);
        Decide(g, gd, sp, blues, all, visited, chain, x, seen, size, state);
        match state
        case Blue => return true, size, seen;
        case Red => return false, size, seen;
        case Pending =>
        ChainGoesOn(g, gd, sp, order, i, blues, reds, sizes, visited, chain, x);
        visited := visited + Listed(peers);
        chain := Some(next);
        peers, next := gd[next].blues, gd[next].selectedParent;
      }
    }

    /** The data of a block with the given parents. */
    method Ghostdag(parents: seq<Hash>, ghost g: Graph) returns (d: GhostdagData)
      requires |parents| > 0 && (forall p :: p in parents ==> p in gd)
      requires parents == [ORIGIN] || (Serves(g) && ORIGIN !in parents && Tidy(g.past, gd, parents))
      ensures parents == [ORIGIN] ==> d == GENESIS_DATA
      ensures parents != [ORIGIN] ==> DataFor(g.past, gd, k, parents, Merged(parents, g.past), d)
    {
      var sp := FindSelectedParent(parents);
      var blues, reds, sizes := [sp], [], map[sp := 0];
      if sp == ORIGIN {
        assert ORIGIN in parents;
        return GhostdagData(0, 0, sp, blues, reds, sizes);
      }
      Known(g);
      MergedIsTidy(g, gd, parents, sp);
      hide Serves, GdOk, Rooted, Waiting, Coloured, PastOk, Tidy, KCluster, Seen, ColouredSet, MergedFor, Heaviest;
      var merged := UnorderedMergeset(sp, parents, g);
      var order := SortBlocks(merged);
      MergeSetWaits(g, gd, parents, sp, order);
      ColouringStarts(g, gd, sp, order);
      for i := 0 to |order|
        invariant Coloured(g, gd, sp, order, i, blues, reds, sizes)
      {
        var blue, size, seen := CheckBlueCandidate(order[i], sp, blues, sizes, g, order, i, reds);
        ColouredOneMore(g, gd, sp, order, i, blues, reds, sizes, blue, size, seen);
        if blue {
          blues, sizes := blues + [order[i]], WithBlue(sizes, order[i], size, seen);
        } else {
          reds := reds + [order[i]];
        }
      }
      d := GhostdagData(gd[sp].blueScore + |blues|, gd[sp].blueWork + |blues|, sp, blues, reds, sizes);
      AllColoured(g, gd, parents, sp, order, d);
    }
  }

  lemma {:induction false} MergedIsTidy(g: Graph, gd: Ghosts, ps: seq<Hash>, sp: Hash)
    requires GdOk(g, gd) && (forall p :: p in ps ==> p in gd) && Heaviest(gd, Listed(ps), sp) && Tidy(g.past, gd, ps)
    ensures sp in g.past && sp in gd && sp in ps && MergedFor(g.past, ps, sp) == Merged(ps, g.past) - g.past[sp] - {sp}
  {
    assert sp in ps;
    MergedExactly(g.past, ps, sp);
  }

  lemma {:induction false} AllColoured(g: Graph, gd: Ghosts, ps: seq<Hash>, sp: Hash, order: seq<Hash>, d: GhostdagData)
    requires sp in g.past && sp in gd && Heaviest(gd, Listed(ps), sp) &&
      order == InOrder(gd, Merged(ps, g.past) - g.past[sp] - {sp})
    requires Coloured(g, gd, sp, order, |order|, d.blues, d.reds, d.sizes) && d.selectedParent == sp
    requires d.blueScore == gd[sp].blueScore + |d.blues| && d.blueWork == gd[sp].blueWork + |d.blues|
    ensures DataFor(g.past, gd, g.k, ps, Merged(ps, g.past), d)
  {
    assert order[..|order|] == order;
    hide Greedy, SizesOk, Heaviest;
  }

  // ---------- the check of one candidate ----------

  /** The blues visited so far: those beside `x` were counted, and none of them forbids `x`. */
  ghost predicate SoFar(g: Graph, all: set<Hash>, visited: set<Hash>, x: Hash, seen: map<Hash, nat>, size: nat) {
    && KCluster(g.past, all, g.k) && visited <= all
    && seen.Keys == Beside(g.past, visited, x) && (forall p :: p in seen ==> seen[p] == |AnticoneIn(g.past, all, p)|)
    && size == |seen| && size <= g.k
    && forall p :: p in seen ==> seen[p] < g.k
  }

  ghost predicate PeersReady(g: Graph, all: set<Hash>, visited: set<Hash>, peers: seq<Hash>) {
    Distinct(peers) && Listed(peers) !! visited && visited + Listed(peers) <= all && forall p :: p in peers ==>
      p in g.past
  }

  /** Looking `p` up from the block being coloured gives its true anticone size. */
  ghost predicate HasRecord(g: Graph, gd: Ghosts, all: set<Hash>, sp: Hash, sizes: map<Hash, nat>, p: Hash) {
    && (p in sizes || (p in BlueSet(g.past, gd, sp) && p != ORIGIN))
    && (if p in sizes then sizes[p] else Recorded(g.past, gd, sp, p)) == |AnticoneIn(g.past, all, p)|
  }

  lemma {:induction false} RecordUse(g: Graph, gd: Ghosts, all: set<Hash>, sp: Hash, sizes: map<Hash, nat>, p: Hash)
    requires HasRecord(g, gd, all, sp, sizes, p)
    ensures p in sizes || (p in BlueSet(g.past, gd, sp) && p != ORIGIN)
    ensures (if p in sizes then sizes[p] else Recorded(g.past, gd, sp, p)) == |AnticoneIn(g.past, all, p)|
  {
  }

  ghost predicate Forbidden(g: Graph, all: set<Hash>, x: Hash) {
    |Beside(g.past, all, x)| > g.k || exists p :: p in Beside(g.past, all, x) && |AnticoneIn(g.past, all, p)| >= g.k
  }

  lemma {:induction false} PeerNext(g: Graph, all: set<Hash>, visited: set<Hash>, peers: seq<Hash>, i: nat)
    requires PeersReady(g, all, visited, peers) && i < |peers|
    ensures peers[i] in g.past && peers[i] in all && peers[i] !in visited + Listed(peers[..i])
    ensures visited + Listed(peers[..i + 1]) == visited + Listed(peers[..i]) + {peers[i]}
  {
    assert peers[..i + 1] == peers[..i] + [peers[i]];
    assert peers[i] in Listed(peers);
  }

  lemma {:induction false} SoFarStarts(g: Graph, all: set<Hash>, x: Hash)
    requires KCluster(g.past, all, g.k)
    ensures SoFar(g, all, {}, x, map[], 0)
  {
  }

  lemma {:induction false} SoFarSkips(g: Graph, all: set<Hash>, visited: set<Hash>, x: Hash, seen: map<Hash, nat>,
                                      size: nat, p: Hash)
    requires SoFar(g, all, visited, x, seen, size) && Below(g.past, p, x) && p in all
    ensures SoFar(g, all, visited + {p}, x, seen, size)
  {
    assert Beside(g.past, visited + {p}, x) == Beside(g.past, visited, x);
  }

  lemma {:induction false} SoFarCounts(g: Graph, all: set<Hash>, visited: set<Hash>, x: Hash, seen: map<Hash, nat>,
                                       size: nat, p: Hash, n: nat)
    requires SoFar(g, all, visited, x, seen, size) && !Below(g.past, p, x) && p in all && p !in visited &&
      n == |AnticoneIn(g.past, all, p)|
    ensures n <= g.k
    ensures size + 1 <= g.k && n < g.k ==> SoFar(g, all, visited + {p}, x, seen[p := n], size + 1)
    ensures size + 1 > g.k || n == g.k ==> Forbidden(g, all, x)
  {
    hide KCluster, AnticoneIn, Beside, Below;
    ClusterAt(g.past, all, g.k, p);
    BesideMore(g.past, all, visited, x, p);
    CountMore(seen, p, n);
    assert |seen.Keys| == |seen|;
  }

  lemma {:induction false} BesideMore(past: Pasts, all: set<Hash>, visited: set<Hash>, x: Hash, p: Hash)
    requires visited <= all && p in all && p !in visited && !Below(past, p, x)
    ensures p !in Beside(past, visited, x) && p in Beside(past, all, x)
    ensures Beside(past, visited + {p}, x) == Beside(past, visited, x) + {p}
    ensures |Beside(past, visited, x)| + 1 <= |Beside(past, all, x)|
  {
    assert Beside(past, visited + {p}, x) == Beside(past, visited, x) + {p};
    OneMore(Beside(past, visited, x), p);
    SubsetCount(Beside(past, visited + {p}, x), Beside(past, all, x));
  }

  lemma {:induction false} CountMore(seen: map<Hash, nat>, p: Hash, n: nat)
    requires p !in seen
    ensures |seen[p := n]| == |seen| + 1 && seen[p := n].Keys == seen.Keys + {p}
  {
    assert |seen.Keys| == |seen| && |seen[p := n].Keys| == |seen[p := n]|;
    assert seen[p := n].Keys == seen.Keys + {p};
    OneMore(seen.Keys, p);
  }

  lemma {:induction false} CandidateFacts(g: Graph, gd: Ghosts, sp: Hash, order: seq<Hash>, i: nat, blues: seq<Hash>,
                                          reds: seq<Hash>, sizes: map<Hash, nat>)
    requires Waiting(g, gd, sp, order) && i < |order| && Coloured(g, gd, sp, order, i, blues, reds, sizes)
    ensures var all, x := ColouredSet(g, gd, sp, blues), order[i];
      && KCluster(g.past, all, g.k) && After(g.past, all, x) && x !in all && x in g.past && sp in g.past && sp != ORIGIN
      && (forall p {:trigger HasRecord(g, gd, all, sp, sizes, p)} :: p in all ==>
        Below(g.past, p, x) || HasRecord(g, gd, all, sp, sizes, p))
      && AtChain(g, gd, sp, blues, all, {}, None)
      && Below(g.past, g.genesis, x)
  {
    var all, x := ColouredSet(g, gd, sp, blues), order[i];
    BluesSoFar(g, gd, sp, order, i, blues, reds, sizes);
    NextAfter(g, gd, sp, order, i, blues, reds, sizes);
    assert Candidate(g, gd, sp, x);
    OriginBelow(g, x);
    forall p | p in all
      ensures Below(g.past, p, x) || HasRecord(g, gd, all, sp, sizes, p)
    {
      RecordNow(g, gd, sp, blues, sizes, p);
    }
  }

  lemma {:induction false} RecordNow(g: Graph, gd: Ghosts, sp: Hash, blues: seq<Hash>, sizes: map<Hash, nat>, p: Hash)
    requires GdOk(g, gd) && sp in gd && SizesOk(g.past, BlueSet(g.past, gd, sp), blues, sizes) &&
      p in ColouredSet(g, gd, sp, blues)
    ensures p == ORIGIN || HasRecord(g, gd, ColouredSet(g, gd, sp, blues), sp, sizes, p)
  {
    var below := BlueSet(g.past, gd, sp);
    assert SizeOk(g.past, below + Listed(blues), blues, sizes, p);
    if p !in sizes {
      UntouchedAnticone(g.past, below, blues, p);
      RecordedTrue(g, gd, sp, p);
    }
  }

  /** Where the walk stands: at the new block, or at chain block `c` with all blues above it visited. */
  ghost predicate AtChain(g: Graph, gd: Ghosts, sp: Hash, blues: seq<Hash>, all: set<Hash>, visited: set<Hash>,
                          chain: Option<Hash>) {
    match chain
    case None => visited == {} && all == BlueSet(g.past, gd, sp) + Listed(blues)
    case Some(c) =>
      && c in gd && c in g.past && c != ORIGIN
      && visited + BlueSet(g.past, gd, c) == all && visited !! BlueSet(g.past, gd, c)
  }

  lemma {:induction false} ChainBlues(g: Graph, gd: Ghosts, c: Hash)
    requires GdOk(g, gd) && c in gd && c != ORIGIN
    ensures Distinct(gd[c].blues) && Listed(gd[c].blues) <= BlueSet(g.past, gd, c) && c in g.past &&
      g.past[c] <= g.past.Keys
    ensures c != g.genesis ==>
      var sp := gd[c].selectedParent;
      sp in gd && sp in g.past && sp != ORIGIN && g.past[sp] < g.past[c]
      && BlueSet(g.past, gd, c) == Listed(gd[c].blues) + BlueSet(g.past, gd, sp) &&
        Listed(gd[c].blues) !! BlueSet(g.past, gd, sp)
  {
    hide GdOk, DataOk, Greedy, BlueSet, InOrder;
    GraphParts(g, gd);
    forall a | a in g.past[c]
      ensures a in g.past.Keys
    {
      PastInside(g.parents, g.past, a, c);
    }
    if c == g.genesis {
      GenesisBlues(g, gd);
    } else {
      SelectedBelow(g, gd, c);
      BlueSetSplit(g, gd, c);
      BluesMerged(g, gd, c);
      var d := gd[c];
      var sp := d.selectedParent;
      BlueSetBelow(g, gd, sp);
      MergedIsGreedy(g, gd, c);
      var order := InOrder(gd, MergeSet(g.past, c, sp));
      BluesDistinct(g, gd, sp, order, |order|);
      assert order[..|order|] == order;
      NotOwnPast(g.parents, g.past, sp);
      MembersListed(d.blues[1..]);
      DistinctCons(sp, d.blues[1..]);
    }
  }

  /** Blue score and blue work are the number of blue blocks in the past, the origin left out. */
  lemma {:induction false} ScoreCounts(g: Graph, gd: Ghosts, b: Hash)
    requires GdOk(g, gd) && b in gd && b != ORIGIN
    ensures gd[b].blueScore == gd[b].blueWork == |BlueSet(g.past, gd, b) - {ORIGIN}| && ORIGIN in BlueSet(g.past, gd, b)
    decreases if b in g.past then g.past[b] else {}
  {
    if b == g.genesis {
      RootBlues(g, gd);
      assert {ORIGIN} - {ORIGIN} == {};
    } else {
      ChainBlues(g, gd, b);
      SelectedBelow(g, gd, b);
      hide GdOk, Greedy, BlueSet, InOrder, SizesOk;
      var sp, blues := gd[b].selectedParent, Listed(gd[b].blues);
      ScoreCounts(g, gd, sp);
      DistinctSize(gd[b].blues);
      var rest := BlueSet(g.past, gd, sp) - {ORIGIN};
      assert BlueSet(g.past, gd, b) - {ORIGIN} == blues + rest;
      assert blues !! rest && |blues + rest| == |blues| + |rest|;
    }
  }

  lemma {:induction false} GenesisBlues(g: Graph, gd: Ghosts)
    requires GdOk(g, gd)
    ensures g.genesis in gd && gd[g.genesis].blues == [ORIGIN] && Listed([ORIGIN]) <= BlueSet(g.past, gd, g.genesis)
  {
    RootBlues(g, gd);
  }

  lemma {:induction false} MembersListed(s: seq<Hash>)
    ensures forall x :: x in s <==> x in Listed(s)
  {
  }

  lemma {:induction false} DistinctCons(x: Hash, s: seq<Hash>)
    requires Distinct(s) && x !in s
    ensures Distinct([x] + s)
  {
  }

  lemma {:induction false} NewBlues(g: Graph, gd: Ghosts, sp: Hash, order: seq<Hash>, i: nat, blues: seq<Hash>,
                                    reds: seq<Hash>, sizes: map<Hash, nat>)
    requires Waiting(g, gd, sp, order) && i <= |order| && Coloured(g, gd, sp, order, i, blues, reds, sizes)
    ensures Distinct(blues) && Listed(blues) !! BlueSet(g.past, gd, sp) && forall p :: p in blues ==> p in g.past
  {
    BluesSoFar(g, gd, sp, order, i, blues, reds, sizes);
    BluesDistinct(g, gd, sp, order, i);
    BlueSetBelow(g, gd, sp);
    NotOwnPast(g.parents, g.past, sp);
    hide GdOk, Greedy, KCluster, SizesOk, Sorted;
    forall y | y in blues[1..]
      ensures !Below(g.past, y, sp) && y in g.past
    {
      assert Candidate(g, gd, sp, y);
    }
    DistinctCons(sp, blues[1..]);
  }

  lemma {:induction false} PeersAreReady(g: Graph, gd: Ghosts, sp: Hash, order: seq<Hash>, i: nat, blues: seq<Hash>,
                                         reds: seq<Hash>, sizes: map<Hash, nat>,
                                        visited: set<Hash>, chain: Option<Hash>)
    requires Waiting(g, gd, sp, order) && i < |order| && Coloured(g, gd, sp, order, i, blues, reds, sizes)
    requires AtChain(g, gd, sp, blues, ColouredSet(g, gd, sp, blues), visited, chain)
    ensures chain.Some? ==> chain.value in gd && chain.value in g.past
    ensures PeersReady(g, ColouredSet(g, gd, sp, blues), visited, if chain.None? then blues else gd[chain.value].blues)
    ensures forall p :: p in (if chain.None? then blues else gd[chain.value].blues) ==>
      p in ColouredSet(g, gd, sp, blues)
  {
    var all := ColouredSet(g, gd, sp, blues);
    match chain
    case None =>
      NewBlues(g, gd, sp, order, i, blues, reds, sizes);
    case Some(c) =>
      ChainBlues(g, gd, c);
      BlueSetBelow(g, gd, c);
      forall p | p in gd[c].blues
        ensures p in g.past && p in all
      {
        assert p in Listed(gd[c].blues);
      }
  }

  lemma {:induction false} Decide(g: Graph, gd: Ghosts, sp: Hash, blues: seq<Hash>, all: set<Hash>, visited: set<Hash>,
                                  chain: Option<Hash>,
                                  x: Hash, seen: map<Hash, nat>, size: nat, state: ColouringState)
    requires GdOk(g, gd) && KCluster(g.past, all, g.k) && After(g.past, all, x) && x !in all
    requires AtChain(g, gd, sp, blues, all, visited, chain)
    requires state == Blue ==> SoFar(g, all, visited, x, seen, size) && chain.Some? && Below(g.past, chain.value, x)
    requires state == Red ==> Forbidden(g, all, x)
    ensures state == Blue ==> Seen(g.past, all, x, size, seen) && KCluster(g.past, all + {x}, g.k)
    ensures state == Red ==> !KCluster(g.past, all + {x}, g.k)
  {
    JoinTest(g.past, all, g.k, x);
    if state == Blue {
      var c := chain.value;
      BlueSetBelow(g, gd, c);
      forall p | p in BlueSet(g.past, gd, c)
        ensures Below(g.past, p, x)
      {
        PastTrans(g.parents, g.past, p, c, x);
      }
      assert Beside(g.past, all, x) == Beside(g.past, visited, x);
      assert |seen.Keys| == |seen|;
    }
  }

  lemma {:induction false} ChainGoesOn(g: Graph, gd: Ghosts, sp: Hash, order: seq<Hash>, i: nat, blues: seq<Hash>,
                                       reds: seq<Hash>, sizes: map<Hash, nat>,
                                       visited: set<Hash>, chain: Option<Hash>, x: Hash)
    requires Waiting(g, gd, sp, order) && i < |order| && Coloured(g, gd, sp, order, i, blues, reds, sizes)
    requires AtChain(g, gd, sp, blues, ColouredSet(g, gd, sp, blues), visited, chain)
    requires Below(g.past, g.genesis, x) && !(chain.Some? && Below(g.past, chain.value, x))
    ensures chain.Some? ==> chain.value in gd
    ensures var next := if chain.None? then sp else gd[chain.value].selectedParent;
      && next in gd && next in g.past
      && AtChain(g, gd, sp, blues, ColouredSet(g, gd, sp, blues),
        visited + Listed(if chain.None? then blues else gd[chain.value].blues), Some(next))
      && (chain.Some? ==> chain.value in g.past && g.past[next] < g.past[chain.value])
  {
    match chain
    case None => NewBlues(g, gd, sp, order, i, blues, reds, sizes);
    case Some(c) => ChainBlues(g, gd, c);
  }

  lemma {:induction false} InsertSorted(gd: Ghosts, order: seq<Hash>, i: nat, b: Hash)
    requires Sorted(gd, order) && b !in Listed(order) && i <= |order|
    requires (forall j :: 0 <= j < i ==> Less(gd, order[j], b)) && (i < |order| ==> !Less(gd, order[i], b))
    ensures Sorted(gd, order[..i] + [b] + order[i..]) && Listed(order[..i] + [b] + order[i..]) == Listed(order) + {b}
  {
    var longer := order[..i] + [b] + order[i..];
    assert forall j :: 0 <= j < |order| ==> order[j] in Listed(order);
    forall j | i <= j < |order|
      ensures Less(gd, b, order[j])
    {
      assert j > i ==> Less(gd, order[i], order[j]);
    }
    InsertedSorted(gd, order, i, b);
    assert order == order[..i] + order[i..];
  }

  lemma {:induction false} InsertedSorted(gd: Ghosts, order: seq<Hash>, i: nat, b: Hash)
    requires Sorted(gd, order) && i <= |order|
    requires forall j :: 0 <= j < i ==> Less(gd, order[j], b)
    requires forall j :: i <= j < |order| ==> Less(gd, b, order[j])
    ensures Sorted(gd, order[..i] + [b] + order[i..])
  {
    hide Less;
    var longer := order[..i] + [b] + order[i..];
    forall j, l | 0 <= j < l < |longer|
      ensures Less(gd, longer[j], longer[l])
    {
      assert j != i ==> longer[j] == order[if j < i then j else j - 1];
      assert l != i ==> longer[l] == order[if l < i then l else l - 1];
    }
  }
}
