/** Reallocation of labels when a block runs out of them. */
module Reindex {
  import opened Types
  import opened Intervals
  import opened Tree
  import opened Labels
  import opened Store
  import opened Counting
  import opened Relabel
  import opened Sliding
  import opened ChainPath
  import opened NewLeaf
  import opened Concentrate

  /** One reindex operation, with the subtree sizes it has computed so far. */
  class ReindexContext {
    const store: ReachabilityStore
    const slack: nat
    var sizes: map<Hash, int>

    constructor (store: ReachabilityStore, slack: nat)
      ensures this.store == store && this.slack == slack && sizes == map[]
    {
      this.store, this.slack, sizes := store, slack, map[];
    }

    /** Caches the subtree size of `block` and of everything below it, breadth first: blocks wait
        until all their children have reported. */
    method CountSubtrees(block: Hash, ghost root: Hash)
      requires WellFormed(store.tree, root) && SizesOk(store.tree, sizes) && block in store.tree
      modifies this`sizes
      ensures SizesOk(store.tree, sizes) && old(sizes).Keys <= sizes.Keys
      ensures block in sizes && sizes[block] == |Subtree(store.tree, block)|
    {
      var t := store.tree;
      var cache := sizes;
      if block in cache {
        assert SizeOk(t, cache, block);
        return;
      }
      var queue, counts: map<Hash, int> := [block], map[];
      ghost var waiting, popped, expanded, pushed: set<Hash> := {block}, {}, {}, {};
      CountingStarts(t, block, cache);
      hide *;
      while |queue| > 0
        invariant sizes == old(sizes) && sizes.Keys <= cache.Keys
        invariant IsQueue(queue, waiting) && Explored(t, block, waiting, popped, expanded)
        invariant Counted(t, block, cache, counts, popped, expanded, pushed, {})
        decreases Subtree(t, block) - popped
      {
        var current := queue[0];
        Pop(queue, waiting);
        ExploredInTree(t, block, waiting, popped, expanded, current);
        CountedSizes(t, block, cache, counts, popped, expanded, pushed, {});
        queue := queue[1..];
        var children := t[current].children;
        if |children| == 0 {
          LeafSize(t, root, current);
          SizesGrow(t, cache, current);
          SizedMore(t, block, cache, counts, popped, expanded, pushed, current);
          cache := cache[current := 1];
        } else if current !in cache {
          Expand(t, root, block, waiting, popped, expanded, current);
          ExpandCounted(t, root, block, cache, counts, waiting, popped, expanded, pushed, current);
          PushAll(queue, waiting - {current}, children);
          queue := queue + children;
          waiting, popped, expanded := waiting - {current} + Elems(children), popped + {current}, expanded + {current};
          continue;
        }
        Leave(t, block, waiting, popped, expanded, current);
        LeaveCounted(t, block, cache, counts, popped, expanded, pushed, current);
        waiting, popped := waiting - {current}, popped + {current};
        cache, counts, pushed := ReportUp(t, block, cache, counts, current, root, waiting, popped, expanded, pushed);
      }
      QueueEmpty(queue, waiting);
      TopPopped(t, block, popped, expanded);
      AllCounted(t, root, block, cache, counts, popped, expanded, pushed, block);
      CountedSizes(t, block, cache, counts, popped, expanded, pushed, {});
      SizeKnown(t, cache, block);
      sizes := cache;
    }

    /** Hands out the labels of `block` to everything below it, breadth first, each block's share
        covering at least its subtree. */
    method PropagateInterval(block: Hash, ghost root: Hash) returns (r: Status)
      requires WellFormed(store.tree, root) && SizesOk(store.tree, sizes) && block in store.tree &&
        store.labels.Keys == store.tree.Keys
      requires store.labels[block].Valid()
      modifies this`sizes, store`labels
      ensures SizesOk(store.tree, sizes) && old(sizes).Keys <= sizes.Keys
      ensures SameExcept(old(store.labels), store.labels, Subtree(store.tree, block) - {block})
      ensures r == if |store.tree[block].children| == 0 ||
        |Subtree(store.tree, block)| <= store.labels[block].Size() then Ok else Panic
      ensures r == Ok && |Subtree(store.tree, block)| <= store.labels[block].Size() ==>
        SubtreeOk(store.tree, store.labels, block)
      ensures r != Ok ==> store.labels == old(store.labels)
    {
      CountSubtrees(block, root);
      var t := store.tree;
      LeafSize(t, root, block);
      ServingStarts(t, store.labels, block);
      hide WellFormed, SizesOk, Explored, HandedOut, IsQueue, Subtree, SubtreeOk, Anc, RowGiven, Elems, Roomy;
      ghost var before := store.labels;
      ghost var roomy := |Subtree(t, block)| <= store.labels[block].Size();
      var queue := [block];
      ghost var waiting, done := {block}, {};
      while |queue| > 0
        invariant SizesOk(t, sizes) && old(sizes).Keys <= sizes.Keys && block in sizes && store.labels.Keys == t.Keys
        invariant SameExcept(before, store.labels, Subtree(t, block) - {block})
        invariant IsQueue(queue, waiting) && Explored(t, block, waiting, done, done)
        invariant roomy ==> HandedOut(t, store.labels, waiting, done)
        invariant !roomy ==> store.labels == before && (done == {} || |t[block].children| == 0)
        decreases Subtree(t, block) - done
      {
        var current := queue[0];
        Pop(queue, waiting);
        queue := queue[1..];
        ghost var iv := store.labels;
        ExploredInTree(t, block, waiting, done, done, current);
        SizedBelow(t, root, sizes, block, current);
        if roomy {
          WaitingRoomy(t, iv, waiting, done, current);
        } else {
          TopFirst(t, root, block, waiting, done, current);
        }
        r := HandOutRow(current, root);
        if r != Ok {
          return;
        }
        if roomy {
          HandOut(t, root, block, iv, store.labels, waiting, done, current);
        }
        Expand(t, root, block, waiting, done, done, current);
        ChildrenBelow(t, root, block, current);
        RowChange(t, iv, store.labels, current);
        SameExceptWider(before, iv, store.labels, Subtree(t, block) - {block}, Elems(t[current].children));
        PushAll(queue, waiting - {current}, t[current].children);
        queue := queue + t[current].children;
        waiting, done := waiting - {current} + Elems(t[current].children), done + {current};
      }
      QueueEmpty(queue, waiting);
      if roomy {
        Served(t, root, block, store.labels, done);
      }
      AllServed(t, root, block, done, block);
      return Ok;
    }

    /** One step of the top-down pass: the children of `current` get a row inside it. */
    method HandOutRow(current: Hash, ghost root: Hash) returns (r: Status)
      requires WellFormed(store.tree, root) && SizesOk(store.tree, sizes) && current in store.tree &&
        store.labels.Keys == store.tree.Keys
      requires current in store.labels && store.labels[current].Valid() && current in sizes
      modifies store`labels
      ensures store.labels.Keys == old(store.labels).Keys
      ensures r == if |store.tree[current].children| == 0 ||
        |Subtree(store.tree, current)| <= store.labels[current].Size() then Ok else Panic
      ensures r != Ok ==> store.labels == old(store.labels)
      ensures r == Ok ==> RowGiven(store.tree, old(store.labels), store.labels, current)
    {
      hide WellFormed, SizesOk, Subtree, Sum, RowGiven, Tiles, Elems, SameExcept;
      var t, children := store.tree, store.tree[current].children;
      ghost var iv := store.labels;
      ChildSizes(t, root, sizes, current);
      if |children| == 0 {
        NoRow(t, iv, current);
        return Ok;
      }
      var counts := SubtreeSizes(sizes, children);
      var capacity := ChildrenCapacity(store, current);
      if !capacity.Valid() {
        return Panic;
      }
      var parts;
      r, parts := SplitExponential(capacity, counts);
      if r != Ok {
        return Panic;
      }
      SetRow(children, parts);
      RowSet(t, iv, store.labels, current, parts, counts, capacity);
    }

    method SetRow(children: seq<Hash>, parts: seq<Interval>)
      requires |children| == |parts| && forall i :: 0 <= i < |children| ==> children[i] in store.labels
      requires forall i, j :: 0 <= i < j < |children| ==> children[i] != children[j]
      modifies store`labels
      ensures SameExcept(old(store.labels), store.labels, Elems(children))
      ensures forall i :: 0 <= i < |children| ==> store.labels[children[i]] == parts[i]
    {
      for i := 0 to |children|
        invariant SameExcept(old(store.labels), store.labels, Elems(children))
        invariant forall j :: 0 <= j < i ==> store.labels[children[j]] == parts[j]
      {
        store.SetInterval(children[i], parts[i]);
      }
    }

    /** Gives `block` a new interval and hands its labels out below it. */
    method SetAndPropagate(block: Hash, interval: Interval, ghost root: Hash) returns (r: Status)
      requires WellFormed(store.tree, root) && SizesOk(store.tree, sizes)
      requires block in store.tree && store.labels.Keys == store.tree.Keys
      modifies this`sizes, store`labels
      ensures SizesOk(store.tree, sizes) && SameExcept(old(store.labels), store.labels, Subtree(store.tree, block))
      ensures r == if interval.Valid() &&
        (|store.tree[block].children| == 0 || |Subtree(store.tree, block)| <= interval.Size()) then Ok else Panic
      ensures r == Ok ==> store.labels[block] == interval
      ensures r == Ok && |Subtree(store.tree, block)| <= interval.Size() ==> SubtreeOk(store.tree, store.labels, block)
    {
      hide WellFormed, SizesOk, Anc, SubtreeOk;
      if !interval.Valid() {
        return Panic;
      }
      store.SetInterval(block, interval);
      assert block in Subtree(store.tree, block) by {
        SelfBelow(store.tree, block);
      }
      r := PropagateInterval(block, root);
    }

    /** Slides the siblings of `current` on one side into the gap it left, up to and including
        `allocation`, which grows instead. */
    method OffsetSiblings(side: Side, allocation: Hash, current: Hash, offset: int, ghost root: Hash, ghost p: Hash,
                          ghost k: int, ghost a: int)
      requires WellFormed(store.tree, root) && SizesOk(store.tree, sizes) && store.labels.Keys == store.tree.Keys
      requires current in store.tree && store.tree[current].parent == p && p in store.tree
      requires 0 <= k < |store.tree[p].children| && store.tree[p].children[k] == current
      requires (forall j :: 0 <= j < |store.tree[p].children| ==> store.tree[p].children[j] in store.tree)
      requires Locates(store.tree[p].children, side, allocation, a, k)
      requires forall j :: 0 <= j < |store.tree[p].children| && side.Between(side.Next(a), j, k) ==>
                 Fits(store.tree, store.labels, store.tree[p].children[j], side, j == a, offset)
      modifies this`sizes, store`labels
      ensures SizesOk(store.tree, sizes) && store.labels.Keys == store.tree.Keys
      ensures SlidTo(store.tree, old(store.labels), store.labels, store.tree[p].children, side, a, side.Next(a), k,
        offset)
    {
      hide WellFormed, SizesOk, Anc, SubtreeOk, SlidTo, Fits, Subtree, Locates;
      var t, cs := store.tree, store.tree[store.tree[current].parent].children;
      ghost var iv := store.labels;
      var at := Position(cs, current);
      OnePosition(t, root, p, at, k);
      SlideStarts(t, iv, cs, side, a, k, offset);
      LocatesRange(cs, side, allocation, a, k);
      var i := side.Next(at);
      while 0 <= i < |cs|
        invariant SizesOk(t, sizes) && store.labels.Keys == t.Keys
        invariant SlidTo(t, iv, store.labels, cs, side, a, i, k, offset)
        invariant if side.Low? then a <= i < k else k < i <= a
        decreases if side.Low? then i else |cs| - i
      {
        ghost var mid := store.labels;
        Unslid(t, root, iv, mid, p, side, a, i, k, offset, i);
        LocatedAt(t, root, p, side, allocation, a, k, i);
        FitsHere(t, iv, mid, cs[i], side, i == a, offset);
        var grows := cs[i] == allocation;
        var _ := SetAndPropagate(cs[i], Target(side, store.labels[cs[i]], grows, offset), root);
        SlideOne(t, root, iv, mid, store.labels, p, side, a, i, k, offset);
        if grows {
          return;
        }
        i := side.Next(i);
      }
      SlidAll(t, iv, store.labels, cs, side, a, k, offset);
    }

    /** A chain block gives up `offset` labels at one end and its siblings there move up to it. */
    method GiveUp(side: Side, allocation: Hash, current: Hash, offset: int, propagate: bool, ghost root: Hash,
                  ghost p: Hash, ghost k: int, ghost a: int)
        returns (r: Status)
      requires WellFormed(store.tree, root) && SizesOk(store.tree, sizes) && store.labels.Keys == store.tree.Keys
      requires current in store.tree && store.tree[current].parent == p && p in store.tree
      requires 0 <= k < |store.tree[p].children| && store.tree[p].children[k] == current
      requires SlideReady(store.tree, store.labels, side, allocation, p, a, k, offset)
      requires |store.tree[current].children| > 0 && forall c :: c in store.tree[current].children ==> c in store.tree
      requires !propagate ==>
        SubtreeOk(store.tree, store.labels, current) && offset <= Free(store.tree, store.labels, side, current)
      requires !propagate ==> side.Shrunk(store.labels[current], offset).Valid()
      modifies this`sizes, store`labels
      ensures SizesOk(store.tree, sizes) && store.labels.Keys == store.tree.Keys
      ensures r == (if !propagate || (side.Shrunk(old(store.labels)[current], offset).Valid()
                      && |Subtree(store.tree, current)| <= side.Shrunk(old(store.labels)[current], offset).Size()) then
                        Ok else Panic)
      ensures r == Ok ==> Slid(store.tree, old(store.labels), store.labels, side, p, a, k, offset)
      ensures r == Ok ==> store.labels[current] == side.Shrunk(old(store.labels)[current], offset)
      ensures r == Ok && !propagate ==> KeptBelow(store.tree, old(store.labels), store.labels, current)
    {
      hide WellFormed, SizesOk, Anc, SubtreeOk, LooseRow, Slid, SlidTo, Locates, Fits, Free, KeptBelow;
      ghost var t, iv := store.tree, store.labels;
      ReadyFacts(t, iv, side, allocation, p, a, k, offset);
      if propagate {
        r := SetAndPropagate(current, side.Shrunk(store.labels[current], offset), root);
        if r != Ok {
          return;
        }
      } else {
        store.SetInterval(current, side.Shrunk(store.labels[current], offset));
        ShrinkOk(t, iv, store.labels, root, side, current, offset);
        SelfBelow(t, current);
      }
      ghost var mid := store.labels;
      FitsAfterShrink(t, root, iv, mid, side, allocation, p, a, k, offset);
      OffsetSiblings(side, allocation, current, offset, root, p, k, a);
      SlideDone(t, root, iv, mid, store.labels, side, allocation, p, a, k, offset);
      SlidChild(t, iv, store.labels, side, p, a, k, offset);
      if !propagate {
        SlideAround(t, root, iv, mid, store.labels, side, p, a, k, offset, side.Shrunk(iv[current], offset));
      }
      return Ok;
    }

    /** One step up the path: `current` gives up `offset` labels, at the bottom of the path with a
        redistribution below it. */
    method RaiseLevel(side: Side, allocation: Hash, current: Hash, offset: int, propagate: bool, ghost root: Hash,
                      ghost iv: Labels,
                      ghost common: Hash, ghost a: int, ghost k: int, ghost pivot: Hash, ghost required: int,
                      ghost path: seq<Hash>, ghost slacks: seq<int>, ghost j: int)
        returns (r: Status)
      requires WellFormed(store.tree, root) && SizesOk(store.tree, sizes) &&
        iv.Keys == store.tree.Keys == store.labels.Keys
      requires LevelStart(store.tree, iv, store.labels, side, common, a, k, pivot, required, path, slacks, j, offset,
        propagate)
      requires current == path[j] && allocation == store.tree[common].children[a] && (propagate ==> current == pivot)
      modifies this`sizes, store`labels
      ensures SizesOk(store.tree, sizes) && store.labels.Keys == store.tree.Keys
      ensures r == Ok || r == Panic
      ensures r != Ok ==> propagate && old(store.labels)[current].Size() < |Subtree(store.tree, current)| + offset
      ensures r == Ok ==> LevelDone(store.tree, iv, store.labels, side, common, a, k, required, path, slacks, j, offset)
      ensures r == Ok ==> pivot in store.labels
      ensures r == Ok && current == pivot ==> store.labels[pivot] == side.Shrunk(old(store.labels)[pivot], offset)
      ensures r == Ok && current != pivot ==> store.labels[pivot] == old(store.labels)[pivot]
    {
      ghost var t, mid := store.tree, store.labels;
      PivotBelowPath(t, iv, mid, side, common, a, k, pivot, required, path, slacks, j, offset, propagate);
      hide WellFormed, SizesOk, SubtreeOk, Anc, OneBad, Subtree, SlideReady, Slid, Reclaimed, GivenUp, Sum, OnPath,
        ReclaimReady;
      ghost var p, at, a' :=
        LevelReady(t, root, iv, mid, side, common, a, k, pivot, required, path, slacks, j, offset, propagate);
      r := GiveUp(side, allocation, current, offset, propagate, root, p, at, a');
      if r == Ok {
        if j == 0 {
          BelowOnly(iv, mid, Subtree(t, current), current);
          LevelOuter(t, root, iv, mid, store.labels, side, common, a, k, pivot, required);
        } else {
          LevelInner(t, root, iv, mid, store.labels, side, t[common].children[k], pivot, required, path, slacks, j, at,
            offset);
        }
      } else {
        TooShort(side, mid[current], offset, |Subtree(t, current)|);
      }
    }

    /** Moves `required` labels from the chain below `chosen` to its sibling `allocation`. Chain
        blocks give up their free labels, top down until there are enough; if even the reindex
        root is reached it gives up the rest, and the blocks above it keep `slack` free labels. */
    method Reclaim(side: Side, allocation: Hash, common: Hash, chosen: Hash, pivot: Hash, required: int,
                   ghost root: Hash, ghost a: int, ghost k: int)
        returns (r: Status)
      requires WellFormed(store.tree, root) && SizesOk(store.tree, sizes) && store.labels.Keys == store.tree.Keys
      requires ReclaimReady(store.tree, store.labels, side, common, a, k, pivot, required)
      requires allocation == store.tree[common].children[a] && chosen == store.tree[common].children[k]
      modifies this`sizes, store`labels
      ensures SizesOk(store.tree, sizes) && store.labels.Keys == store.tree.Keys
      ensures r == Ok || r == Panic
      ensures r != Ok ==>
        old(store.labels)[pivot].Size() < |Subtree(store.tree, pivot)| + required + slack * store.tree[pivot].height
      ensures r == Ok ==> Reclaimed(store.tree, old(store.labels), store.labels, side, common, a, k, required)
      ensures r == Ok ==>
        pivot in store.labels &&
        store.labels[pivot].Size() >= old(store.labels)[pivot].Size() - required - slack * store.tree[pivot].height
    {
      hide WellFormed, SizesOk, SubtreeOk, Anc, OnPath, LevelStart, Reclaimed, GivenUp, Sum, Budget, OneBad;
      ghost var t, iv := store.tree, store.labels;
      var current, offset, reserve, propagate;
      ghost var path, slacks;
      current, offset, reserve, propagate, path, slacks := FindDonor(side, common, chosen, pivot, required, root, a, k);
      r :=
        RaiseLevel(side, allocation, current, offset, propagate, root, iv, common, a, k, pivot, required, path, slacks,
        |slacks|);
      PathSlacks(t, iv, side, chosen, pivot, required, path, slacks);
      if current == pivot {
        DonorShort(required, slack, reserve, slacks, offset, t[pivot].height);
      } else {
        Product(slack, t[pivot].height);
      }
      if r != Ok {
        return;
      }
      ghost var j, left := |slacks|, store.labels[pivot];
      assert left.Size() >= iv[pivot].Size() - required - slack * t[pivot].height by {
        ShrunkSize(side, iv[pivot], offset);
      }
      PathParent(t, root, iv, side, common, a, k, pivot, required, path, slacks, j);
      while true
        invariant SizesOk(t, sizes) && store.labels.Keys == t.Keys && r == Ok && store.labels[pivot] == left
        invariant 0 <= j < |path| && current == path[j] && current in t
        invariant LevelDone(t, iv, store.labels, side, common, a, k, required, path, slacks, j,
          Budget(required, reserve, slacks, j))
        decreases j
      {
        PathParent(t, root, iv, side, common, a, k, pivot, required, path, slacks, j);
        current := store.tree[current].parent;
        if current == common {
          break;
        }
        NextLevel(t, root, iv, store.labels, side, common, a, k, pivot, required, path, slacks, j, reserve);
        offset := FreeLabels(store, side, current) - reserve;
        j := j - 1;
        AbovePivot(t, iv, side, chosen, pivot, required, path, slacks, j);
        r :=
          RaiseLevel(side, allocation, current, offset, false, root, iv, common, a, k, pivot, required, path, slacks,
          j);
      }
    }

    /** Walks from `chosen` towards the reindex root, adding up free labels, to the first block
        with which they suffice; `offset` is what that block has to give up, and `reserve` what
        the blocks above it keep. */
    method FindDonor(side: Side, common: Hash, chosen: Hash, pivot: Hash, required: int, ghost root: Hash,
                     ghost a: int, ghost k: int)
        returns (current: Hash, offset: int, reserve: nat, propagate: bool, ghost path: seq<Hash>,
          ghost slacks: seq<int>)
      requires WellFormed(store.tree, root) && store.labels.Keys == store.tree.Keys
      requires ReclaimReady(store.tree, store.labels, side, common, a, k, pivot, required)
      requires chosen == store.tree[common].children[k]
      ensures OnPath(store.tree, store.labels, side, chosen, pivot, required, path, slacks) && |path| == |slacks| + 1
      ensures current == path[|slacks|] && offset == Budget(required, reserve, slacks, |slacks|)
      ensures reserve == (if propagate then slack else 0) && (propagate ==> current == pivot)
      ensures pivot in store.tree && |slacks| <= store.tree[pivot].height
      ensures LevelStart(store.tree, store.labels, store.labels, side, common, a, k, pivot, required, path, slacks,
        |slacks|, offset, propagate)
    {
      ghost var t, iv := store.tree, store.labels;
      WalkStarts(t, root, iv, side, common, a, k, pivot, required);
      hide WellFormed, SubtreeOk, Walk, OnPath, LevelStart, Ordered, SearchResult, Free, ReclaimReady, Budget, Sum;
      var slackSum, pathLen := 0, 0;
      current, path, slacks := chosen, [chosen], [];
      while true
        invariant Walk(t, iv, side, chosen, pivot, required, path, slacks, current, slackSum, pathLen) &&
          current in t && pivot in t
        decreases t[pivot].height - t[current].height
      {
        WalkHere(t, root, iv, side, chosen, pivot, required, path, slacks, current, slackSum, pathLen, slack);
        if current == pivot {
          offset, reserve, propagate := required + slack * pathLen - slackSum, slack, true;
          break;
        }
        var free := FreeLabels(store, side, current);
        if slackSum + free >= required {
          offset, reserve, propagate := free - (slackSum + free - required), 0, false;
          break;
        }
        var r, child, i := NextChainAncestorUnchecked(store, pivot, current);
        StepDown(t, root, iv, side, chosen, pivot, required, path, slacks, current, slackSum, pathLen, free, r == Ok,
          i);
        path, slacks := path + [child], slacks + [free];
        current, pathLen, slackSum := child, pathLen + 1, slackSum + free;
      }
      WalkEnds(t, iv, side, chosen, pivot, required, path, slacks, current, slackSum, pathLen);
      FirstLevel(t, root, iv, side, common, a, k, pivot, required, path, slacks, reserve, propagate);
    }

    /** Finds labels for the new leaf `n`: climbs to the first block whose interval covers its
        subtree and redistributes below it, or, once the climb reaches the chain above the
        reindex root, reclaims labels from that chain. */
    method ReindexIntervals(n: Hash, pivot: Hash, ghost root: Hash, ghost t0: Shape, ghost iv0: Labels, ghost p: Hash)
        returns (r: Status)
      requires WellFormed(t0, root) && p in t0 && Pending(t0, iv0, root, n, p, store.labels)
      requires store.tree == WithLeaf(t0, n, p) && PivotOk(t0, root, pivot) && sizes == map[]
      modifies this`sizes, store`labels
      ensures r == Ok || r == DataOverflow || r == Panic
      ensures r == Ok ==> TreeOk(store.tree, store.labels, root) && store.labels[root] == iv0[root]
      ensures iv0[pivot].Size() >= |store.tree| + slack * t0[pivot].height ==> r == Ok
      ensures r == Ok ==> store.labels[pivot].Size() >= iv0[pivot].Size() - |store.tree| - slack * t0[pivot].height
    {
      hide WellFormed, SizesOk, Pending, WithLeaf, TreeOk, Anc, Subtree, SubtreeOk, PivotOk, Climbed;
      ghost var t, iv := store.tree, store.labels;
      IndexStarts(t0, root, iv0, n, p, iv, pivot);
      assert SizesOk(t, sizes) by {
        NoSizes(t);
      }
      var current := n;
      while true
        invariant SizesOk(t, sizes) && store.labels == iv && current in t && Climbed(t, n, pivot, current)
        decreases t[current].height
      {
        CountSubtrees(current, root);
        if store.labels[current].Size() >= sizes[current] {
          break;
        }
        ClimbCapacity(t0, iv0, root, n, p, iv, pivot, current, slack);
        var parent := store.tree[current].parent;
        if parent == NONE {
          return DataOverflow;
        }
        if current == pivot {
          return DataOverflow;
        }
        ClimbUp(t0, iv0, root, n, p, iv, pivot, current);
        if IsStrictChainAncestorOf(store, parent, pivot) {
          r := ReindexEarlierThanRoot(current, pivot, parent, sizes[current], root, t0, iv0, n, p);
          return;
        }
        current := parent;
      }
      ClimbDone(t0, iv0, root, n, p, iv, pivot, current);
      PivotAside(t0, root, iv0, n, p, iv, pivot, current, slack);
      r := PropagateInterval(current, root);
      Restored(t0, iv0, root, n, p, iv, current, store.labels);
    }

    /** Gives `allocation`, a branch off the chain to the reindex root, the labels it needs. */
    method ReindexEarlierThanRoot(allocation: Hash, pivot: Hash, common: Hash, required: int,
                                  ghost root: Hash, ghost t0: Shape, ghost iv0: Labels, ghost n: Hash, ghost p: Hash)
        returns (r: Status)
      requires WellFormed(t0, root) && p in t0 && Pending(t0, iv0, root, n, p, store.labels)
      requires store.tree == WithLeaf(t0, n, p) && WellFormed(store.tree, root) && SizesOk(store.tree, sizes) &&
        PivotOk(t0, root, pivot)
      requires common in t0 && Anc(store.tree, common, pivot) && common != pivot
      requires allocation in store.tree && store.tree[allocation].parent == common && Anc(store.tree, allocation, n) &&
        !Anc(store.tree, allocation, pivot)
      requires required == |Subtree(store.tree, allocation)|
      modifies this`sizes, store`labels
      ensures r == Ok || r == Panic
      ensures r == Ok ==> TreeOk(store.tree, store.labels, root) && store.labels[root] == iv0[root]
      ensures pivot in iv0 && pivot in t0
      ensures iv0[pivot].Size() >= |store.tree| + slack * t0[pivot].height ==> r == Ok
      ensures r == Ok ==>
        pivot in store.labels &&
        store.labels[pivot].Size() >= iv0[pivot].Size() - |store.tree| - slack * t0[pivot].height
    {
      hide WellFormed, SizesOk, Pending, TreeOk, Anc, Subtree, SubtreeOk, PivotOk, OneBad, Ordered, LooseRow,
        SearchResult, ReclaimReady, WithLeaf, RowSlid;
      ghost var t, iv := store.tree, store.labels;
      BranchFacts(t0, iv0, root, n, p, iv, common, pivot);
      ghost var a := ChildIndex(t, root, allocation, common);
      PendingBranch(t0, iv0, root, n, p, iv, common, a);
      OtherSubtrees(t, iv, common, a, pivot);
      BranchApart(t, root, common, allocation, pivot);
      var s, chosen, k := NextChainAncestorUnchecked(store, pivot, common);
      NextOnChain(t, iv, root, common, pivot, s == Ok, k);
      BranchReady(t0, iv0, root, n, p, iv, common, a, k, pivot, required);
      var side := if store.labels[allocation].start < store.labels[chosen].start then Low else High;
      r := Reclaim(side, allocation, common, chosen, pivot, required, root, a, k);
      SubtreeSmall(t, allocation);
      if r == Ok {
        BranchHoldsLeaf(t0, root, n, p, common, allocation);
        Restored(t0, iv0, root, n, p, iv, common, store.labels);
      }
    }

    /** Packs the siblings from `lo` up to `hi` tightly into `interval`, one label a block; reports
        how many labels that takes. */
    method Tighten(p: Hash, lo: nat, hi: nat, side: Side, ghost root: Hash)
        returns (r: Status, sum: int, ghost parts: seq<Interval>)
      requires WellFormed(store.tree, root) && SizesOk(store.tree, sizes) && store.labels.Keys == store.tree.Keys
      requires p in store.tree && lo <= hi <= |store.tree[p].children| && store.labels[p].Valid()
      modifies this`sizes, store`labels
      ensures SizesOk(store.tree, sizes) && store.labels.Keys == store.tree.Keys
      ensures sum == Sum(Counts(store.tree, store.tree[p].children[lo..hi])) >= 0 && (lo == hi ==> sum == 0)
      ensures r == if PackRoom(side, old(store.labels)[p], slack, sum).Valid() then Ok else Panic
      ensures r == Ok ==> |parts| == hi - lo && Tiles(parts, PackRoom(side, old(store.labels)[p], slack, sum))
      ensures r == Ok ==> Packed(store.tree, old(store.labels), store.labels, store.tree[p].children, lo, hi, parts)
    {
      hide WellFormed, SizesOk, Anc, Subtree, SubtreeOk, Packed, Sum, Tiles;
      var t, cs := store.tree, store.tree[p].children;
      ghost var iv := store.labels;
      var counts := [];
      RunInTree(t, root, p);
      for i := lo to hi
        invariant SizesOk(t, sizes) && |counts| == i - lo && store.labels == iv
        invariant forall j :: lo <= j < i ==> counts[j - lo] == |Subtree(t, cs[j])|
      {
        CountSubtrees(cs[i], root);
        counts := counts + [sizes[cs[i]]];
      }
      RunCounts(t, cs, lo, hi, counts);
      sum := Sum(counts);
      var interval := PackRoom(side, store.labels[p], slack, sum);
      if !interval.Valid() {
        return Panic, sum, [];
      }
      var intervals := SplitExact(interval, counts);
      parts := intervals;
      PackStarts(t, iv, cs, lo, parts);
      for i := lo to hi
        invariant SizesOk(t, sizes) && store.labels.Keys == t.Keys
        invariant Packed(t, iv, store.labels, cs, lo, i, parts)
      {
        ghost var mid := store.labels;
        PartValid(interval, parts, i - lo, counts);
        var s := SetAndPropagate(cs[i], intervals[i - lo], root);
        PackOne(t, root, iv, mid, store.labels, p, lo, i, parts);
      }
      r := Ok;
    }

    /** Moves the labels of `p` to its child on the way to the new reindex root: all other children
        are packed at the ends, `slack` labels in, and `child` gets everything between them. If
        `child` is the new root and its labels no longer fit, they are handed out afresh with
        `slack` labels to spare on both sides. */
    method ConcentrateInterval(p: Hash, child: Hash, isFinal: bool, ghost root: Hash) returns (r: Status)
      requires WellFormed(store.tree, root) && SizesOk(store.tree, sizes) && store.labels.Keys == store.tree.Keys
      requires p in store.tree && child in store.tree && child in store.tree[p].children &&
        |store.tree[child].children| > 0
      requires store.labels[p].Valid() && Stale(store.tree, store.labels, p)
      modifies this`sizes, store`labels
      ensures SizesOk(store.tree, sizes) && store.labels.Keys == store.tree.Keys && (r == Ok || r == Panic)
      ensures r == Ok ==> Concentrated(store.tree, old(store.labels), store.labels, p, child, slack, isFinal)
      ensures old(store.labels)[p].Size() >= Needs(store.tree, p, child, slack, isFinal) ==> r == Ok
    {
      hide WellFormed, SizesOk, Anc, Subtree, SubtreeOk, Stale, Packed, Sum, Tiles, Concentrated;
      ghost var t, iv := store.tree, store.labels;
      var cs := store.tree[p].children;
      var k := Position(cs, child);
      var sumLow, sumHigh;
      ghost var low, high;
      SumsAroundChild(t, root, p, k);
      r, sumLow, low := Tighten(p, 0, k, Low, root);
      if r != Ok {
        return;
      }
      ghost var mid := store.labels;
      ParentOutside(t, root, iv, mid, p, 0, k, low);
      r, sumHigh, high := Tighten(p, k + 1, |cs|, High, root);
      if r != Ok {
        return;
      }
      ghost var packed := store.labels;
      PackedAround(t, root, iv, mid, packed, p, k, low, high);
      r := ExpandToChosen(p, child, sumLow, sumHigh, isFinal, root);
      if r == Ok {
        ConcentrateDone(t, root, iv, packed, store.labels, p, k, low, high, slack, sumLow, sumHigh, isFinal);
      }
    }

    method ExpandToChosen(p: Hash, child: Hash, sumLow: int, sumHigh: int, isFinal: bool, ghost root: Hash)
        returns (r: Status)
      requires WellFormed(store.tree, root) && SizesOk(store.tree, sizes) && store.labels.Keys == store.tree.Keys
      requires p in store.tree && child in store.tree && p != child && |store.tree[child].children| > 0
      requires SubtreeOk(store.tree, store.labels, child)
      modifies this`sizes, store`labels
      ensures SizesOk(store.tree, sizes) && store.labels.Keys == store.tree.Keys && (r == Ok || r == Panic)
      ensures r == Ok ==>
        Expanded(store.tree, old(store.labels), store.labels, child,
        Allocation(old(store.labels)[p], slack, sumLow, sumHigh), isFinal)
      ensures var allocation := Allocation(old(store.labels)[p], slack, sumLow, sumHigh);
        allocation.Valid() && (isFinal ==> allocation.Size() >= 2 * slack + |Subtree(store.tree, child)|) ==> r == Ok
    {
      hide WellFormed, SizesOk, Anc, SubtreeOk, Expanded;
      ghost var t, iv := store.tree, store.labels;
      var allocation := Allocation(store.labels[p], slack, sumLow, sumHigh);
      if !allocation.Valid() {
        return Panic;
      }
      if isFinal && !allocation.Contains(store.labels[child]) {
        r := SetAndPropagate(child, Interval(allocation.start + slack, allocation.end - slack), root);
        if r != Ok {
          return;
        }
      }
      ghost var mid := store.labels;
      store.SetInterval(child, allocation);
      ExpandDone(t, root, iv, mid, store.labels, child, allocation, isFinal);
      r := Ok;
    }
  }

  /** The counted block `start` reports to its parent, and so on upwards as long as the one who
      reports is the last of its siblings. */
  method ReportUp(t: Shape, block: Hash, cache: map<Hash, int>, counts: map<Hash, int>, start: Hash, ghost root: Hash,
                  ghost waiting: set<Hash>, ghost popped: set<Hash>, ghost expanded: set<Hash>, ghost pushed: set<Hash>)
      returns (cache': map<Hash, int>, counts': map<Hash, int>, ghost pushed': set<Hash>)
    requires WellFormed(t, root) && block in t && start in t
    requires Explored(t, block, waiting, popped, expanded)
    requires Counted(t, block, cache, counts, popped, expanded, pushed, if start == block then {} else {start})
    ensures cache.Keys <= cache'.Keys
    ensures Counted(t, block, cache', counts', popped, expanded, pushed', {})
  {
    hide *;
    var current := start;
    cache', counts', pushed' := cache, counts, pushed;
    while current != block
      invariant cache.Keys <= cache'.Keys && current in t
      invariant Counted(t, block, cache', counts', popped, expanded, pushed', if current == block then {}
        else {current})
      decreases t[current].height
    {
      ghost var child := current;
      Push(t, root, block, cache', counts', waiting, popped, expanded, pushed', child);
      current := t[current].parent;
      var count := CountOf(counts', current) + 1;
      var siblings := t[current].children;
      if count < |siblings| {
        PushSome(t, root, block, cache', counts', waiting, popped, expanded, pushed', child);
        counts', pushed' := counts'[current := count], pushed' + {child};
        return;
      }
      PushLast(t, root, block, cache', counts', waiting, popped, expanded, pushed', child);
      CountedSizes(t, block, cache', counts', popped, expanded, pushed', {child});
      SizeFromChildren(t, root, cache', current);
      counts', pushed' := counts'[current := count], pushed' + {child};
      cache' := cache'[current := Sum(SubtreeSizes(cache', siblings)) + 1];
    }
  }

  /** Where `c` stands in the list. */
  method Position(cs: seq<Hash>, c: Hash) returns (i: nat)
    requires c in cs
    ensures i < |cs| && cs[i] == c && forall j :: 0 <= j < i ==> cs[j] != c
  {
    i := 0;
    while cs[i] != c
      invariant i < |cs| && c in cs[i..] && forall j :: 0 <= j < i ==> cs[j] != c
      decreases |cs| - i
    {
      i := i + 1;
    }
  }

  lemma {:induction false} OnePosition(t: Shape, root: Hash, p: Hash, i: int, j: int)
    requires WellFormed(t, root) && p in t && 0 <= i < |t[p].children| && 0 <= j < |t[p].children|
    requires t[p].children[i] == t[p].children[j]
    ensures i == j
  {
  }

  lemma {:induction false} LocatedAt(t: Shape, root: Hash, p: Hash, side: Side, allocation: Hash, a: int, k: int,
                                     i: int)
    requires WellFormed(t, root) && p in t && Locates(t[p].children, side, allocation, a, k)
    requires 0 <= i < |t[p].children| && (side.Between(a, i, k) || i == a)
    ensures t[p].children[i] == allocation <==> i == a
  {
  }

  lemma {:induction false} LocatesRange(cs: seq<Hash>, side: Side, allocation: Hash, a: int, k: int)
    requires Locates(cs, side, allocation, a, k) && 0 <= k < |cs|
    ensures if side.Low? then -1 <= a < k else k < a <= |cs|
  {
  }

  lemma {:induction false} ReadyFacts(t: Shape, iv: Labels, side: Side, allocation: Hash, p: Hash, a: int, k: int,
                                      offset: int)
    requires p in t && iv.Keys == t.Keys && SlideReady(t, iv, side, allocation, p, a, k, offset)
    ensures forall j :: 0 <= j < |t[p].children| ==> t[p].children[j] in t
    ensures Locates(t[p].children, side, allocation, a, k) && 0 <= offset
  {
  }

  lemma {:induction false} BelowOnly(iv: Labels, mid: Labels, s: set<Hash>, x: Hash)
    requires SameExcept(iv, mid, s - {x})
    ensures SameExcept(iv, mid, s)
  {
  }

  /** Free labels of `x` at one end, as the size of the interval that is left there. */
  function FreeLabels(store: ReachabilityStore, side: Side, x: Hash): (n: int)
    requires x in store.tree && x in store.labels && forall c :: c in store.tree[x].children ==> c in store.labels
    reads store
    ensures n == Free(store.tree, store.labels, side, x)
  {
    if side.Low? then RemainingBefore(store, x).Size() else RemainingAfter(store, x).Size()
  }

  lemma {:induction false} TooShort(side: Side, interval: Interval, offset: int, count: int)
    requires interval.Valid() && 0 < offset && 0 <= count
    requires !(side.Shrunk(interval, offset).Valid() && count <= side.Shrunk(interval, offset).Size())
    ensures interval.Size() < count + offset
  {
  }

  lemma {:induction false} OtherSubtrees(t: Shape, iv: Labels, common: Hash, a: int, pivot: Hash)
    requires common in t && common in iv && OneBad(t, iv, common, a) && !Anc(t, t[common].children[a], pivot)
    ensures forall j :: 0 <= j < |t[common].children| ==>
      Anc(t, t[common].children[j], pivot) ==> SubtreeOk(t, iv, t[common].children[j])
  {
  }

  lemma {:induction false} IndexStarts(t: Shape, root: Hash, iv: Labels, n: Hash, p: Hash, mid: Labels, pivot: Hash)
    requires WellFormed(t, root) && p in t && Pending(t, iv, root, n, p, mid) && PivotOk(t, root, pivot)
    ensures var t' := WithLeaf(t, n, p);
      WellFormed(t', root) && mid.Keys == t'.Keys && Climbed(t', n, pivot, n) && n in t' && pivot in t && pivot in iv
  {
    LeafWellFormed(t, root, n, p);
    PendingKeys(t, iv, root, n, p, mid);
    ClimbStarts(t, root, n, p, pivot);
  }

  lemma {:induction false} NoSizes(t: Shape)
    ensures SizesOk(t, map[])
  {
  }

  lemma {:induction false} BranchFacts(t: Shape, iv: Labels, root: Hash, n: Hash, p: Hash, mid: Labels, common: Hash,
                                       pivot: Hash)
    requires p in t && Pending(t, iv, root, n, p, mid) && PivotOk(t, root, pivot) && common in t
    ensures pivot in t && pivot in iv && pivot in mid && mid[pivot] == iv[pivot] && n !in t && n != NONE
    ensures var t' := WithLeaf(t, n, p);
      mid.Keys == t'.Keys && pivot in t' && t'[pivot].height == t[pivot].height && common in t' && common in mid
  {
  }

  lemma {:induction false} BranchHoldsLeaf(t: Shape, root: Hash, n: Hash, p: Hash, common: Hash, branch: Hash)
    requires WellFormed(t, root) && p in t && n !in t && n != NONE && common in t
    requires var t' := WithLeaf(t, n, p);
      WellFormed(t', root) && branch in t' && t'[branch].parent == common && Anc(t', branch, n)
    ensures Anc(WithLeaf(t, n, p), common, p)
  {
    var t' := WithLeaf(t, n, p);
    assert branch != root;
    assert HangsOn(t', branch, common);
    assert Anc(t', common, branch);
    AncTrans(t', common, branch, n);
    AncOfLeaf(t, root, n, p, common);
    AncWithLeaf(t, root, n, p, common, p);
  }

  lemma {:induction false} RunInTree(t: Shape, root: Hash, p: Hash)
    requires WellFormed(t, root) && p in t
    ensures forall j :: 0 <= j < |t[p].children| ==> t[p].children[j] in t
  {
    forall j | 0 <= j < |t[p].children|
      ensures t[p].children[j] in t
    {
      ChildAnc(t, root, p, j);
    }
  }

  lemma {:induction false} RunCounts(t: Shape, cs: seq<Hash>, lo: nat, hi: nat, counts: seq<int>)
    requires lo <= hi <= |cs| && |counts| == hi - lo
    requires forall j :: lo <= j < hi ==> counts[j - lo] == |Subtree(t, cs[j])|
    ensures counts == Counts(t, cs[lo..hi]) && Sum(counts) >= 0 && (lo == hi ==> Sum(counts) == 0)
    ensures forall i :: 0 <= i < |counts| ==> counts[i] >= 0
  {
    forall i | 0 <= i < |counts|
      ensures counts[i] == Counts(t, cs[lo..hi])[i] && counts[i] >= 0
    {
      assert counts[lo + i - lo] == |Subtree(t, cs[lo + i])|;
    }
    SumNonNegative(counts);
  }

  lemma {:induction false} PartValid(whole: Interval, parts: seq<Interval>, i: nat, counts: seq<int>)
    requires whole.Valid() && Tiles(parts, whole) && i < |parts| && |counts| == |parts|
    requires forall j :: 0 <= j < |parts| ==> parts[j].Size() == counts[j] >= 0
    ensures parts[i].Valid()
  {
    PartsForward(parts, 0, i);
    PartsForward(parts, i, |parts| - 1);
  }

  lemma {:induction false} PartsForward(parts: seq<Interval>, i: nat, j: nat)
    requires i <= j < |parts| && (forall k :: 0 <= k < |parts| ==> parts[k].Size() >= 0)
    requires forall k, l :: 0 <= k && l == k + 1 && l < |parts| ==> parts[k].end + 1 == parts[l].start
    ensures parts[i].start <= parts[j].start && parts[i].end <= parts[j].end
    decreases j
  {
    if i < j {
      PartsForward(parts, i, j - 1);
      assert parts[j - 1].end + 1 == parts[j].start;
      assert parts[j].Size() >= 0 && parts[j - 1].Size() >= 0;
    }
  }

  /** Where the siblings on one side of the chosen child are packed, `slack` labels away from the
      end of their parent's interval. */
  function PackRoom(side: Side, box: Interval, slack: nat, sum: int): Interval {
    if side.Low? then Interval(box.start + slack, box.start + slack + sum - 1)
    else Interval(box.end - slack - sum, box.end - slack - 1)
  }

  /** What is left for the chosen child between its packed siblings. */
  function Allocation(box: Interval, slack: nat, sumLow: int, sumHigh: int): Interval {
    Interval(box.start + sumLow + slack, box.end - sumHigh - slack - 1)
  }

  /** `child` got the interval `allocation`; if that is final, everything below it is in order. */
  ghost predicate Expanded(t: Shape, iv: Labels, iv': Labels, child: Hash, allocation: Interval, isFinal: bool)
    requires child in t
  {
    && SameExcept(iv, iv', Subtree(t, child)) && child in iv' && iv'[child] == allocation && allocation.Valid()
    && (if isFinal then SubtreeOk(t, iv', child) else Stale(t, iv', child))
  }

  lemma {:induction false} OneMore(iv: Labels, mid: Labels, iv': Labels, s: set<Hash>, x: Hash, to: Interval)
    requires SameExcept(iv, mid, s) && x in s && x in mid && iv' == mid[x := to]
    ensures SameExcept(iv, iv', s)
  {
  }

  lemma {:induction false} ExpandDone(t: Shape, root: Hash, iv: Labels, mid: Labels, iv': Labels, child: Hash,
                                      allocation: Interval, isFinal: bool)
    requires WellFormed(t, root) && child in t && iv.Keys == t.Keys && SubtreeOk(t, iv, child) && allocation.Valid()
    requires SameExcept(iv, mid, Subtree(t, child)) && iv' == mid[child := allocation]
    requires if isFinal then SubtreeOk(t, mid, child) && allocation.Contains(mid[child]) else mid == iv
    ensures Expanded(t, iv, iv', child, allocation, isFinal)
  {
    hide WellFormed, Anc, SubtreeOk, Stale;
    SelfBelow(t, child);
    if isFinal {
      Widened(t, mid, iv', root, child);
    } else {
      StaleFromOk(t, iv, root, child);
      StaleKept(t, iv, iv', root, child);
    }
    OneMore(iv, mid, iv', Subtree(t, child), child, allocation);
  }

  /** What is left for the chosen child between its packed siblings: all that `p` has, but for the
      blocks outside `child`'s subtree and the slack. */
  ghost predicate Concentrated(t: Shape, iv: Labels, iv': Labels, p: Hash, child: Hash, slack: nat, isFinal: bool)
    requires p in t && p in iv && child in t
  {
    && SameExcept(iv, iv', Subtree(t, p) - {p})
    && (exists k: nat :: k < |t[p].children| && t[p].children[k] == child && p in iv' && Given(t, iv', p, k))
    && child in iv' && iv'[child].Valid()
    && iv'[child].Size() == iv[p].Size() - (|Subtree(t, p)| - |Subtree(t, child)|) - 2 * slack
    && (if isFinal then SubtreeOk(t, iv', child) else Stale(t, iv', child))
  }

  /** Labels a chain block must have for its part in moving the reindex root. */
  ghost function Needs(t: Shape, p: Hash, child: Hash, slack: nat, isFinal: bool): int {
    |Subtree(t, p)| - |Subtree(t, child)| + 2 * slack + if isFinal then 2 * slack + |Subtree(t, child)| else 0
  }

  lemma {:induction false} SumsAroundChild(t: Shape, root: Hash, p: Hash, k: nat)
    requires WellFormed(t, root) && p in t && k < |t[p].children|
    ensures var cs := t[p].children;
      && Sum(Counts(t, cs[0..k])) + Sum(Counts(t, cs[k + 1..|cs|])) + 1 == |Subtree(t, p)| - |Subtree(t, cs[k])|
      && cs[k] in t && p != cs[k] && t[cs[k]].parent == p
      && Sum(Counts(t, cs[0..k])) >= 0 && Sum(Counts(t, cs[k + 1..|cs|])) >= 0
  {
    ChildAnc(t, root, p, k);
    SubtreeSize(t, root, p);
    CountsAround(t, t[p].children, k);
  }

  lemma {:induction false} CountsAround(t: Shape, cs: seq<Hash>, k: nat)
    requires k < |cs|
    ensures Sum(Counts(t, cs[0..k])) + |Subtree(t, cs[k])| + Sum(Counts(t, cs[k + 1..|cs|])) == Sum(Counts(t, cs))
    ensures Sum(Counts(t, cs[0..k])) >= 0 && Sum(Counts(t, cs[k + 1..|cs|])) >= 0
  {
    hide Subtree, Sum;
    var a, b := Counts(t, cs[0..k]), Counts(t, cs[k + 1..|cs|]);
    var c := |Subtree(t, cs[k])|;
    SumNonNegative(a);
    SumNonNegative(b);
    assert Counts(t, cs) == (a + [c]) + b;
    SumConcat(a + [c], b);
    SumSnoc(a, c);
  }

  lemma {:induction false} ParentOutside(t: Shape, root: Hash, iv: Labels, mid: Labels, p: Hash, lo: nat, hi: nat,
                                         parts: seq<Interval>)
    requires WellFormed(t, root) && p in t && iv.Keys == t.Keys && Packed(t, iv, mid, t[p].children, lo, hi, parts)
    ensures mid[p] == iv[p]
  {
    RunBelow(t, root, p, lo, hi);
  }

  /** All siblings of the child at `k` are packed; the child itself is as it was. */
  ghost predicate PackedBoth(t: Shape, iv: Labels, packed: Labels, p: Hash, k: nat, low: seq<Interval>,
                             high: seq<Interval>)
    requires p in t && k < |t[p].children| && iv.Keys == t.Keys
  {
    var cs := t[p].children;
    && SameExcept(iv, packed, Subtree(t, p) - {p}) && packed[p] == iv[p]
    && (forall j :: 0 <= j < |cs| ==> cs[j] in t && SubtreeOk(t, packed, cs[j]))
    && packed[cs[k]] == iv[cs[k]] && |low| == k && |high| == |cs| - k - 1
    && (forall j :: 0 <= j < k ==> packed[cs[j]] == low[j])
    && (forall j :: k < j < |cs| ==> packed[cs[j]] == high[j - k - 1])
  }

  lemma {:induction false} PackedAround(t: Shape, root: Hash, iv: Labels, mid: Labels, packed: Labels, p: Hash, k: nat,
                                        low: seq<Interval>, high: seq<Interval>)
    requires WellFormed(t, root) && p in t && k < |t[p].children| && iv.Keys == t.Keys && Stale(t, iv, p)
    requires var cs := t[p].children;
      Packed(t, iv, mid, cs, 0, k, low) && Packed(t, mid, packed, cs, k + 1, |cs|, high) && |low| == k &&
        |high| == |cs| - k - 1
    ensures PackedBoth(t, iv, packed, p, k, low, high)
  {
    hide WellFormed, Anc, SubtreeOk, Run, Subtree, Row;
    var cs := t[p].children;
    forall j | 0 <= j < |cs|
      ensures cs[j] in t && SubtreeOk(t, packed, cs[j])
      ensures j < k ==> packed[cs[j]] == low[j]
      ensures j > k ==> packed[cs[j]] == high[j - k - 1]
      ensures j == k ==> packed[cs[j]] == iv[cs[j]]
    {
      ChildAnc(t, root, p, j);
      if j <= k {
        OutsideRun(t, root, mid, packed, p, k + 1, |cs|, j);
      }
      if j >= k {
        OutsideRun(t, root, iv, mid, p, 0, k, j);
      }
    }
    RunBelow(t, root, p, 0, k);
    RunBelow(t, root, p, k + 1, |cs|);
    ChangesAdd(iv, mid, packed, Run(t, cs, 0, k), Run(t, cs, k + 1, |cs|), Subtree(t, p) - {p});
  }

  lemma {:induction false} ConcentrateDone(t: Shape, root: Hash, iv: Labels, packed: Labels, iv': Labels, p: Hash,
                                           k: nat, low: seq<Interval>, high: seq<Interval>,
                                           slack: nat, sumLow: int, sumHigh: int, isFinal: bool)
    requires WellFormed(t, root) && p in t && k < |t[p].children| && iv.Keys == t.Keys == iv'.Keys
    requires PackedBoth(t, iv, packed, p, k, low, high) && p in iv
    requires Tiles(low, PackRoom(Low, iv[p], slack, sumLow)) && Tiles(high, PackRoom(High, iv[p], slack, sumHigh))
    requires (k == 0 ==> sumLow == 0) && (k == |t[p].children| - 1 ==> sumHigh == 0)
    requires sumLow + sumHigh + 1 == |Subtree(t, p)| - |Subtree(t, t[p].children[k])|
    requires t[p].children[k] in t &&
      Expanded(t, packed, iv', t[p].children[k], Allocation(iv[p], slack, sumLow, sumHigh), isFinal)
    ensures Concentrated(t, iv, iv', p, t[p].children[k], slack, isFinal)
  {
    hide WellFormed, Anc, SubtreeOk, Subtree, Tiles, Stale, Adjacent;
    var cs := t[p].children;
    var child := cs[k];
    ChildAnc(t, root, p, k);
    forall j | 0 <= j < |cs| && j != k
      ensures iv'[cs[j]] == packed[cs[j]] && SubtreeOk(t, iv', cs[j])
    {
      SiblingKept(t, root, packed, iv', p, k, j);
    }
    SubtreeUnder(t, p, child);
    assert iv'[p] == iv[p];
    RowOfThree(t, iv', cs, iv[p], k, low, high, slack, sumLow, sumHigh);
    ChangesAdd(iv, packed, iv', Subtree(t, p) - {p}, Subtree(t, child), Subtree(t, p) - {p});
    assert Given(t, iv', p, k);
  }

  /** What the reindex root is asked for, at most. */
  lemma {:induction false} DonorShort(required: int, slack: nat, reserve: nat, slacks: seq<int>, offset: int,
                                      height: nat)
    requires offset == Budget(required, reserve, slacks, |slacks|) && Sum(slacks) >= 0 && |slacks| <= height &&
      reserve <= slack
    ensures offset <= required + slack * height
  {
    BudgetFull(required, reserve, slacks);
    Product(slack, height - |slacks|);
    Product(slack - reserve, |slacks|);
  }

  lemma {:induction false} ShrunkSize(side: Side, interval: Interval, offset: int)
    ensures offset >= 0 ==> side.Shrunk(interval, offset).Size() >= interval.Size() - offset
  {
  }

  /** No label below `x` changed. */
  ghost predicate KeptBelow(t: Shape, iv: Labels, iv': Labels, x: Hash) {
    forall y {:trigger Anc(t, x, y)} :: Anc(t, x, y) && y != x ==> y in iv && y in iv' && iv'[y] == iv[y]
  }

  lemma {:induction false} SlidChild(t: Shape, iv: Labels, iv': Labels, side: Side, p: Hash, a: int, k: int,
                                     offset: int)
    requires p in t && 0 <= k < |t[p].children| && Slid(t, iv, iv', side, p, a, k, offset)
    ensures var c := t[p].children[k]; c in iv && c in iv' && iv'[c] == side.Shrunk(iv[c], offset)
  {
  }

  /** Sliding the siblings of a chain block leaves alone what hangs below it. */
  lemma {:induction false} SlideAround(t: Shape, root: Hash, iv: Labels, mid: Labels, iv': Labels, side: Side, p: Hash,
                                       a: int, k: int, offset: int,
                                       interval: Interval)
    requires WellFormed(t, root) && p in t && 0 <= k < |t[p].children| && iv.Keys == t.Keys == mid.Keys &&
      iv'.Keys == t.Keys
    requires forall j :: 0 <= j < |t[p].children| ==> t[p].children[j] in t
    requires SlidTo(t, mid, iv', t[p].children, side, a, side.Next(a), k, offset)
    requires mid == iv[t[p].children[k] := interval]
    ensures KeptBelow(t, iv, iv', t[p].children[k])
  {
    var cs := t[p].children;
    var c := cs[k];
    forall y | Anc(t, c, y) && y != c
      ensures y in iv && y in iv' && iv'[y] == iv[y]
    {
      AncHeight(t, c, y);
      if y in Touched(t, cs, side, side.Prev(side.Next(a)), k) {
        var j :| 0 <= j < |cs| && side.Between(side.Next(side.Prev(side.Next(a))), j, k) && Anc(t, cs[j], y);
        SiblingsApart(t, root, p, j, k, y);
      }
      assert mid[y] == iv[y];
    }
  }

  /** The reindex root hangs below every block of the path. */
  lemma {:induction false} PivotBelowPath(t: Shape, iv: Labels, mid: Labels, side: Side, common: Hash, a: int, k: int,
                                          pivot: Hash, required: int,
                                          path: seq<Hash>, slacks: seq<int>, j: int, offset: int, propagate: bool)
    requires iv.Keys == t.Keys == mid.Keys &&
      LevelStart(t, iv, mid, side, common, a, k, pivot, required, path, slacks, j, offset, propagate)
    ensures pivot in t && Anc(t, path[j], pivot)
  {
  }

  lemma {:induction false} AbovePivot(t: Shape, iv: Labels, side: Side, chosen: Hash, pivot: Hash, required: int,
                                      path: seq<Hash>, slacks: seq<int>, j: nat)
    requires iv.Keys == t.Keys && OnPath(t, iv, side, chosen, pivot, required, path, slacks) && j < |slacks|
    ensures path[j] != pivot
  {
  }

  /** A redistribution after the climb does not reach the label of the reindex root. */
  lemma {:induction false} PivotAside(t0: Shape, root: Hash, iv0: Labels, n: Hash, p: Hash, iv: Labels, pivot: Hash,
                                      current: Hash, slack: nat)
    requires WellFormed(t0, root) && p in t0 && Pending(t0, iv0, root, n, p, iv) && PivotOk(t0, root, pivot)
    requires Climbed(WithLeaf(t0, n, p), n, pivot, current)
    ensures pivot in iv && iv[pivot] == iv0[pivot] && pivot !in Subtree(WithLeaf(t0, n, p), current) - {current}
    ensures iv[pivot].Size() >= iv0[pivot].Size() - |WithLeaf(t0, n, p)| - slack * t0[pivot].height
  {
    Product(slack, t0[pivot].height);
  }

  lemma {:induction false} WalkEnds(t: Shape, iv: Labels, side: Side, chosen: Hash, pivot: Hash, required: int,
                                    path: seq<Hash>, slacks: seq<int>,
                 current: Hash, slackSum: int, pathLen: int)
    requires iv.Keys == t.Keys && Walk(t, iv, side, chosen, pivot, required, path, slacks, current, slackSum, pathLen)
    ensures OnPath(t, iv, side, chosen, pivot, required, path, slacks) && |path| == |slacks| + 1 &&
      current == path[|slacks|]
    ensures pivot in t && |slacks| <= t[pivot].height
  {
  }

  lemma {:induction false} FitsHere(t: Shape, iv: Labels, mid: Labels, c: Hash, side: Side, grows: bool, offset: int)
    requires Fits(t, iv, c, side, grows, offset) && c in mid && mid[c] == iv[c]
    ensures Target(side, mid[c], grows, offset).Valid()
    ensures |Subtree(t, c)| <= Target(side, mid[c], grows, offset).Size()
  {
  }

  lemma {:induction false} SlidAll(t: Shape, iv: Labels, iv': Labels, cs: seq<Hash>, side: Side, a: int, k: int,
                                   offset: int)
    requires (forall j :: 0 <= j < |cs| ==> cs[j] in t && cs[j] in iv && cs[j] in iv') && 0 <= k < |cs|
    requires a == side.Past(|cs|) && SlidTo(t, iv, iv', cs, side, a, a, k, offset)
    ensures SlidTo(t, iv, iv', cs, side, a, side.Next(a), k, offset)
  {
    assert Touched(t, cs, side, side.Prev(a), k) == Touched(t, cs, side, side.Prev(side.Next(a)), k);
  }

  lemma {:induction false} SelfBelow(t: Shape, h: Hash)
    requires h in t
    ensures h in Subtree(t, h)
  {
  }

  lemma {:induction false} LeafSize(t: Shape, root: Hash, h: Hash)
    requires WellFormed(t, root) && h in t
    ensures |t[h].children| == 0 ==> |Subtree(t, h)| == 1
  {
    SubtreeSize(t, root, h);
  }

  lemma {:induction false} ServingStarts(t: Shape, iv: Labels, block: Hash)
    requires block in t && block in iv
    ensures IsQueue([block], {block}) && Explored(t, block, {block}, {}, {}) && Anc(t, block, block)
    ensures iv[block].Valid() && |Subtree(t, block)| <= iv[block].Size() ==> HandedOut(t, iv, {block}, {})
    ensures forall c :: SameExcept(iv, iv, c)
  {
  }

  lemma {:induction false} WaitingRoomy(t: Shape, iv: Labels, waiting: set<Hash>, done: set<Hash>, x: Hash)
    requires HandedOut(t, iv, waiting, done) && x in waiting
    ensures x in iv && iv[x].Valid() && |Subtree(t, x)| <= iv[x].Size()
  {
    assert Roomy(t, iv, x);
  }

  lemma {:induction false} RowChange(t: Shape, iv: Labels, iv': Labels, x: Hash)
    requires x in t && x in iv && RowGiven(t, iv, iv', x)
    ensures SameExcept(iv, iv', Elems(t[x].children)) && iv'[x] == iv[x]
    ensures |t[x].children| == 0 ==> iv' == iv
  {
  }

  lemma {:induction false} SameExceptWider(a: Labels, b: Labels, c: Labels, changed: set<Hash>, more: set<Hash>)
    requires SameExcept(a, b, changed) && SameExcept(b, c, more) && more <= changed
    ensures SameExcept(a, c, changed)
  {
  }

  lemma {:induction false} Served(t: Shape, root: Hash, block: Hash, iv: Labels, done: set<Hash>)
    requires WellFormed(t, root) && block in t && Explored(t, block, {}, done, done) && HandedOut(t, iv, {}, done)
    ensures SubtreeOk(t, iv, block)
  {
    forall h | h in t && Anc(t, block, h)
      ensures NodeOk(t, iv, h)
    {
      AllServed(t, root, block, done, h);
    }
  }

  lemma {:induction false} CountingStarts(t: Shape, block: Hash, sizes: map<Hash, int>)
    requires block in t && SizesOk(t, sizes)
    ensures IsQueue([block], {block}) && Explored(t, block, {block}, {}, {})
    ensures Counted(t, block, sizes, map[], {}, {}, {}, {})
  {
  }

  lemma {:induction false} QueueEmpty(queue: seq<Hash>, waiting: set<Hash>)
    requires IsQueue(queue, waiting) && |queue| == 0
    ensures waiting == {}
  {
  }

  lemma {:induction false} TopPopped(t: Shape, block: Hash, popped: set<Hash>, expanded: set<Hash>)
    requires Explored(t, block, {}, popped, expanded)
    ensures block in popped
  {
  }

  lemma {:induction false} SizeKnown(t: Shape, sizes: map<Hash, int>, h: Hash)
    requires SizesOk(t, sizes) && h in sizes
    ensures h in t && sizes[h] == |Subtree(t, h)|
    ensures forall c :: c in t[h].children ==> c in sizes
  {
    assert SizeOk(t, sizes, h);
  }

  lemma {:induction false} ExploredInTree(t: Shape, block: Hash, waiting: set<Hash>, popped: set<Hash>,
                                          expanded: set<Hash>, x: Hash)
    requires Explored(t, block, waiting, popped, expanded) && x in waiting
    ensures x in t && Anc(t, block, x) && x in Subtree(t, block) - popped
    ensures expanded <= popped <= Subtree(t, block)
  {
  }

  lemma {:induction false} CountedSizes(t: Shape, block: Hash, sizes: map<Hash, int>, counts: map<Hash, int>,
                     popped: set<Hash>, expanded: set<Hash>, pushed: set<Hash>, pending: set<Hash>)
    requires Counted(t, block, sizes, counts, popped, expanded, pushed, pending)
    ensures SizesOk(t, sizes)
  {
  }

  /** In a tree walk every block but the top one has an ancestor that was served. */
  lemma {:induction false} TopFirst(t: Shape, root: Hash, block: Hash, waiting: set<Hash>, done: set<Hash>, x: Hash)
    requires WellFormed(t, root) && block in t && Explored(t, block, waiting, done, done) && x in waiting
    requires done == {} || |t[block].children| == 0
    ensures x == block && done == {}
  {
    if |t[block].children| == 0 {
      LeafSize(t, root, block);
      OnlyMember(Subtree(t, block), block);
    }
  }

  lemma {:induction false} OnlyMember(s: set<Hash>, x: Hash)
    requires x in s && |s| == 1
    ensures s == {x}
  {
    assert |s - {x}| == 0;
  }

  /** Everything below a block of known size has a known size. */
  lemma {:induction false} SizedBelow(t: Shape, root: Hash, sizes: map<Hash, int>, block: Hash, x: Hash)
    requires WellFormed(t, root) && SizesOk(t, sizes) && block in sizes && Anc(t, block, x)
    ensures x in sizes
    decreases if x in t then t[x].height else 0
  {
    assert SizeOk(t, sizes, block);
    if x != block {
      var p := t[x].parent;
      SizedBelow(t, root, sizes, block, p);
      BelowBlock(t, root, block, x);
      assert SizeOk(t, sizes, p);
    }
  }

  lemma {:induction false} SizedMore(t: Shape, block: Hash, sizes: map<Hash, int>, counts: map<Hash, int>,
                  popped: set<Hash>, expanded: set<Hash>, pushed: set<Hash>, h: Hash)
    requires Counted(t, block, sizes, counts, popped, expanded, pushed, {}) && h in t
    requires SizesOk(t, sizes[h := |Subtree(t, h)|])
    ensures Counted(t, block, sizes[h := |Subtree(t, h)|], counts, popped, expanded, pushed, {})
  {
    forall x | x in popped
      ensures CountedAt(t, block, sizes[h := |Subtree(t, h)|], counts, expanded, pushed, {}, x)
    {
      assert CountedAt(t, block, sizes, counts, expanded, pushed, {}, x);
    }
  }

  /** The cached sizes of a block's children, as the split needs them. */
  lemma {:induction false} ChildSizes(t: Shape, root: Hash, sizes: map<Hash, int>, h: Hash)
    requires WellFormed(t, root) && SizesOk(t, sizes) && h in sizes
    ensures h in t
    ensures forall c :: c in t[h].children ==> c in sizes && c in t
    ensures forall i :: 0 <= i < |t[h].children| ==> sizes[t[h].children[i]] == |Subtree(t, t[h].children[i])| >= 1
    ensures Sum(SubtreeSizes(sizes, t[h].children)) + 1 == |Subtree(t, h)|
    ensures |t[h].children| > 0 ==> Sum(SubtreeSizes(sizes, t[h].children)) > 0
    ensures forall i, j :: 0 <= i < j < |t[h].children| ==> t[h].children[i] != t[h].children[j]
    ensures h !in Elems(t[h].children)
  {
    assert SizeOk(t, sizes, h);
    var cs := t[h].children;
    SizeFromChildren(t, root, sizes, h);
    forall i | 0 <= i < |cs|
      ensures sizes[cs[i]] == |Subtree(t, cs[i])| >= 1 && cs[i] != h && cs[i] in t
    {
      assert SizeOk(t, sizes, cs[i]);
      SubtreeNonEmpty(t, cs[i]);
      ChildAnc(t, root, h, i);
    }
    SumPositive(SubtreeSizes(sizes, cs));
  }

  lemma {:induction false} SumPositive(s: seq<int>)
    requires forall i :: 0 <= i < |s| ==> s[i] >= 1
    ensures Sum(s) >= |s|
  {
    if |s| > 0 {
      SumPositive(s[..|s| - 1]);
    }
  }

  lemma {:induction false} NoRow(t: Shape, iv: Labels, h: Hash)
    requires h in t && h in iv && |t[h].children| == 0
    ensures RowGiven(t, iv, iv, h)
  {
  }

  /** Parts that tile the capacity of `h`, each at least as large as its subtree, are a row. */
  lemma {:induction false} RowSet(t: Shape, iv: Labels, iv': Labels, h: Hash, parts: seq<Interval>, counts: seq<int>,
                                  capacity: Interval)
    requires h in t && h in iv && iv[h].Valid() && |t[h].children| == |parts| == |counts| > 0
    requires SameExcept(iv, iv', Elems(t[h].children)) && h !in Elems(t[h].children)
    requires capacity.Valid() && capacity == Interval(iv[h].start, iv[h].end - 1) && Tiles(parts, capacity)
    requires forall i :: 0 <= i < |parts| ==> t[h].children[i] in iv' && iv'[t[h].children[i]] == parts[i]
    requires forall i :: 0 <= i < |parts| ==> parts[i].Size() >= counts[i] == |Subtree(t, t[h].children[i])| >= 1
    ensures RowGiven(t, iv, iv', h)
  {
    var cs := t[h].children;
    forall i | 0 <= i < |cs|
      ensures Labelled(iv', cs[i])
    {
      assert iv'[cs[i]] == parts[i];
    }
    assert Row(iv', cs);
    forall i | 0 <= i < |cs|
      ensures Roomy(t, iv', cs[i])
    {
      RowBounds(iv', cs, i);
      assert iv'[cs[i]] == parts[i] && parts[i].Size() >= counts[i];
    }
  }
}
