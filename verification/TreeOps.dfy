/** Growing the reachability tree and moving its reindex root. */
module TreeOps {
  import opened Types
  import opened Intervals
  import opened Tree
  import opened Labels
  import opened Counting
  import opened Relabel
  import opened Sliding
  import opened Store
  import opened ChainPath
  import opened NewLeaf
  import opened Concentrate
  import opened Reindex

  /** How far behind the selected tip the reindex root trails. */
  const DEFAULT_REINDEX_DEPTH: nat := 100

  /** Labels kept free around every chain block above the reindex root. */
  const DEFAULT_REINDEX_SLACK: nat := 0x4000

  ghost predicate TreeValid(store: ReachabilityStore, root: Hash)
    reads store
  {
    && TreeOk(store.tree, store.labels, root)
    && store.cover.Keys == store.tree.Keys
    && PivotOk(store.tree, root, store.reindexRoot)
  }

  /** The reindex root has a label for every block and one more, and slack for the chain above. */
  ghost predicate HasRoom(store: ReachabilityStore, slack: nat)
    requires store.reindexRoot in store.tree && store.reindexRoot in store.labels
    reads store
  {
    store.labels[store.reindexRoot].Size() > |store.tree| + slack * store.tree[store.reindexRoot].height
  }

  /** Appends `newBlock` below `parent`. It gets half of the labels left after its siblings; if
      there are none, labels are reallocated. */
  method AddTreeBlock(store: ReachabilityStore, newBlock: Hash, parent: Hash, slack: nat, ghost root: Hash)
      returns (r: Status)
    requires TreeValid(store, root) && newBlock != NONE
    modifies store
    ensures parent !in old(store.tree) ==> r == KeyNotFound && unchanged(store)
    ensures parent in old(store.tree) && newBlock in old(store.tree) ==> r == AlreadyExists
    ensures parent in old(store.tree) && newBlock !in old(store.tree) ==> r == Ok || r == DataOverflow || r == Panic
    ensures r == Ok ==> TreeValid(store, root) && store.labels[root] == old(store.labels)[root]
    ensures r == Ok ==>
      store.tree == WithLeaf(old(store.tree), newBlock, parent) && store.cover == old(store.cover)[newBlock := []]
    ensures store.reindexRoot == old(store.reindexRoot)
    ensures parent in old(store.tree) && newBlock !in old(store.tree) && old(HasRoom(store, slack)) ==> r == Ok
    ensures r == Ok ==> old(store.reindexRoot) in old(store.labels)
    ensures r == Ok ==>
      store.labels[store.reindexRoot].Size() >=
        old(store.labels[store.reindexRoot].Size()) - |store.tree| - slack * store.tree[store.reindexRoot].height
  {
    ghost var t0, iv0, pivot := store.tree, store.labels, store.reindexRoot;
    if parent !in store.tree {
      return KeyNotFound;
    }
    ParentRow(t0, iv0, root, parent);
    ValidParts(store, root);
    hide WellFormed, TreeOk, PivotOk, NodeOk, TreeValid, WithLeaf;
    var remaining := FreeAfter(store, parent);
    if remaining.IsEmpty() {
      r := AppendLeaf(store, newBlock, parent, remaining);
      if r != Ok {
        return;
      }
      LeafPending(t0, iv0, root, newBlock, parent, store.labels);
      LeafSizeUp(t0, newBlock, parent);
      var ctx := new ReindexContext(store, slack);
      r := ctx.ReindexIntervals(newBlock, store.reindexRoot, root, t0, iv0, parent);
    } else {
      var share, _ := SplitHalf(remaining);
      r := AppendLeaf(store, newBlock, parent, share);
      if r != Ok {
        return;
      }
      LeafPlaced(t0, iv0, root, newBlock, parent, share);
    }
    PivotGrows(t0, root, pivot, newBlock, parent);
    Product(slack, t0[pivot].height);
    PivotHeight(t0, pivot, newBlock, parent);
    ValidAgain(store, root, t0, newBlock, parent);
  }

  /** Links the new block into the tree. */
  method AppendLeaf(store: ReachabilityStore, newBlock: Hash, parent: Hash, interval: Interval) returns (r: Status)
    requires parent in store.tree
    modifies store
    ensures r == if newBlock in old(store.tree) then AlreadyExists else Ok
    ensures r == Ok ==> store.tree == WithLeaf(old(store.tree), newBlock, parent)
    ensures r == Ok ==>
      store.labels == old(store.labels)[newBlock := interval] && store.cover == old(store.cover)[newBlock := []]
    ensures store.reindexRoot == old(store.reindexRoot)
  {
    store.AppendChild(parent, newBlock);
    var height := store.tree[parent].height;
    r := store.Insert(newBlock, parent, interval, height + 1);
  }

  lemma {:induction false} ValidParts(store: ReachabilityStore, root: Hash)
    requires TreeValid(store, root)
    ensures TreeOk(store.tree, store.labels, root) && PivotOk(store.tree, root, store.reindexRoot)
    ensures store.tree.Keys == store.labels.Keys == store.cover.Keys && WellFormed(store.tree, root) &&
      root in store.tree && store.reindexRoot in store.tree
  {
  }

  lemma {:induction false} ValidAgain(store: ReachabilityStore, root: Hash, t: Shape, n: Hash, p: Hash)
    requires p in t && store.tree == WithLeaf(t, n, p) && store.cover.Keys == t.Keys + {n} &&
      PivotOk(store.tree, root, store.reindexRoot)
    ensures TreeOk(store.tree, store.labels, root) ==> TreeValid(store, root)
  {
  }

  /** The labels after the last child of `block`, as an interval that may be empty. */
  function FreeAfter(store: ReachabilityStore, block: Hash): (free: Interval)
    requires block in store.labels && block in store.tree
    requires forall c :: c in store.tree[block].children ==> c in store.labels
    reads store
    ensures free ==
      Interval(NextStart(store.labels, store.tree[block].children, store.labels[block]), store.labels[block].end - 1)
  {
    RemainingAfter(store, block)
  }

  /** The free labels after the children of a block: an interval, possibly empty. */
  lemma {:induction false} ParentRow(t: Shape, iv: Labels, root: Hash, p: Hash)
    requires TreeOk(t, iv, root) && p in t
    ensures p in iv && iv[p].Valid() && iv[p].start <= iv[p].end &&
      (forall c :: c in t[p].children ==> c in iv && c in t)
    ensures iv[p].start <= NextStart(iv, t[p].children, iv[p]) <= iv[p].end
  {
    RootAnc(t, root, p);
    TreeSubtree(t, iv, root);
    LabelValid(t, iv, root, root, p);
    assert NodeOk(t, iv, p);
    ChildrenInTree(t, root, p);
    if |t[p].children| > 0 {
      RowBounds(iv, t[p].children, |t[p].children| - 1);
      assert Labelled(iv, t[p].children[|t[p].children| - 1]);
    }
  }

  lemma {:induction false} LeafPending(t: Shape, iv: Labels, root: Hash, n: Hash, p: Hash, mid: Labels)
    requires TreeOk(t, iv, root) && Fresh(t, n, p) && p in iv && (forall c :: c in t[p].children ==> c in iv)
    requires var free := NextStart(iv, t[p].children, iv[p]);
      iv[p].end == free && mid == iv[n := Interval(free, iv[p].end - 1)]
    ensures Pending(t, iv, root, n, p, mid)
  {
  }

  lemma {:induction false} LeafSizeUp(t: Shape, n: Hash, p: Hash)
    requires Fresh(t, n, p)
    ensures |WithLeaf(t, n, p)| == |t| + 1
  {
    assert WithLeaf(t, n, p).Keys == t.Keys + {n};
  }

  lemma {:induction false} PivotHeight(t: Shape, pivot: Hash, n: Hash, p: Hash)
    requires pivot in t && Fresh(t, n, p)
    ensures pivot in WithLeaf(t, n, p) && WithLeaf(t, n, p)[pivot].height == t[pivot].height
  {
  }

  lemma {:induction false} PivotGrows(t: Shape, root: Hash, pivot: Hash, n: Hash, p: Hash)
    requires PivotOk(t, root, pivot) && Fresh(t, n, p)
    ensures PivotOk(WithLeaf(t, n, p), root, pivot)
  {
  }

  /** Where the next child of a block with these children starts. */
  function NextStart(iv: Labels, cs: seq<Hash>, box: Interval): int
    requires forall c :: c in cs ==> c in iv
  {
    if |cs| == 0 then box.start else iv[cs[|cs| - 1]].end + 1
  }

  /** A leaf labelled from the free labels at the end of its parent's interval. */
  lemma {:induction false} LeafPlaced(t: Shape, iv: Labels, root: Hash, n: Hash, p: Hash, share: Interval)
    requires TreeOk(t, iv, root) && Fresh(t, n, p) && p in iv && (forall c :: c in t[p].children ==> c in iv)
    requires share.start == NextStart(iv, t[p].children, iv[p]) && share.start <= share.end < iv[p].end
    ensures TreeOk(WithLeaf(t, n, p), iv[n := share], root)
  {
    LeafWellFormed(t, root, n, p);
    LeafKeys(t, iv, root, n, p, share);
    hide WellFormed, WithLeaf, NodeOk;
    var t', iv' := WithLeaf(t, n, p), iv[n := share];
    forall h | h in t'
      ensures NodeOk(t', iv', h)
    {
      PlacedNode(t, iv, root, n, p, share, h);
    }
  }

  lemma {:induction false} LeafKeys(t: Shape, iv: Labels, root: Hash, n: Hash, p: Hash, share: Interval)
    requires TreeOk(t, iv, root) && Fresh(t, n, p)
    ensures iv[n := share].Keys == WithLeaf(t, n, p).Keys && root in t && iv[n := share][root] == iv[root]
  {
  }

  lemma {:induction false} PlacedNode(t: Shape, iv: Labels, root: Hash, n: Hash, p: Hash, share: Interval, h: Hash)
    requires TreeOk(t, iv, root) && Fresh(t, n, p) && p in iv && (forall c :: c in t[p].children ==> c in iv)
    requires share.start == NextStart(iv, t[p].children, iv[p]) && share.start <= share.end < iv[p].end
    requires h in WithLeaf(t, n, p)
    ensures NodeOk(WithLeaf(t, n, p), iv[n := share], h)
  {
    hide WellFormed, RowInside;
    if h == p {
      assert NodeOk(t, iv, p);
      ChildrenInTree(t, root, p);
      RowExtended(iv, t[p].children, iv[p], n, share);
    } else if h != n {
      assert NodeOk(t, iv, h);
      ChildrenInTree(t, root, h);
      RowKept(iv, t[h].children, iv[h], n, share);
    } else {
      NoChildren(iv[n := share], share);
    }
  }

  lemma {:induction false} NoChildren(iv: Labels, box: Interval)
    ensures RowInside(iv, [], box)
  {
  }

  lemma {:induction false} RowKept(iv: Labels, cs: seq<Hash>, box: Interval, n: Hash, share: Interval)
    requires RowInside(iv, cs, box) && n !in cs
    ensures RowInside(iv[n := share], cs, box)
  {
    RowSame(iv, iv[n := share], cs);
  }

  lemma {:induction false} RowExtended(iv: Labels, cs: seq<Hash>, box: Interval, n: Hash, share: Interval)
    requires RowInside(iv, cs, box) && n !in cs && box.start <= box.end && (forall c :: c in cs ==> c in iv)
    requires share.start == NextStart(iv, cs, box) && share.start <= share.end < box.end
    ensures RowInside(iv[n := share], cs + [n], box)
  {
    var iv', cs' := iv[n := share], cs + [n];
    RowSame(iv, iv', cs);
    forall i, j | 0 <= i && j == i + 1 && j < |cs'|
      ensures iv'[cs'[i]].end + 1 == iv'[cs'[j]].start
    {
      assert j < |cs| ==> iv'[cs[i]].end + 1 == iv'[cs[j]].start;
    }
    forall i | 0 <= i < |cs'|
      ensures Labelled(iv', cs'[i])
    {
      assert i < |cs| ==> Labelled(iv', cs[i]);
    }
  }

  /** The nearest tree ancestor of `block` that is also above `pivot`. */
  method FindCommonTreeAncestor(store: ReachabilityStore, block: Hash, pivot: Hash, ghost root: Hash)
      returns (common: Hash)
    requires TreeOk(store.tree, store.labels, root) && block in store.tree && pivot in store.tree
    ensures common in store.tree && Anc(store.tree, common, block) && Anc(store.tree, common, pivot)
    ensures forall x :: Anc(store.tree, x, block) && Anc(store.tree, x, pivot) ==> Anc(store.tree, x, common)
  {
    ghost var t, iv := store.tree, store.labels;
    common := block;
    assert Anc(t, block, block);
    while true
      invariant common in t && Anc(t, common, block)
      invariant forall x :: Anc(t, x, block) && Anc(t, x, pivot) ==> Anc(t, x, common)
      decreases t[common].height
    {
      TreeContains(t, iv, root, common, pivot);
      if IsChainAncestorOf(store, common, pivot) {
        return;
      }
      RootAnc(t, root, pivot);
      UpOne(t, root, common, block, pivot);
      common := store.tree[common].parent;
    }
  }

  lemma {:induction false} UpOne(t: Shape, root: Hash, c: Hash, block: Hash, pivot: Hash)
    requires WellFormed(t, root) && Anc(t, c, block) && c in t && !Anc(t, c, pivot) && pivot in t
    requires forall x :: Anc(t, x, block) && Anc(t, x, pivot) ==> Anc(t, x, c)
    ensures var p := t[c].parent; p in t && Anc(t, p, block) && t[p].height < t[c].height
    ensures forall x :: Anc(t, x, block) && Anc(t, x, pivot) ==> Anc(t, x, t[c].parent)
  {
    RootAnc(t, root, pivot);
    assert HangsOn(t, c, t[c].parent);
    assert Anc(t, t[c].parent, c);
    AncTrans(t, t[c].parent, c, block);
    forall x | Anc(t, x, block) && Anc(t, x, pivot)
      ensures Anc(t, x, t[c].parent)
    {
      AncParent(t, root, x, c);
    }
  }

  /** The next reindex root on the way to `hint`, and the block from which labels must move down to
      it. The chain is switched only when `hint` is at least `slack` higher than the root. */
  method FindNextReindexRoot(store: ReachabilityStore, current: Hash, hint: Hash, depth: nat, slack: nat,
                             ghost root: Hash)
      returns (r: Status, ancestor: Hash, next: Hash)
    requires TreeOk(store.tree, store.labels, root) && current in store.tree && hint in store.tree
    ensures r == Ok || r == BadQuery
    ensures r == Ok && next != current ==> RootMove(store.tree, current, hint, ancestor, next)
    ensures r == Ok ==> Advanced(store.tree, current, hint, depth, slack, ancestor, next)
    ensures var t := store.tree;
      r == Ok && !Anc(t, current, hint) && t[hint].height < t[current].height + slack ==> next == current
    ensures var t := store.tree;
      r == Ok && (Anc(t, current, hint) || t[hint].height >= t[current].height + slack) ==>
        && next in t && (next == ancestor || t[next].height + depth <= t[hint].height)
        && forall i {:trigger t[next].children[i]} :: 0 <= i < |t[next].children| ==>
          var c := t[next].children[i];
          c in t && Anc(t, c, hint) ==> t[hint].height < t[c].height + depth
    ensures 0 < depth ==> (r == BadQuery <==> hint == current)
  {
    ghost var t, iv := store.tree, store.labels;
    ancestor, next := current, current;
    var hintHeight := store.tree[hint].height;
    TreeContains(t, iv, root, current, hint);
    if !IsChainAncestorOf(store, current, hint) {
      var currentHeight := store.tree[current].height;
      if hintHeight < currentHeight || hintHeight - currentHeight < slack {
        return Ok, current, current;
      }
      var common := FindCommonTreeAncestor(store, hint, current, root);
      HigherHint(t, common, hint, current);
      ancestor, next := common, common;
    }
    assert Anc(t, next, next) && Anc(t, current, current);
    while true
      invariant next in t && Anc(t, ancestor, next) && Anc(t, next, hint) && Anc(t, ancestor, current)
      invariant hint != current && 0 < depth ==> next != hint
      invariant NearestCommon(t, ancestor, current, hint) &&
        !(!Anc(t, current, hint) && TooLow(t, current, hint, slack))
      invariant next == ancestor || t[next].height + depth <= t[hint].height
      decreases hintHeight - t[next].height
    {
      SelfChildren(t, iv, root, next);
      AncHeight(t, next, hint);
      var s, child, i := NextChainAncestorUnchecked(store, hint, next);
      if s != Ok {
        StuckAtHint(t, iv, root, next, hint, i);
        return BadQuery, ancestor, next;
      }
      FoundChild(t, iv, root, next, hint, i);
      var childHeight := store.tree[child].height;
      if hintHeight - childHeight < depth {
        OnlyChildToward(t, root, next, child, hint);
        break;
      }
      AncTrans(t, ancestor, next, child);
      next := child;
    }
    return Ok, ancestor, next;
  }

  /** `hint` is less than `slack` higher than the reindex root. */
  ghost predicate TooLow(t: Shape, current: Hash, hint: Hash, slack: nat)
    requires current in t && hint in t
  {
    t[hint].height < t[current].height + slack
  }

  ghost predicate NearestCommon(t: Shape, a: Hash, x: Hash, y: Hash) {
    && Anc(t, a, x) && Anc(t, a, y)
    && forall z :: Anc(t, z, x) && Anc(t, z, y) ==> Anc(t, z, a)
  }

  ghost predicate Near(t: Shape, c: Hash, hint: Hash, depth: nat) {
    c in t && hint in t && Anc(t, c, hint) ==> t[hint].height < t[c].height + depth
  }

  /** `next` is the deepest block on the way from `from` to `hint` that trails `hint` by `depth`. */
  ghost predicate Trails(t: Shape, from: Hash, hint: Hash, depth: nat, next: Hash) {
    && next in t && hint in t && next != hint && Anc(t, from, next) && Anc(t, next, hint)
    && (next == from || t[next].height + depth <= t[hint].height)
    && forall i :: 0 <= i < |t[next].children| ==> Near(t, t[next].children[i], hint, depth)
  }

  /** The rule for the next reindex root: it stays if `hint` is on another chain and not high enough;
      otherwise it trails `hint`, coming from the last block that both chains share. */
  ghost predicate Advanced(t: Shape, current: Hash, hint: Hash, depth: nat, slack: nat, ancestor: Hash, next: Hash)
    requires current in t && hint in t
  {
    if !Anc(t, current, hint) && TooLow(t, current, hint, slack) then ancestor == next == current
    else NearestCommon(t, ancestor, current, hint) && Trails(t, ancestor, hint, depth, next)
  }

  lemma {:induction false} OnlyChildToward(t: Shape, root: Hash, x: Hash, c: Hash, hint: Hash)
    requires WellFormed(t, root) && x in t && c in t && t[c].parent == x && Anc(t, x, c) && c != x && Anc(t, c, hint)
    ensures forall i :: 0 <= i < |t[x].children| && Anc(t, t[x].children[i], hint) ==> t[x].children[i] == c
  {
    var k := ChildToward(t, root, x, c);
    ChildAnc(t, root, x, k);
    SameChild(t, root, t[x].children[k], c);
    forall i | 0 <= i < |t[x].children| && Anc(t, t[x].children[i], hint)
      ensures t[x].children[i] == c
    {
      SiblingsApart(t, root, x, i, k, hint);
    }
  }

  /** The rule leaves no choice. */
  lemma {:induction false} OneNextRoot(t: Shape, root: Hash, current: Hash, hint: Hash, depth: nat, slack: nat,
                                       a: Hash, next: Hash, a': Hash, next': Hash)
    requires WellFormed(t, root) && current in t && hint in t
    requires Advanced(t, current, hint, depth, slack, a, next) && Advanced(t, current, hint, depth, slack, a', next')
    ensures a == a' && next == next'
  {
    if Anc(t, current, hint) || !TooLow(t, current, hint, slack) {
      SameBlock(t, a, a');
      if next != next' {
        AncLinear(t, next, next', hint);
        if Anc(t, next, next') {
          NotDeeper(t, root, a, hint, depth, next, next');
        } else {
          NotDeeper(t, root, a, hint, depth, next', next);
        }
      }
    }
  }

  lemma {:induction false} SameBlock(t: Shape, a: Hash, b: Hash)
    requires Anc(t, a, b) && Anc(t, b, a)
    ensures a == b
  {
    AncHeight(t, a, b);
    AncHeight(t, b, a);
  }

  lemma {:induction false} NotDeeper(t: Shape, root: Hash, from: Hash, hint: Hash, depth: nat, next: Hash, next': Hash)
    requires WellFormed(t, root) && Trails(t, from, hint, depth, next) && Trails(t, from, hint, depth, next')
    ensures !Anc(t, next, next') || next == next'
  {
    if Anc(t, next, next') && next != next' {
      var i := ChildToward(t, root, next, next');
      var c := t[next].children[i];
      AncTrans(t, c, next', hint);
      ChildAnc(t, root, next, i);
      assert Near(t, c, hint, depth);
      AncHeight(t, c, next');
      if next' == from {
        SameBlock(t, next, next');
      }
    }
  }

  /** When the reindex root stays: for a hint on another chain that is not high enough, or when the
      block after the root is already too close to the hint. */
  lemma {:induction false} StaysExactly(t: Shape, root: Hash, current: Hash, hint: Hash, depth: nat, slack: nat,
                                        ancestor: Hash, next: Hash)
    requires WellFormed(t, root) && current in t && hint in t &&
      Advanced(t, current, hint, depth, slack, ancestor, next)
    ensures next == current <==>
      if Anc(t, current, hint) then
        forall i {:trigger t[current].children[i]} :: 0 <= i < |t[current].children| ==>
          var c := t[current].children[i];
          c in t && Anc(t, c, hint) ==> t[hint].height < t[c].height + depth
      else t[hint].height < t[current].height + slack
  {
    if Anc(t, current, hint) {
      assert Anc(t, current, current);
      SameBlock(t, ancestor, current);
      if next != current && forall i :: 0 <= i < |t[current].children| ==>
        Near(t, t[current].children[i], hint, depth) {
        var i := ChildToward(t, root, current, next);
        AncTrans(t, t[current].children[i], next, hint);
        ChildAnc(t, root, current, i);
        AncHeight(t, t[current].children[i], next);
      }
    }
  }

  /** Labels are to move from `ancestor`, at or above the old root, down to the new root `next`,
      which lies above `hint` and is not a leaf. */
  ghost predicate RootMove(t: Shape, current: Hash, hint: Hash, ancestor: Hash, next: Hash) {
    && ancestor in t && next in t && |t[next].children| > 0
    && Anc(t, ancestor, current) && Anc(t, ancestor, next) && Anc(t, next, hint)
  }

  lemma {:induction false} HigherHint(t: Shape, common: Hash, hint: Hash, current: Hash)
    requires hint in t && current in t && t[current].height <= t[hint].height
    requires Anc(t, common, hint) && Anc(t, common, current) && !Anc(t, current, hint)
    ensures common != hint && current != hint
  {
    AncHeight(t, common, current);
  }

  lemma {:induction false} SelfChildren(t: Shape, iv: Labels, root: Hash, x: Hash)
    requires TreeOk(t, iv, root) && x in t
    ensures Ordered(iv, t[x].children) && SubtreeOk(t, iv, x)
    ensures forall j :: 0 <= j < |t[x].children| ==> SubtreeOk(t, iv, t[x].children[j])
  {
    RootAnc(t, root, x);
    TreeSubtree(t, iv, root);
    SubtreeWithin(t, iv, root, root, x);
    OwnSubtrees(t, iv, root, x);
    assert NodeOk(t, iv, x);
    RowOrdered(iv, t[x].children);
  }

  /** The search fails only at `hint` itself. */
  lemma {:induction false} StuckAtHint(t: Shape, iv: Labels, root: Hash, next: Hash, hint: Hash, i: nat)
    requires TreeOk(t, iv, root) && next in t && Anc(t, next, hint) && Ordered(iv, t[next].children) && hint in iv
    requires SearchResult(iv, t[next].children, hint, false, i)
    requires forall j :: 0 <= j < |t[next].children| ==> SubtreeOk(t, iv, t[next].children[j])
    ensures next == hint
  {
    if next != hint {
      NextOnChain(t, iv, root, next, hint, false, i);
    }
  }

  lemma {:induction false} FoundChild(t: Shape, iv: Labels, root: Hash, next: Hash, hint: Hash, i: nat)
    requires TreeOk(t, iv, root) && next in t && Anc(t, next, hint) && hint in t && Ordered(iv, t[next].children)
    requires SearchResult(iv, t[next].children, hint, true, i)
    ensures i < |t[next].children|
    ensures var c := t[next].children[i];
      c in t && t[c].parent == next && Anc(t, next, c) && Anc(t, c, hint) &&
      t[next].height < t[c].height <= t[hint].height
  {
    SearchIsAncestry(t, iv, root, t[next].children, hint, true, i);
    ChildAnc(t, root, next, i);
    AncHeight(t, t[next].children[i], hint);
    assert HangsOn(t, t[next].children[i], next);
  }

  /** The move has come down to `a`: above it, labels have been passed on; below it they are as good
      as before among themselves, or for good once `next` is reached. */
  ghost predicate Moving(t: Shape, iv: Labels, mid: Labels, root: Hash, top: Hash, a: Hash, next: Hash)
    requires iv.Keys == t.Keys == mid.Keys
  {
    && TreeOk(t, iv, root) && top in t && a in t && next in t && |t[next].children| > 0
    && Anc(t, top, a) && Anc(t, a, next)
    && SameExcept(iv, mid, Subtree(t, top) - {top})
    && ChainGiven(t, mid, top, a) && mid[a].Valid()
    && (if a == top then mid == iv && Stale(t, mid, a) else if a == next then SubtreeOk(t, mid, a)
          else Stale(t, mid, a))
  }

  lemma {:induction false} MoveStarts(t: Shape, iv: Labels, root: Hash, current: Hash, hint: Hash, top: Hash,
                                      next: Hash)
    requires TreeOk(t, iv, root) && RootMove(t, current, hint, top, next)
    ensures Moving(t, iv, iv, root, top, top, next)
  {
    SelfChildren(t, iv, root, top);
    StaleFromOk(t, iv, root, top);
    RootAnc(t, root, top);
    TreeSubtree(t, iv, root);
    LabelValid(t, iv, root, root, top);
    assert Anc(t, top, top);
    forall x | x in t && Anc(t, top, x) && Anc(t, x, top) && x != top
      ensures false
    {
      AncHeight(t, top, x);
      AncHeight(t, x, top);
    }
  }

  lemma {:induction false} MovingHere(t: Shape, iv: Labels, mid: Labels, root: Hash, top: Hash, a: Hash, next: Hash)
    requires iv.Keys == t.Keys == mid.Keys && Moving(t, iv, mid, root, top, a, next) && a != next
    ensures WellFormed(t, root) && a in t && next in t && Ordered(mid, t[a].children) && Stale(t, mid, a) &&
      mid[a].Valid()
    ensures Anc(t, a, next) && t[a].height < t[next].height
  {
    RowOrdered(mid, t[a].children);
    AncHeight(t, a, next);
  }

  lemma {:induction false} MovingDown(t: Shape, iv: Labels, mid: Labels, root: Hash, top: Hash, a: Hash, next: Hash,
                                      found: bool, i: nat)
    requires iv.Keys == t.Keys == mid.Keys && Moving(t, iv, mid, root, top, a, next) && a != next
    requires Ordered(mid, t[a].children) && SearchResult(mid, t[a].children, next, found, i)
    ensures found && i < |t[a].children|
    ensures var c := t[a].children[i];
      c in t && t[c].parent == a && Anc(t, c, next) && |t[c].children| > 0 &&
        t[a].height < t[c].height <= t[next].height
  {
    NextOnChain(t, mid, root, a, next, found, i);
    var c := t[a].children[i];
    AncHeight(t, c, next);
    if c != next {
      var _ := ChildToward(t, root, c, next);
    }
  }

  lemma {:induction false} Moved(t: Shape, iv: Labels, mid: Labels, iv': Labels, root: Hash, top: Hash, a: Hash,
                                 child: Hash, next: Hash, slack: nat)
    requires iv.Keys == t.Keys == mid.Keys && iv'.Keys == t.Keys && Moving(t, iv, mid, root, top, a, next) && a != next
    requires child in t && t[child].parent == a && Anc(t, child, next)
    requires Concentrated(t, mid, iv', a, child, slack, child == next)
    ensures Moving(t, iv, iv', root, top, child, next)
  {
    hide NodeOk, SubtreeOk, Stale, Given, ChainGiven;
    var k: nat :| k < |t[a].children| && t[a].children[k] == child && Given(t, iv', a, k);
    ChildAnc(t, root, a, k);
    AncTrans(t, top, a, child);
    AncHeight(t, top, a);
    AncHeight(t, a, child);
    ChainLonger(t, mid, iv', root, top, a, k);
    SubtreeInside(t, top, a);
    ChangesAdd(iv, mid, iv', Subtree(t, top) - {top}, Subtree(t, a) - {a}, Subtree(t, top) - {top});
  }

  lemma {:induction false} MoveEnds(t: Shape, iv: Labels, iv': Labels, root: Hash, top: Hash, next: Hash)
    requires iv.Keys == t.Keys == iv'.Keys && Moving(t, iv, iv', root, top, next, next)
    ensures TreeOk(t, iv', root) && iv'[root] == iv[root] && PivotOk(t, root, next)
  {
    if next != top {
      ChainAssembled(t, iv', root, top, next);
      TreeSubtree(t, iv, root);
      RestOk(t, iv, iv', root, root, top);
      RootKept(t, root, top, iv, iv');
      forall h | h in t
        ensures NodeOk(t, iv', h)
      {
        RootAnc(t, root, h);
      }
    }
  }

  /** The reindex root has labels enough for a move towards `hint`. */
  ghost predicate HasMoveRoom(store: ReachabilityStore, hint: Hash, slack: nat)
    requires hint in store.tree && store.reindexRoot in store.labels
    reads store
  {
    MoveRoom(store.tree, store.labels[store.reindexRoot].Size(), hint, slack)
  }

  ghost predicate MoveRoom(t: Shape, size: int, hint: Hash, slack: nat)
    requires hint in t
  {
    size >= |t| + 2 * slack * (t[hint].height + 1)
  }

  lemma {:induction false} MoveCapacity(t: Shape, iv: Labels, root: Hash, current: Hash, hint: Hash, top: Hash,
                                        next: Hash, a: Hash, child: Hash, slack: nat, steps: int, size: int)
    requires TreeOk(t, iv, root) && RootMove(t, current, hint, top, next) && current in t && hint in t && a in t &&
      child in t
    requires SizeLeft(t, iv, size, top, a, slack, steps) && t[a].height < t[next].height
    ensures current in iv &&
      (MoveRoom(t, iv[current].Size(), hint, slack) ==> forall isFinal :: size >= Needs(t, a, child, slack, isFinal))
  {
    TreeContains(t, iv, root, top, current);
    SubtreeSmall(t, top);
    AncHeight(t, next, hint);
    assert t[hint].height + 1 >= steps + 2;
    Product(2 * slack, t[hint].height + 1 - steps - 2);
    assert 2 * slack * (t[hint].height + 1) >= 2 * slack * steps + 2 * slack * 2 by {
      assert 2 * slack * (t[hint].height + 1 - steps - 2) ==
        2 * slack * (t[hint].height + 1) - 2 * slack * steps - 2 * slack * 2;
    }
  }

  /** Moves the reindex root towards the selected tip `hint`. Every block of the chain in between
      passes its labels down, so the new root ends up with nearly all of them. */
  method TryAdvancingReindexRoot(store: ReachabilityStore, hint: Hash, depth: nat, slack: nat, ghost root: Hash)
      returns (r: Status)
    requires TreeValid(store, root)
    modifies store`labels, store`reindexRoot
    ensures hint !in store.tree ==> r == KeyNotFound
    ensures hint in store.tree ==> r == Ok || r == BadQuery || r == Panic
    ensures hint in store.tree && 0 < depth ==> (r == BadQuery <==> hint == old(store.reindexRoot))
    ensures r == KeyNotFound || r == BadQuery ==> unchanged(store)
    ensures r == Ok ==> TreeValid(store, root) && store.labels[root] == old(store.labels)[root]
    ensures hint in store.tree && old(HasMoveRoom(store, hint, slack)) ==> r != Panic
    ensures r == Ok ==> MovedTo(store.tree, old(store.reindexRoot), hint, depth, slack, store.reindexRoot)
    ensures r == Ok ==>
      old(store.reindexRoot) in old(store.labels) && store.reindexRoot in store.labels && hint in store.tree
    ensures r == Ok ==>
      store.labels[store.reindexRoot].Size() >=
        old(store.labels[store.reindexRoot].Size()) - |store.tree| - 2 * slack * store.tree[hint].height
  {
    if hint !in store.tree {
      return KeyNotFound;
    }
    ghost var t, iv := store.tree, store.labels;
    ValidParts(store, root);
    hide TreeValid, TreeOk, WellFormed, RootMove, Moving, Ordered, Stale, SearchResult, SizesOk, Subtree, Concentrated,
      PivotOk, Needs, Anc, SizeLeft, MoveRoom, Advanced;
    var current := store.reindexRoot;
    var ancestor, next;
    r, ancestor, next := FindNextReindexRoot(store, current, hint, depth, slack, root);
    if r == Ok {
      MovedNow(t, current, hint, depth, slack, ancestor, next);
    }
    if r != Ok || current == next {
      Product(2 * slack, t[hint].height);
      return;
    }
    r := MoveLabels(store, current, ancestor, next, hint, slack, root);
    if r == Ok {
      store.SetReindexRoot(next);
      ValidMoved(store, root);
    }
  }

  /** Hands the labels down the chain from `ancestor` to `next`, the new reindex root. */
  method MoveLabels(store: ReachabilityStore, current: Hash, top: Hash, next: Hash, hint: Hash, slack: nat,
                    ghost root: Hash) returns (r: Status)
    requires TreeOk(store.tree, store.labels, root) && current in store.tree && hint in store.tree &&
      RootMove(store.tree, current, hint, top, next)
    modifies store`labels
    ensures store.labels.Keys == store.tree.Keys && current in old(store.labels) && next in store.tree &&
      (r == Ok || r == Panic)
    ensures r == Ok ==>
      TreeOk(store.tree, store.labels, root) && store.labels[root] == old(store.labels)[root] &&
      PivotOk(store.tree, root, next)
    ensures r == Ok ==>
      store.labels[next].Size() >=
        old(store.labels)[current].Size() - |store.tree| - 2 * slack * store.tree[hint].height
    ensures MoveRoom(store.tree, old(store.labels)[current].Size(), hint, slack) ==> r == Ok
  {
    hide WellFormed, RootMove, Moving, Ordered, Stale, SearchResult, SizesOk, Subtree, Concentrated, PivotOk, Needs,
      Anc, SizeLeft, MoveRoom;
    ghost var t, iv := store.tree, store.labels;
    r := Ok;
    var ancestor := top;
    MoveStarts(t, iv, root, current, hint, top, next);
    MoveBlocks(t, iv, iv, root, top, top, next);
    ghost var steps := 0;
    SizeStarts(t, iv, top, slack);
    while ancestor != next
      invariant r == Ok && store.labels.Keys == t.Keys
      invariant Moving(t, iv, store.labels, root, top, ancestor, next) && ancestor in t
      invariant SizeLeft(t, iv, store.labels[ancestor].Size(), top, ancestor, slack, steps)
      decreases t[next].height - t[ancestor].height
    {
      r, ancestor := PassDown(store, ancestor, next, slack, root, iv, top, current, hint, steps);
      if r != Ok {
        return;
      }
      steps := steps + 1;
    }
    MoveEnds(t, iv, store.labels, root, top, next);
    LeftAtEnd(t, iv, root, current, hint, top, next, store.labels[next].Size(), slack, steps);
  }

  /** One step of the move: the labels of `ancestor` go to its child on the way to `next`. */
  method PassDown(store: ReachabilityStore, ancestor: Hash, next: Hash, slack: nat, ghost root: Hash, ghost iv: Labels,
                  ghost top: Hash,
                  ghost current: Hash, ghost hint: Hash, ghost steps: int)
      returns (r: Status, child: Hash)
    requires iv.Keys == store.tree.Keys == store.labels.Keys && ancestor in store.tree && ancestor != next &&
      next in store.tree
    requires Moving(store.tree, iv, store.labels, root, top, ancestor, next)
    requires current in store.tree && hint in store.tree && RootMove(store.tree, current, hint, top, next)
    requires SizeLeft(store.tree, iv, store.labels[ancestor].Size(), top, ancestor, slack, steps)
    modifies store`labels
    ensures store.labels.Keys == store.tree.Keys && (r == Ok || r == Panic)
    ensures MoveRoom(store.tree, iv[current].Size(), hint, slack) ==> r == Ok
    ensures r == Ok ==>
      child in store.tree && store.tree[ancestor].height < store.tree[child].height <= store.tree[next].height
    ensures r == Ok ==> Moving(store.tree, iv, store.labels, root, top, child, next)
    ensures r == Ok ==> SizeLeft(store.tree, iv, store.labels[child].Size(), top, child, slack, steps + 1)
  {
    hide TreeOk, WellFormed, RootMove, Moving, Ordered, Stale, SearchResult, SizesOk, Subtree, Concentrated, Needs,
      Anc, SizeLeft, MoveRoom;
    ghost var t, mid := store.tree, store.labels;
    MovingHere(t, iv, mid, root, top, ancestor, next);
    var s, i;
    s, child, i := NextChainAncestorUnchecked(store, next, ancestor);
    MovingDown(t, iv, mid, root, top, ancestor, next, s == Ok, i);
    MovingTree(t, iv, mid, root, top, ancestor, next);
    MoveCapacity(t, iv, root, current, hint, top, next, ancestor, child, slack, steps, mid[ancestor].Size());
    NoSizes(t);
    var ctx := new ReindexContext(store, slack);
    r := ctx.ConcentrateInterval(ancestor, child, child == next, root);
    if r == Ok {
      Moved(t, iv, mid, store.labels, root, top, ancestor, child, next, slack);
      MovedSize(t, iv, mid, store.labels, top, ancestor, child, slack, child == next, steps);
    }
  }

  lemma {:induction false} MovingTree(t: Shape, iv: Labels, mid: Labels, root: Hash, top: Hash, a: Hash, next: Hash)
    requires iv.Keys == t.Keys == mid.Keys && Moving(t, iv, mid, root, top, a, next)
    ensures TreeOk(t, iv, root)
  {
  }

  lemma {:induction false} MoveBlocks(t: Shape, iv: Labels, mid: Labels, root: Hash, top: Hash, a: Hash, next: Hash)
    requires iv.Keys == t.Keys == mid.Keys && Moving(t, iv, mid, root, top, a, next)
    ensures top in t && a in t && next in t
  {
  }

  /** After `steps` steps down to `a`, its interval lacks only the labels of the blocks outside its
      subtree and two slacks a step. */
  ghost predicate SizeLeft(t: Shape, iv: Labels, size: int, top: Hash, a: Hash, slack: nat, steps: int) {
    && top in t && a in t && top in iv
    && size == iv[top].Size() - |Subtree(t, top)| + |Subtree(t, a)| - 2 * slack * steps
    && 0 <= steps <= t[a].height - t[top].height
  }

  lemma {:induction false} SizeStarts(t: Shape, iv: Labels, top: Hash, slack: nat)
    requires top in t && top in iv
    ensures SizeLeft(t, iv, iv[top].Size(), top, top, slack, 0)
  {
  }

  lemma {:induction false} MovedSize(t: Shape, iv: Labels, mid: Labels, iv': Labels, top: Hash, a: Hash, child: Hash,
                                     slack: nat, isFinal: bool, steps: int)
    requires a in t && a in mid && child in t && Concentrated(t, mid, iv', a, child, slack, isFinal) &&
      t[a].height < t[child].height
    requires SizeLeft(t, iv, mid[a].Size(), top, a, slack, steps)
    ensures child in iv' && SizeLeft(t, iv, iv'[child].Size(), top, child, slack, steps + 1)
  {
    assert 2 * slack * (steps + 1) == 2 * slack * steps + 2 * slack;
  }

  /** The reindex root moved from `current` to `next` by the rule. */
  ghost predicate MovedTo(t: Shape, current: Hash, hint: Hash, depth: nat, slack: nat, next: Hash) {
    current in t && hint in t && exists ancestor :: Advanced(t, current, hint, depth, slack, ancestor, next)
  }

  lemma {:induction false} MovedNow(t: Shape, current: Hash, hint: Hash, depth: nat, slack: nat, ancestor: Hash,
                                    next: Hash)
    requires current in t && hint in t && Advanced(t, current, hint, depth, slack, ancestor, next)
    ensures MovedTo(t, current, hint, depth, slack, next)
  {
  }

  /** What the new reindex root has, at least. */
  lemma {:induction false} LeftAtEnd(t: Shape, iv: Labels, root: Hash, current: Hash, hint: Hash, top: Hash,
                                     next: Hash, size: int, slack: nat, steps: int)
    requires TreeOk(t, iv, root) && current in t && hint in t && RootMove(t, current, hint, top, next)
    requires SizeLeft(t, iv, size, top, next, slack, steps)
    ensures current in iv && size >= iv[current].Size() - |t| - 2 * slack * t[hint].height
  {
    TreeContains(t, iv, root, top, current);
    SubtreeSmall(t, top);
    AncHeight(t, next, hint);
    Product(2 * slack, t[hint].height - steps);
    assert 2 * slack * (t[hint].height - steps) == 2 * slack * t[hint].height - 2 * slack * steps;
  }

  // ---------- enough labels for many blocks ----------

  /** Labels for `n` more blocks, whatever reindexing they cause. */
  ghost predicate Roomy(store: ReachabilityStore, slack: nat, n: nat)
    reads store
  {
    && store.reindexRoot in store.tree && store.reindexRoot in store.labels
    && Spacious(store.tree, store.labels[store.reindexRoot].Size(), slack, n)
  }

  ghost predicate Spacious(t: Shape, size: int, slack: nat, n: nat) {
    && (forall h {:trigger t[h]} :: h in t ==> t[h].height < |t|)
    && size >= n * (|t| + n) * (3 * slack + 2)
  }

  /** With room for `n` blocks, `x` being the number of blocks so far and one more. */
  lemma {:induction false} RoomLeft(n: nat, x: nat, cost: nat)
    requires n > 0 && x > 0
    ensures n * (x - 1 + n) * cost >= (n - 1) * (x + (n - 1)) * cost + x * cost
  {
    var y := x - 1 + n;
    assert n * y * cost == (n - 1) * y * cost + y * cost;
    assert y * cost == x * cost + (n - 1) * cost;
    Product(n - 1, cost);
    Product((n - 1) * y, cost);
  }

  /** Room for a block is room for its label. */
  lemma {:induction false} RoomForLeaf(t: Shape, pivot: Hash, size: int, slack: nat, n: nat)
    requires Spacious(t, size, slack, n) && n > 0 && pivot in t
    ensures size > |t| + slack * t[pivot].height
  {
    CostOfBlock(n, |t| + 1, t[pivot].height, t[pivot].height, size, size - (|t| + 1) - slack * t[pivot].height, slack);
    Product(2 * slack, t[pivot].height + 1);
  }

  lemma {:induction false} LowTree(t: Shape, b: Hash, p: Hash)
    requires Fresh(t, b, p) && forall h {:trigger t[h]} :: h in t ==> t[h].height < |t|
    ensures var t' := WithLeaf(t, b, p);
      b in t' && |t'| == |t| + 1 && forall h {:trigger t'[h]} :: h in t' ==> t'[h].height < |t'|
  {
    LeafSizeUp(t, b, p);
    var t' := WithLeaf(t, b, p);
    forall h | h in t'
      ensures t'[h].height < |t'|
    {
      assert h != b ==> t[h].height < |t|;
      assert t[p].height < |t|;
    }
  }

  /** The costs of one block in numbers: `x` blocks with it, `h` the height of the reindex root and
      `top` that of the block. */
  lemma {:induction false} CostOfBlock(n: nat, x: nat, h: nat, top: nat, size: int, size': int, slack: nat)
    requires n > 0 && h < x && top < x && size >= n * (x - 1 + n) * (3 * slack + 2) && size' >= size - x - slack * h
    ensures size' >= (n - 1) * (x + (n - 1)) * (3 * slack + 2) + x * (2 * slack + 1)
    ensures size' >= x + 2 * slack * (top + 1)
  {
    var rest := (n - 1) * (x + (n - 1)) * (3 * slack + 2);
    RoomLeft(n, x, 3 * slack + 2);
    assert rest >= 0 by {
      Product(n - 1, x + (n - 1));
      Product((n - 1) * (x + (n - 1)), 3 * slack + 2);
    }
    Times(slack, h, x);
    Times(slack, top + 1, x);
    assert x * (3 * slack + 2) == 3 * (slack * x) + 2 * x && x * (2 * slack + 1) == 2 * (slack * x) + x;
    assert 2 * slack * (top + 1) == 2 * (slack * (top + 1));
  }

  lemma {:induction false} Times(c: nat, x: nat, y: nat)
    requires x <= y
    ensures c * x <= c * y
  {
    Product(c, y - x);
    assert c * (y - x) == c * y - c * x;
  }

  /** After the block got its label there is still room to move the reindex root. */
  lemma {:induction false} RoomForMove(t: Shape, b: Hash, p: Hash, pivot: Hash, size: int, size': int, slack: nat,
                                       n: nat)
    requires Spacious(t, size, slack, n) && n > 0 && Fresh(t, b, p) && pivot in t
    requires size' >= size - |WithLeaf(t, b, p)| - slack * t[pivot].height
    ensures b in WithLeaf(t, b, p) && MoveRoom(WithLeaf(t, b, p), size', b, slack)
    ensures size' >= (n - 1) * (|WithLeaf(t, b, p)| + (n - 1)) * (3 * slack + 2) + |WithLeaf(t, b, p)| * (2 * slack + 1)
  {
    LowTree(t, b, p);
    var t' := WithLeaf(t, b, p);
    CostOfBlock(n, |t'|, t[pivot].height, t'[b].height, size, size', slack);
  }

  /** And after the move there is room for one block less. */
  lemma {:induction false} RoomAfter(t: Shape, b: Hash, p: Hash, size: int, size': int, slack: nat, n: nat)
    requires Fresh(t, b, p) && n > 0 && b in WithLeaf(t, b, p) && forall h {:trigger t[h]} :: h in t ==>
      t[h].height < |t|
    requires size >= (n - 1) * (|WithLeaf(t, b, p)| + (n - 1)) * (3 * slack + 2) + |WithLeaf(t, b, p)| * (2 * slack + 1)
    requires size' >= size - |WithLeaf(t, b, p)| - 2 * slack * WithLeaf(t, b, p)[b].height
    ensures Spacious(WithLeaf(t, b, p), size', slack, n - 1)
  {
    LowTree(t, b, p);
    var t' := WithLeaf(t, b, p);
    CostOfMove(|t'|, t'[b].height, slack);
  }

  lemma {:induction false} CostOfMove(x: nat, top: nat, slack: nat)
    requires top < x
    ensures x * (2 * slack + 1) >= x + 2 * slack * top
  {
    Times(slack, top, x);
    assert 2 * slack * top == 2 * (slack * top) && x * (2 * slack + 1) == 2 * (slack * x) + x;
  }

  lemma {:induction false} LessSpace(store: ReachabilityStore, slack: nat, n: nat, m: nat)
    requires Roomy(store, slack, n) && m <= n
    ensures Roomy(store, slack, m)
  {
    var x, cost := |store.tree|, 3 * slack + 2;
    Times(x + n, m, n);
    Times(m, x + m, x + n);
    Times(cost, m * (x + m), n * (x + n));
  }

  lemma {:induction false} ValidMoved(store: ReachabilityStore, root: Hash)
    requires TreeOk(store.tree, store.labels, root) && PivotOk(store.tree, root, store.reindexRoot) &&
      store.cover.Keys == store.tree.Keys
    ensures TreeValid(store, root)
  {
  }
}
