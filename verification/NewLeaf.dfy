/** A block appended below its selected parent, before and after it gets labels. */
module NewLeaf {
  import opened Types
  import opened Intervals
  import opened Tree
  import opened Labels
  import opened Relabel
  import opened Sliding
  import opened ChainPath
  import opened Store

  /** The tree with `n` appended as the last child of `p`. */
  function WithLeaf(t: Shape, n: Hash, p: Hash): Shape
    requires p in t
  {
    t[p := t[p].(children := t[p].children + [n])][n := TreeNode(p, [], t[p].height + 1)]
  }

  ghost predicate Fresh(t: Shape, n: Hash, p: Hash) {
    p in t && n !in t && n != NONE
  }

  lemma {:induction false} LeafWellFormed(t: Shape, root: Hash, n: Hash, p: Hash)
    requires WellFormed(t, root) && Fresh(t, n, p)
    ensures WellFormed(WithLeaf(t, n, p), root)
  {
    var t' := WithLeaf(t, n, p);
    forall h | h in t' && h != root
      ensures HangsOn(t', h, t'[h].parent)
    {
      if h == n {
        assert t'[p].children[|t[p].children|] == n;
      } else {
        assert HangsOn(t, h, t[h].parent);
        if t[h].parent == p {
          var i :| 0 <= i < |t[p].children| && t[p].children[i] == h;
          assert t'[p].children[i] == h;
        }
      }
    }
    forall h, i | h in t' && 0 <= i < |t'[h].children|
      ensures IsChild(t', h, t'[h].children[i])
    {
      if h != n && i < |t[h].children| {
        assert IsChild(t, h, t[h].children[i]);
      }
    }
    forall h, i, j | h in t' && 0 <= i < j < |t'[h].children|
      ensures t'[h].children[i] != t'[h].children[j]
    {
      if h == p && j == |t[p].children| {
        assert IsChild(t, h, t[h].children[i]);
      }
    }
  }

  /** Ancestry among the old blocks is as before. */
  lemma {:induction false} AncWithLeaf(t: Shape, root: Hash, n: Hash, p: Hash, a: Hash, b: Hash)
    requires WellFormed(t, root) && Fresh(t, n, p) && b in t
    ensures Anc(WithLeaf(t, n, p), a, b) <==> Anc(t, a, b)
    decreases t[b].height
  {
    if b != root {
      assert HangsOn(t, b, t[b].parent);
      AncWithLeaf(t, root, n, p, a, t[b].parent);
    }
  }

  /** The new leaf is below exactly what its parent is below. */
  lemma {:induction false} AncOfLeaf(t: Shape, root: Hash, n: Hash, p: Hash, a: Hash)
    requires WellFormed(t, root) && Fresh(t, n, p)
    ensures Anc(WithLeaf(t, n, p), a, n) <==> a == n || Anc(t, a, p)
  {
    AncWithLeaf(t, root, n, p, a, p);
  }

  /** `iv` labels the tree with the new leaf, where only the leaf's interval is still empty, at the
      very end of what its parent can give. */
  ghost predicate Pending(t: Shape, iv: Labels, root: Hash, n: Hash, p: Hash, iv': Labels)
    requires p in t
  {
    && TreeOk(t, iv, root) && Fresh(t, n, p)
    && iv' == iv[n := Interval(iv[p].end, iv[p].end - 1)]
    && (|t[p].children| > 0 ==> iv[t[p].children[|t[p].children| - 1]].end == iv[p].end - 1)
    && (|t[p].children| == 0 ==> iv[p].start == iv[p].end)
  }

  lemma {:induction false} LeafLookup(t: Shape, n: Hash, p: Hash, h: Hash)
    requires Fresh(t, n, p) && h in t
    ensures var t' := WithLeaf(t, n, p); h in t' && (h != p ==> t'[h] == t[h])
  {
  }

  lemma {:induction false} LabelledSame(iv: Labels, iv': Labels, h: Hash)
    requires Labelled(iv, h) && h in iv' && iv'[h] == iv[h]
    ensures Labelled(iv', h)
  {
  }

  /** Every old block but the parent keeps its good row. */
  lemma {:induction false} PendingOthers(t: Shape, iv: Labels, root: Hash, n: Hash, p: Hash, iv': Labels, h: Hash)
    requires WellFormed(t, root) && p in t && Pending(t, iv, root, n, p, iv') && h in t && h != p
    ensures h in WithLeaf(t, n, p) && NodeOk(WithLeaf(t, n, p), iv', h)
  {
    hide WellFormed, Adjacent, Labelled;
    LeafLookup(t, n, p, h);
    ChildrenInTree(t, root, h);
    assert NodeOk(t, iv, h);
    LabelledSame(iv, iv', h);
    RowSame(iv, iv', t[h].children);
  }

  /** Children in order inside `box`, of which only the last may be without labels. */
  ghost predicate LooseInside(iv: Labels, cs: seq<Hash>, box: Interval) {
    && box.start <= box.end && LooseRow(iv, cs)
    && (|cs| > 0 ==> box.start <= iv[cs[0]].start && iv[cs[|cs| - 1]].end < box.end)
    && forall i :: 0 <= i < |cs| - 1 ==> iv[cs[i]].start <= iv[cs[i]].end
  }

  lemma {:induction false} NodeLoose(iv: Labels, cs: seq<Hash>, box: Interval)
    requires RowInside(iv, cs, box) && box.start <= box.end
    ensures LooseInside(iv, cs, box)
  {
    forall i | 0 <= i < |cs|
      ensures iv[cs[i]].start <= iv[cs[i]].end
    {
      assert Labelled(iv, cs[i]);
    }
  }

  /** The parent's row ends in the empty interval of the new leaf. */
  lemma {:induction false} LeafLoose(iv: Labels, cs: seq<Hash>, box: Interval, n: Hash, iv': Labels)
    requires RowInside(iv, cs, box) && box.start <= box.end && n !in cs
    requires iv' == iv[n := Interval(box.end, box.end - 1)]
    requires |cs| > 0 ==> iv[cs[|cs| - 1]].end == box.end - 1
    requires |cs| == 0 ==> box.start == box.end
    ensures LooseInside(iv', cs + [n], box)
  {
    var cs' := cs + [n];
    NodeLoose(iv, cs, box);
    forall i, j | 0 <= i && j == i + 1 && j < |cs'|
      ensures iv'[cs'[i]].end + 1 == iv'[cs'[j]].start
    {
      if j < |cs| {
        assert iv[cs[i]].end + 1 == iv[cs[j]].start;
      }
    }
  }

  /** Putting in order a subtree that holds the new leaf puts the whole tree in order. */
  lemma {:induction false} Restored(t: Shape, iv: Labels, root: Hash, n: Hash, p: Hash, mid: Labels, top: Hash,
                                    iv': Labels)
    requires WellFormed(t, root) && p in t && Pending(t, iv, root, n, p, mid)
    requires var t' := WithLeaf(t, n, p);
      Anc(t', top, p) && SubtreeOk(t', iv', top) && SameExcept(mid, iv', Subtree(t', top) - {top})
    ensures TreeOk(WithLeaf(t, n, p), iv', root) && iv'[root] == iv[root]
  {
    var t' := WithLeaf(t, n, p);
    LeafWellFormed(t, root, n, p);
    AncHeight(t', top, p);
    hide WellFormed, NodeOk, Anc;
    forall h | h in t'
      ensures NodeOk(t', iv', h)
    {
      if !Anc(t', top, h) {
        RestoredNode(t, iv, root, n, p, mid, top, iv', h);
      }
    }
    PendingKeys(t, iv, root, n, p, mid);
    hide WithLeaf, Pending, SubtreeOk, Subtree;
    RootKept(t', root, top, mid, iv');
  }

  lemma {:induction false} PendingKeys(t: Shape, iv: Labels, root: Hash, n: Hash, p: Hash, mid: Labels)
    requires WellFormed(t, root) && p in t && Pending(t, iv, root, n, p, mid)
    ensures mid.Keys == WithLeaf(t, n, p).Keys && root in t && mid[root] == iv[root] && iv[root].Valid()
  {
  }

  lemma {:induction false} RootKept(t: Shape, root: Hash, top: Hash, mid: Labels, iv': Labels)
    requires WellFormed(t, root) && top in t && root in mid && SameExcept(mid, iv', Subtree(t, top) - {top})
    ensures iv'[root] == mid[root]
  {
    RootAnc(t, root, top);
    if Anc(t, top, root) {
      AncHeight(t, top, root);
      AncHeight(t, root, top);
    }
  }

  lemma {:induction false} RestoredNode(t: Shape, iv: Labels, root: Hash, n: Hash, p: Hash, mid: Labels, top: Hash,
                                        iv': Labels, h: Hash)
    requires WellFormed(t, root) && p in t && Pending(t, iv, root, n, p, mid)
    requires var t' := WithLeaf(t, n, p);
      && WellFormed(t', root) && Anc(t', top, p) && SameExcept(mid, iv', Subtree(t', top) - {top}) && h in t' &&
        !Anc(t', top, h)
    ensures NodeOk(WithLeaf(t, n, p), iv', h)
  {
    hide WellFormed, NodeOk, TreeOk;
    var t' := WithLeaf(t, n, p);
    BelowTop(t', root, top);
    assert h != n && h != p by {
      assert Anc(t', p, n) by {
        AncOfLeaf(t, root, n, p, p);
      }
      AncTrans(t', top, p, n);
    }
    PendingOthers(t, iv, root, n, p, mid, h);
    UntouchedNode(t', mid, iv', root, top, h, Subtree(t', top) - {top});
  }

  lemma {:induction false} BelowTop(t: Shape, root: Hash, top: Hash)
    requires WellFormed(t, root)
    ensures var s := Subtree(t, top) - {top};
      forall x :: x in s ==> x in t && t[x].parent in t && (t[x].parent == top || t[x].parent in s)
  {
    var s := Subtree(t, top) - {top};
    forall x | x in s
      ensures x in t && t[x].parent in t && (t[x].parent == top || t[x].parent in s)
    {
      AncHeight(t, top, x);
      assert Anc(t, top, t[x].parent);
    }
  }

  /** Where a branch that holds the new leaf hangs off: its siblings are in order. */
  lemma {:induction false} PendingBranch(t: Shape, iv: Labels, root: Hash, n: Hash, p: Hash, mid: Labels, common: Hash,
                                         a: nat)
    requires WellFormed(t, root) && p in t && Pending(t, iv, root, n, p, mid) && WellFormed(WithLeaf(t, n, p), root)
    requires var t' := WithLeaf(t, n, p);
      common in t && a < |t'[common].children| && Anc(t', t'[common].children[a], n)
    ensures mid.Keys == WithLeaf(t, n, p).Keys
    ensures OneBad(WithLeaf(t, n, p), mid, common, a) && mid[common].Valid()
    ensures LooseRow(mid, WithLeaf(t, n, p)[common].children)
    ensures Ordered(mid, WithLeaf(t, n, p)[common].children)
  {
    hide WithLeaf, Pending, WellFormed, NodeOk, Anc, TreeOk;
    PendingFresh(t, iv, root, n, p, mid, common);
    var t' := WithLeaf(t, n, p);
    var cs := t'[common].children;
    PendingKeys(t, iv, root, n, p, mid);
    PendingRow(t, iv, root, n, p, mid, common);
    forall j | 0 <= j < |cs| && j != a
      ensures SubtreeOk(t', mid, cs[j])
    {
      PendingSibling(t, iv, root, n, p, mid, common, a, j);
    }
    PendingOrder(mid, cs);
    PendingValid(t, iv, root, n, p, mid, common);
  }

  lemma {:induction false} PendingValid(t: Shape, iv: Labels, root: Hash, n: Hash, p: Hash, mid: Labels, h: Hash)
    requires WellFormed(t, root) && p in t && Pending(t, iv, root, n, p, mid) && h in t
    ensures h in mid && mid[h].Valid() && mid[h].start <= mid[h].end
  {
    RootAnc(t, root, h);
    TreeSubtree(t, iv, root);
    LabelValid(t, iv, root, root, h);
  }

  lemma {:induction false} TreeSubtree(t: Shape, iv: Labels, root: Hash)
    requires TreeOk(t, iv, root)
    ensures SubtreeOk(t, iv, root)
  {
  }

  lemma {:induction false} PendingRow(t: Shape, iv: Labels, root: Hash, n: Hash, p: Hash, mid: Labels, h: Hash)
    requires WellFormed(t, root) && p in t && Pending(t, iv, root, n, p, mid) && h in t
    ensures h in WithLeaf(t, n, p) && mid[h] == iv[h] && LooseInside(mid, WithLeaf(t, n, p)[h].children, mid[h])
  {
    hide RowInside, LooseInside, WellFormed;
    if h == p {
      assert NodeOk(t, iv, p);
      ChildrenInTree(t, root, p);
      LeafLoose(iv, t[p].children, iv[p], n, mid);
    } else {
      PendingOthers(t, iv, root, n, p, mid, h);
      NodeLoose(mid, t[h].children, mid[h]);
    }
  }

  lemma {:induction false} ChildrenInTree(t: Shape, root: Hash, p: Hash)
    requires WellFormed(t, root) && p in t
    ensures forall c :: c in t[p].children ==> c in t
  {
    forall c | c in t[p].children
      ensures c in t
    {
      var i :| 0 <= i < |t[p].children| && t[p].children[i] == c;
      assert IsChild(t, p, c);
    }
  }

  lemma {:induction false} PendingOrder(mid: Labels, cs: seq<Hash>)
    requires LooseRow(mid, cs) && forall i :: 0 <= i < |cs| - 1 ==> mid[cs[i]].start <= mid[cs[i]].end
    ensures Ordered(mid, cs)
  {
    forall i, j | 0 <= i < j < |cs|
      ensures mid[cs[i]].end < mid[cs[j]].start && mid[cs[i]].start < mid[cs[j]].start
    {
      LooseSorted(mid, cs, i, j);
    }
  }

  lemma {:induction false} PendingSibling(t: Shape, iv: Labels, root: Hash, n: Hash, p: Hash, mid: Labels,
                                          common: Hash, a: nat, j: nat)
    requires WellFormed(t, root) && p in t && Pending(t, iv, root, n, p, mid) && WellFormed(WithLeaf(t, n, p), root)
    requires var t' := WithLeaf(t, n, p);
      common in t && a < |t'[common].children| && j < |t'[common].children| && j != a &&
        Anc(t', t'[common].children[a], n)
    ensures SubtreeOk(WithLeaf(t, n, p), mid, WithLeaf(t, n, p)[common].children[j])
  {
    var t' := WithLeaf(t, n, p);
    var c, d := t'[common].children[j], t'[common].children[a];
    hide WellFormed, NodeOk, TreeOk;
    forall h | h in t' && Anc(t', c, h)
      ensures NodeOk(t', mid, h)
    {
      assert h != n && h != p by {
        if Anc(t', c, n) {
          SiblingsApart(t', root, common, a, j, n);
        }
        AncOfLeaf(t, root, n, p, c);
        AncWithLeaf(t, root, n, p, c, p);
      }
      PendingOthers(t, iv, root, n, p, mid, h);
    }
  }

  /** Labels decide ancestry among the old blocks while the new leaf is pending. */
  lemma {:induction false} PendingAncestry(t: Shape, iv: Labels, root: Hash, n: Hash, p: Hash, mid: Labels, a: Hash,
                                           b: Hash)
    requires WellFormed(t, root) && p in t && Pending(t, iv, root, n, p, mid) && a in t && b in t
    ensures a in mid && b in mid
    ensures mid[a].StrictlyContains(mid[b]) <==> Anc(WithLeaf(t, n, p), a, b) && a != b
  {
    TreeContains(t, iv, root, a, b);
    AncWithLeaf(t, root, n, p, a, b);
  }

  /** The reindex root: the tree root, or a block with children. */
  ghost predicate PivotOk(t: Shape, root: Hash, pivot: Hash) {
    pivot in t && (pivot == root || |t[pivot].children| > 0)
  }

  /** The branch at `a` that holds the new leaf hangs off the chain to the reindex root, and the
      labels it needs can be reclaimed from the chain. */
  lemma {:induction false} BranchReady(t: Shape, iv: Labels, root: Hash, n: Hash, p: Hash, mid: Labels, common: Hash,
                                       a: nat, k: nat, pivot: Hash, required: int)
    requires WellFormed(t, root) && p in t && Pending(t, iv, root, n, p, mid) && WellFormed(WithLeaf(t, n, p), root) &&
      PivotOk(t, root, pivot)
    requires var t' := WithLeaf(t, n, p);
      && common in t && a < |t'[common].children| && Anc(t', t'[common].children[a], n) &&
        !Anc(t', t'[common].children[a], pivot)
      && k < |t'[common].children| && Anc(t', t'[common].children[k], pivot) && Anc(t', common, pivot) &&
        common != pivot
      && required == |Subtree(t', t'[common].children[a])|
    ensures mid.Keys == WithLeaf(t, n, p).Keys
    ensures var t' := WithLeaf(t, n, p); var cs := t'[common].children;
      var side := if mid[cs[a]].start < mid[cs[k]].start then Low else High;
      ReclaimReady(t', mid, side, common, a, k, pivot, required)
  {
    hide WithLeaf, Pending, WellFormed, Anc, OneBad, LooseRow, Subtree, PivotOk, Ordered;
    PendingFresh(t, iv, root, n, p, mid, common);
    var t' := WithLeaf(t, n, p);
    var cs := t'[common].children;
    PendingBranch(t, iv, root, n, p, mid, common, a);
    PivotBelow(t', root, common, pivot);
    PivotKids(t, root, n, p, pivot);
    LooseAt(mid, cs, a);
    SubtreeNonEmpty(t', cs[a]);
    SideOfBranch(mid, cs, a, k);
  }

  lemma {:induction false} PendingFresh(t: Shape, iv: Labels, root: Hash, n: Hash, p: Hash, mid: Labels, h: Hash)
    requires p in t && Pending(t, iv, root, n, p, mid) && h in t
    ensures n !in t && h in WithLeaf(t, n, p)
  {
  }

  lemma {:induction false} PivotKids(t: Shape, root: Hash, n: Hash, p: Hash, pivot: Hash)
    requires p in t && PivotOk(t, root, pivot) && pivot != root && n !in t
    ensures var t' := WithLeaf(t, n, p); pivot in t' && |t'[pivot].children| > 0
  {
  }

  lemma {:induction false} SideOfBranch(iv: Labels, cs: seq<Hash>, a: nat, k: nat)
    requires Ordered(iv, cs) && a < |cs| && k < |cs| && a != k
    ensures iv[cs[a]].start < iv[cs[k]].start <==> a < k
  {
  }

  lemma {:induction false} LooseAt(iv: Labels, cs: seq<Hash>, a: nat)
    requires LooseRow(iv, cs) && a < |cs|
    ensures cs[a] in iv && iv[cs[a]].start <= iv[cs[a]].end + 1
  {
  }

  lemma {:induction false} PivotBelow(t: Shape, root: Hash, common: Hash, pivot: Hash)
    requires WellFormed(t, root) && Anc(t, common, pivot) && common != pivot
    ensures pivot != root && pivot in t
  {
    AncHeight(t, common, pivot);
    RootAnc(t, root, common);
    AncHeight(t, root, common);
  }

  // ---------- climbing from the new leaf ----------

  /** The climb stands at an ancestor of `n` that is not above the reindex root. */
  ghost predicate Climbed(t: Shape, n: Hash, pivot: Hash, current: Hash) {
    current in t && Anc(t, current, n) && (current == pivot || !Anc(t, current, pivot))
  }

  lemma {:induction false} ClimbStarts(t: Shape, root: Hash, n: Hash, p: Hash, pivot: Hash)
    requires WellFormed(t, root) && Fresh(t, n, p) && pivot in t
    ensures Climbed(WithLeaf(t, n, p), n, pivot, n)
  {
    AncWithLeaf(t, root, n, p, n, pivot);
    if Anc(t, n, pivot) {
      AncHeight(t, n, pivot);
    }
  }

  /** With enough labels at the reindex root the climb is never stuck there or at the tree root. */
  lemma {:induction false} ClimbCapacity(t: Shape, iv: Labels, root: Hash, n: Hash, p: Hash, mid: Labels, pivot: Hash,
                                         current: Hash, slack: nat)
    requires WellFormed(t, root) && p in t && Pending(t, iv, root, n, p, mid) && pivot in t &&
      WellFormed(WithLeaf(t, n, p), root)
    requires Climbed(WithLeaf(t, n, p), n, pivot, current) && current in mid &&
      mid[current].Size() < |Subtree(WithLeaf(t, n, p), current)|
    ensures pivot in iv &&
      (iv[pivot].Size() >= |WithLeaf(t, n, p)| + slack * t[pivot].height ==>
      WithLeaf(t, n, p)[current].parent != NONE && current != pivot)
  {
    var t' := WithLeaf(t, n, p);
    RootAnc(t, root, pivot);
    TreeContains(t, iv, root, root, pivot);
    SubtreeSmall(t', current);
    Product(slack, t[pivot].height);
    if current != root {
      assert HangsOn(t', current, t'[current].parent);
    }
  }

  lemma {:induction false} SubtreeSmall(t: Shape, h: Hash)
    ensures |Subtree(t, h)| <= |t|
  {
    SubsetCount(Subtree(t, h), t.Keys);
  }

  lemma {:induction false} ClimbUp(t: Shape, iv: Labels, root: Hash, n: Hash, p: Hash, mid: Labels, pivot: Hash,
                                   current: Hash)
    requires WellFormed(t, root) && p in t && Pending(t, iv, root, n, p, mid) && pivot in t &&
      WellFormed(WithLeaf(t, n, p), root)
    requires var t' := WithLeaf(t, n, p);
      Climbed(t', n, pivot, current) && t'[current].parent != NONE && current != pivot
    ensures var t' := WithLeaf(t, n, p); var parent := t'[current].parent;
      && parent in t && parent in t' && parent in mid && pivot in mid && t'[parent].height < t'[current].height
      && !Anc(t', current, pivot) && Anc(t', current, n)
      && (mid[parent].StrictlyContains(mid[pivot]) <==> Anc(t', parent, pivot) && parent != pivot)
      && (!mid[parent].StrictlyContains(mid[pivot]) ==> Climbed(t', n, pivot, parent))
  {
    var t' := WithLeaf(t, n, p);
    var parent := t'[current].parent;
    assert current != root;
    assert HangsOn(t', current, parent);
    assert parent in t by {
      assert t'[n].children == [];
    }
    PendingAncestry(t, iv, root, n, p, mid, parent, pivot);
    assert Anc(t', parent, current);
    AncTrans(t', parent, current, n);
  }

  lemma {:induction false} ClimbDone(t: Shape, iv: Labels, root: Hash, n: Hash, p: Hash, mid: Labels, pivot: Hash,
                                     current: Hash)
    requires WellFormed(t, root) && p in t && Pending(t, iv, root, n, p, mid) && WellFormed(WithLeaf(t, n, p), root)
    requires var t' := WithLeaf(t, n, p);
      Climbed(t', n, pivot, current) && current in mid && mid[current].Size() >= |Subtree(t', current)|
    ensures Anc(WithLeaf(t, n, p), current, p) && mid[current].Valid()
  {
    hide WithLeaf, TreeOk, WellFormed, Anc;
    var t' := WithLeaf(t, n, p);
    SubtreeNonEmpty(t', current);
    assert mid[n].Size() == 0;
    AncOfLeaf(t, root, n, p, current);
    AncWithLeaf(t, root, n, p, current, p);
    AncHeight(t, current, p);
    PendingValid(t, iv, root, n, p, mid, current);
  }

  /** The branch and the reindex root's subtree share no block. */
  lemma {:induction false} BranchApart(t: Shape, root: Hash, common: Hash, branch: Hash, pivot: Hash)
    requires WellFormed(t, root) && branch in t && t[branch].parent == common && common in t && pivot in t
    requires Anc(t, common, pivot) && common != pivot && !Anc(t, branch, pivot)
    ensures |Subtree(t, branch)| + |Subtree(t, pivot)| <= |t|
  {
    forall x | x in Subtree(t, branch) && x in Subtree(t, pivot)
      ensures false
    {
      AncLinear(t, branch, pivot, x);
      AncHeight(t, common, pivot);
      if Anc(t, pivot, common) {
        AncHeight(t, pivot, common);
      }
    }
    DisjointSize(Subtree(t, branch), Subtree(t, pivot));
    SubsetCount(Subtree(t, branch) + Subtree(t, pivot), t.Keys);
  }
}
