/** What the index as a whole promises: tree ancestry together with the future covering sets
    answers reachability in the block DAG. */
module Covering {
  import opened Types
  import opened Intervals
  import opened Tree
  import opened Labels
  import opened Store
  import opened NewLeaf
  import opened Dag

  /** Some block of `items` is `b` or a tree ancestor of it. */
  ghost predicate Covered(t: Shape, items: seq<Hash>, b: Hash) {
    exists k :: 0 <= k < |items| && Anc(t, items[k], b)
  }

  ghost predicate Reached(t: Shape, cover: Cover, a: Hash, b: Hash)
    requires a in cover
  {
    Anc(t, a, b) || Covered(t, cover[a], b)
  }

  /** The index relates `a` and `b` exactly as the DAG does. */
  ghost predicate Linked(t: Shape, cover: Cover, past: Pasts, a: Hash, b: Hash) {
    a in cover && (Below(past, a, b) <==> Reached(t, cover, a, b))
  }

  ghost predicate CoverOk(iv: Labels, cover: Cover, a: Hash) {
    a in cover && Ordered(iv, cover[a])
  }

  ghost predicate PastKnown(past: Pasts, b: Hash)
    requires b in past
  {
    past[b] <= past.Keys
  }

  /** The invariant of the index: valid labels, ordered covering sets, exact reachability. */
  ghost predicate IndexOk(t: Shape, iv: Labels, cover: Cover, past: Pasts, root: Hash) {
    && TreeOk(t, iv, root)
    && cover.Keys == t.Keys == past.Keys
    && (forall a {:trigger CoverOk(iv, cover, a)} :: a in t ==> CoverOk(iv, cover, a))
    && (forall a, b {:trigger Linked(t, cover, past, a, b)} :: a in t && b in t ==> Linked(t, cover, past, a, b))
    && (forall b {:trigger PastKnown(past, b)} :: b in past ==> PastKnown(past, b))
  }

  lemma {:induction false} IndexParts(t: Shape, iv: Labels, cover: Cover, past: Pasts, root: Hash)
    requires IndexOk(t, iv, cover, past, root)
    ensures TreeOk(t, iv, root) && WellFormed(t, root) && root in t
    ensures cover.Keys == t.Keys == past.Keys == iv.Keys
  {
  }

  lemma {:induction false} CoverAt(t: Shape, iv: Labels, cover: Cover, past: Pasts, root: Hash, a: Hash)
    requires IndexOk(t, iv, cover, past, root) && a in t
    ensures a in cover && Ordered(iv, cover[a]) && forall x :: x in cover[a] ==> x in t
  {
    hide WellFormed, NodeOk;
    assert CoverOk(iv, cover, a);
  }

  // ---------- a new leaf ----------

  /** Taking a leaf away leaves the rest well labelled. */
  lemma {:induction false} LeafDropped(t: Shape, root: Hash, n: Hash, p: Hash, iv: Labels)
    requires WellFormed(t, root) && Fresh(t, n, p) && TreeOk(WithLeaf(t, n, p), iv, root)
    ensures TreeOk(t, iv - {n}, root)
  {
    var t', iv' := WithLeaf(t, n, p), iv - {n};
    hide WellFormed, RowInside;
    LeafKeysDropped(t, root, n, p, iv);
    forall h | h in t
      ensures NodeOk(t, iv', h)
    {
      assert NodeOk(t', iv, h);
      ChildrenInTree(t, root, h);
      RowDropped(iv, t[h].children, iv[h], n);
      if h == p {
        RowShortened(iv, t[h].children, n, iv[h]);
        RowDropped(iv, t[h].children, iv[h], n);
      }
    }
  }

  lemma {:induction false} LeafKeysDropped(t: Shape, root: Hash, n: Hash, p: Hash, iv: Labels)
    requires WellFormed(t, root) && Fresh(t, n, p) && TreeOk(WithLeaf(t, n, p), iv, root)
    ensures (iv - {n}).Keys == t.Keys && root in t && (iv - {n})[root].Valid()
  {
    hide NodeOk;
    assert WithLeaf(t, n, p).Keys == t.Keys + {n};
  }

  lemma {:induction false} RowDropped(iv: Labels, cs: seq<Hash>, box: Interval, n: Hash)
    requires n !in cs
    ensures RowInside(iv, cs, box) ==> RowInside(iv - {n}, cs, box)
  {
    if RowInside(iv, cs, box) {
      forall i | 0 <= i < |cs|
        ensures Labelled(iv - {n}, cs[i])
      {
        assert Labelled(iv, cs[i]);
      }
    }
  }

  lemma {:induction false} RowShortened(iv: Labels, cs: seq<Hash>, n: Hash, box: Interval)
    requires RowInside(iv, cs + [n], box)
    ensures RowInside(iv, cs, box)
  {
    var cs' := cs + [n];
    forall i | 0 <= i < |cs|
      ensures Labelled(iv, cs[i])
    {
      assert Labelled(iv, cs'[i]);
    }
    forall i, j | 0 <= i && j == i + 1 && j < |cs|
      ensures iv[cs[i]].end + 1 == iv[cs[j]].start
    {
      assert iv[cs'[i]].end + 1 == iv[cs'[j]].start;
    }
    if |cs| > 0 {
      assert cs'[0] == cs[0] && cs'[|cs| - 1] == cs[|cs| - 1] && cs'[|cs|] == n;
      assert Labelled(iv, cs'[|cs|]);
      assert iv[cs'[|cs| - 1]].end + 1 == iv[cs'[|cs|]].start;
    }
  }

  /** However the labels moved while the leaf was added, the old order of unrelated blocks stands. */
  lemma {:induction false} OrderKeptByLeaf(t: Shape, root: Hash, n: Hash, p: Hash, iv: Labels, iv': Labels,
                                           items: seq<Hash>)
    requires TreeOk(t, iv, root) && Fresh(t, n, p) && TreeOk(WithLeaf(t, n, p), iv', root) && Ordered(iv, items)
    ensures Ordered(iv', items)
  {
    LeafDropped(t, root, n, p, iv');
    RelabelledOrder(t, root, iv, iv' - {n}, items);
  }

  lemma {:induction false} RelabelledOrder(t: Shape, root: Hash, iv: Labels, iv': Labels, items: seq<Hash>)
    requires TreeOk(t, iv, root) && TreeOk(t, iv', root) && Ordered(iv, items)
    ensures Ordered(iv', items)
  {
    forall i, j | 0 <= i < j < |items|
      ensures iv'[items[i]].end < iv'[items[j]].start && iv'[items[i]].start < iv'[items[j]].start
    {
      OrderKept(t, iv, iv', root, items[i], items[j]);
      TreeContains(t, iv', root, items[i], items[j]);
    }
  }

  /** Moving labels changes no answer. */
  lemma {:induction false} RelabelledIndex(t: Shape, iv: Labels, iv': Labels, cover: Cover, past: Pasts, root: Hash)
    requires IndexOk(t, iv, cover, past, root) && TreeOk(t, iv', root)
    ensures IndexOk(t, iv', cover, past, root)
  {
    forall a | a in t
      ensures CoverOk(iv', cover, a)
    {
      CoverAt(t, iv, cover, past, root, a);
      RelabelledOrder(t, root, iv, iv', cover[a]);
    }
  }

  /** `s'` is `s` with `n` put in somewhere. */
  ghost predicate WithItem(s: seq<Hash>, s': seq<Hash>, n: Hash) {
    exists j :: 0 <= j <= |s| && s' == s[..j] + [n] + s[j..]
  }

  /** The covering set of `a` after `n` was inserted into those of `merged`. */
  ghost predicate CoverGrown(iv: Labels, cover: Cover, cover': Cover, n: Hash, merged: set<Hash>, a: Hash) {
    && a in cover && a in cover' && Ordered(iv, cover'[a])
    && if a in merged then WithItem(cover[a], cover'[a], n) else cover'[a] == cover[a]
  }

  lemma {:induction false} CoveredGrown(t: Shape, s: seq<Hash>, s': seq<Hash>, n: Hash, b: Hash)
    requires WithItem(s, s', n)
    ensures Covered(t, s', b) <==> Covered(t, s, b) || Anc(t, n, b)
  {
    var j :| 0 <= j <= |s| && s' == s[..j] + [n] + s[j..];
    if Covered(t, s', b) {
      var k :| 0 <= k < |s'| && Anc(t, s'[k], b);
      if k < j {
        assert s'[k] == s[k];
      } else if k > j {
        assert s'[k] == s[k - 1];
      }
    }
    if Anc(t, n, b) {
      assert s'[j] == n;
    }
    if Covered(t, s, b) {
      var k :| 0 <= k < |s| && Anc(t, s[k], b);
      if k < j {
        assert s'[k] == s[k];
      } else {
        assert s'[k + 1] == s[k];
      }
    }
  }

  /** Ancestry of old blocks is not touched by the leaf, so neither is coverage. */
  lemma {:induction false} CoveredWithLeaf(t: Shape, root: Hash, n: Hash, p: Hash, items: seq<Hash>, b: Hash)
    requires WellFormed(t, root) && Fresh(t, n, p) && b in t
    ensures Covered(WithLeaf(t, n, p), items, b) <==> Covered(t, items, b)
  {
    var t' := WithLeaf(t, n, p);
    forall k | 0 <= k < |items|
      ensures Anc(t', items[k], b) <==> Anc(t, items[k], b)
    {
      AncWithLeaf(t, root, n, p, items[k], b);
    }
    if Covered(t, items, b) {
      var k :| 0 <= k < |items| && Anc(t, items[k], b);
      assert Anc(t', items[k], b);
    }
    if Covered(t', items, b) {
      var k :| 0 <= k < |items| && Anc(t', items[k], b);
      assert Anc(t, items[k], b);
    }
  }

  lemma {:induction false} LeafCovered(t: Shape, root: Hash, n: Hash, p: Hash, items: seq<Hash>)
    requires WellFormed(t, root) && Fresh(t, n, p) && n !in items
    ensures Covered(WithLeaf(t, n, p), items, n) <==> Covered(t, items, p)
  {
    var t' := WithLeaf(t, n, p);
    forall k | 0 <= k < |items|
      ensures Anc(t', items[k], n) <==> Anc(t, items[k], p)
    {
      AncOfLeaf(t, root, n, p, items[k]);
    }
    if Covered(t, items, p) {
      var k :| 0 <= k < |items| && Anc(t, items[k], p);
      assert Anc(t', items[k], n);
    }
    if Covered(t', items, n) {
      var k :| 0 <= k < |items| && Anc(t', items[k], n);
      assert Anc(t, items[k], p);
    }
  }

  /** The past of a block that merges `merged` into the chain of `p`. */
  ghost function PastWith(past: Pasts, p: Hash, merged: set<Hash>): set<Hash>
    requires p in past
  {
    past[p] + {p} + merged
  }

  /** The new block is linked to every block, and the old blocks stay linked. */
  lemma {:induction false} LinkedWithLeaf(t: Shape, iv: Labels, cover: Cover, past: Pasts, root: Hash, n: Hash,
                                          p: Hash, merged: set<Hash>,
                                          iv': Labels, cover': Cover, a: Hash, b: Hash)
    requires IndexOk(t, iv, cover, past, root) && Fresh(t, n, p) && p in past && merged <= t.Keys
    requires a in t && CoverGrown(iv', cover, cover', n, merged, a)
    requires b == n || b in t
    ensures Linked(WithLeaf(t, n, p), cover', past[n := PastWith(past, p, merged)], a, b)
  {
    IndexParts(t, iv, cover, past, root);
    CoverAt(t, iv, cover, past, root, a);
    var t', past' := WithLeaf(t, n, p), past[n := PastWith(past, p, merged)];
    hide IndexOk, WellFormed, TreeOk, CoverOk;
    assert Linked(t, cover, past, a, p) && (b in t ==> Linked(t, cover, past, a, b)) by {
      LinkedAt(t, iv, cover, past, root, a, p);
      if b in t {
        LinkedAt(t, iv, cover, past, root, a, b);
      }
    }
    if a in merged {
      CoveredGrown(t', cover[a], cover'[a], n, b);
    }
    AncOfLeaf(t, root, n, p, a);
    LeafCovered(t, root, n, p, cover[a]);
    if b in t {
      AncWithLeaf(t, root, n, p, a, b);
      AncWithLeaf(t, root, n, p, n, b);
      CoveredWithLeaf(t, root, n, p, cover[a], b);
      NotBelow(t, n, b);
    } else {
      assert Anc(t', n, n);
    }
  }

  lemma {:induction false} NotBelow(t: Shape, n: Hash, b: Hash)
    requires n !in t
    ensures !Anc(t, n, b)
  {
    if Anc(t, n, b) {
      AncHeight(t, n, b);
    }
  }

  lemma {:induction false} LinkedAt(t: Shape, iv: Labels, cover: Cover, past: Pasts, root: Hash, a: Hash, b: Hash)
    requires IndexOk(t, iv, cover, past, root) && a in t && b in t
    ensures Linked(t, cover, past, a, b) && past[b] <= t.Keys
  {
    assert PastKnown(past, b);
    hide TreeOk, CoverOk;
  }

  /** Nothing lies below the new block but itself. */
  lemma {:induction false} LeafLinked(t: Shape, iv: Labels, cover: Cover, past: Pasts, root: Hash, n: Hash, p: Hash,
                                      merged: set<Hash>, cover': Cover, b: Hash)
    requires IndexOk(t, iv, cover, past, root) && Fresh(t, n, p) && p in past && merged <= t.Keys
    requires n in cover' && cover'[n] == []
    requires b == n || b in t
    ensures Linked(WithLeaf(t, n, p), cover', past[n := PastWith(past, p, merged)], n, b)
  {
    IndexParts(t, iv, cover, past, root);
    var t' := WithLeaf(t, n, p);
    if b in t {
      LinkedAt(t, iv, cover, past, root, p, b);
      hide IndexOk, WellFormed, TreeOk, CoverOk;
      AncWithLeaf(t, root, n, p, n, b);
      NotBelow(t, n, b);
    } else {
      assert Anc(t', n, n);
    }
  }

  lemma {:induction false} GrownKeys(t: Shape, n: Hash, p: Hash)
    requires Fresh(t, n, p)
    ensures WithLeaf(t, n, p).Keys == t.Keys + {n}
  {
  }

  lemma {:induction false} GrownPast(t: Shape, iv: Labels, cover: Cover, past: Pasts, root: Hash, n: Hash, p: Hash,
                                     merged: set<Hash>, b: Hash)
    requires IndexOk(t, iv, cover, past, root) && Fresh(t, n, p) && p in past && merged <= t.Keys && (b == n || b in t)
    ensures var past' := past[n := PastWith(past, p, merged)]; past'.Keys == t.Keys + {n} && PastKnown(past', b)
  {
    hide TreeOk, CoverOk;
    assert PastKnown(past, p) && (b in t ==> PastKnown(past, b));
  }

  lemma {:induction false} IndexAssembled(t: Shape, iv: Labels, cover: Cover, past: Pasts, root: Hash)
    requires TreeOk(t, iv, root) && cover.Keys == t.Keys == past.Keys
    requires forall a, b {:trigger Linked(t, cover, past, a, b)} :: a in t.Keys && b in t.Keys ==>
      Linked(t, cover, past, a, b) && CoverOk(iv, cover, a) && PastKnown(past, b)
    ensures IndexOk(t, iv, cover, past, root)
  {
    hide TreeOk, Linked, CoverOk, PastKnown;
    forall a | a in t
      ensures CoverOk(iv, cover, a) && PastKnown(past, a)
    {
      assert Linked(t, cover, past, a, a);
    }
  }

  lemma {:induction false} GrownLink(t: Shape, iv: Labels, cover: Cover, past: Pasts, root: Hash, n: Hash, p: Hash,
                                     merged: set<Hash>,
                                     iv': Labels, cover': Cover, a: Hash, b: Hash)
    requires IndexOk(t, iv, cover, past, root) && Fresh(t, n, p) && p in past && merged <= t.Keys
    requires n in cover' && cover'[n] == [] && (a == n || (a in t && CoverGrown(iv', cover, cover', n, merged, a))) &&
      (b == n || b in t)
    ensures Linked(WithLeaf(t, n, p), cover', past[n := PastWith(past, p, merged)], a, b) && CoverOk(iv', cover', a)
    ensures PastKnown(past[n := PastWith(past, p, merged)], b)
  {
    GrownPast(t, iv, cover, past, root, n, p, merged, b);
    hide IndexOk, Linked, WithLeaf, PastWith, PastKnown;
    if a == n {
      LeafLinked(t, iv, cover, past, root, n, p, merged, cover', b);
    } else {
      LinkedWithLeaf(t, iv, cover, past, root, n, p, merged, iv', cover', a, b);
    }
  }

  ghost predicate GrownAt(iv': Labels, cover: Cover, cover': Cover, n: Hash, merged: set<Hash>, a: Hash) {
    a == n || CoverGrown(iv', cover, cover', n, merged, a)
  }

  /** The whole index with the new block in it. */
  lemma {:induction false} IndexGrown(t: Shape, iv: Labels, cover: Cover, past: Pasts, root: Hash, n: Hash, p: Hash,
                                      merged: set<Hash>, iv': Labels, cover': Cover)
    requires IndexOk(t, iv, cover, past, root) && Fresh(t, n, p) && p in past && merged <= t.Keys
    requires TreeOk(WithLeaf(t, n, p), iv', root) && cover'.Keys == t.Keys + {n} && cover'[n] == []
    requires forall a {:trigger GrownAt(iv', cover, cover', n, merged, a)} :: a in t ==>
      GrownAt(iv', cover, cover', n, merged, a)
    ensures IndexOk(WithLeaf(t, n, p), iv', cover', past[n := PastWith(past, p, merged)], root)
  {
    var t', past' := WithLeaf(t, n, p), past[n := PastWith(past, p, merged)];
    GrownKeys(t, n, p);
    GrownPast(t, iv, cover, past, root, n, p, merged, n);
    hide IndexOk, WithLeaf, TreeOk, Linked, PastKnown, CoverGrown, CoverOk, PastWith, WellFormed;
    forall a, b | a in t'.Keys && b in t'.Keys
      ensures Linked(t', cover', past', a, b) && CoverOk(iv', cover', a) && PastKnown(past', b)
    {
      assert a in t ==> GrownAt(iv', cover, cover', n, merged, a);
      GrownLink(t, iv, cover, past, root, n, p, merged, iv', cover', a, b);
    }
    IndexAssembled(t', iv', cover', past', root);
  }
}
