/** Moving the reindex root: along the way down, every chain block keeps only what its other
    children need and hands the rest to the next chain block. */
module Concentrate {
  import opened Types
  import opened Intervals
  import opened Tree
  import opened Labels
  import opened Counting
  import opened Relabel
  import opened Sliding

  /** The children of `p` are in order among themselves, and so is everything below them, though
      perhaps not inside `p`'s own interval. */
  ghost predicate Stale(t: Shape, iv: Labels, p: Hash)
    requires p in t
  {
    && Row(iv, t[p].children)
    && forall j :: 0 <= j < |t[p].children| ==> SubtreeOk(t, iv, t[p].children[j])
  }

  lemma {:induction false} StaleFromOk(t: Shape, iv: Labels, root: Hash, p: Hash)
    requires WellFormed(t, root) && p in t && SubtreeOk(t, iv, p)
    ensures Stale(t, iv, p)
  {
    assert Anc(t, p, p);
    assert NodeOk(t, iv, p);
    forall j | 0 <= j < |t[p].children|
      ensures SubtreeOk(t, iv, t[p].children[j])
    {
      SubtreeOkBelow(t, iv, root, p, j);
    }
  }

  // ---------- packing a run of siblings ----------

  ghost function Run(t: Shape, cs: seq<Hash>, lo: int, hi: int): set<Hash> {
    set x | x in t && exists j :: 0 <= j < |cs| && lo <= j < hi && Anc(t, cs[j], x)
  }

  /** The siblings from `lo` up to `i` carry the given intervals, and all is well below them. */
  ghost predicate Packed(t: Shape, iv: Labels, iv': Labels, cs: seq<Hash>, lo: nat, i: int, parts: seq<Interval>) {
    && SameExcept(iv, iv', Run(t, cs, lo, i))
    && lo <= i <= |cs| && i - lo <= |parts|
    && forall j :: lo <= j < i ==> cs[j] in iv' && iv'[cs[j]] == parts[j - lo] && SubtreeOk(t, iv', cs[j])
  }

  lemma {:induction false} PackOne(t: Shape, root: Hash, iv: Labels, mid: Labels, iv': Labels, p: Hash, lo: nat,
                                   i: int, parts: seq<Interval>)
    requires WellFormed(t, root) && p in t && iv.Keys == t.Keys == mid.Keys
    requires Packed(t, iv, mid, t[p].children, lo, i, parts) && i < |t[p].children| && i - lo < |parts|
    requires var c := t[p].children[i];
      SameExcept(mid, iv', Subtree(t, c)) && c in iv' && iv'[c] == parts[i - lo] && SubtreeOk(t, iv', c)
    ensures Packed(t, iv, iv', t[p].children, lo, i + 1, parts)
  {
    hide WellFormed, Anc, SubtreeOk, Run, Subtree;
    var cs := t[p].children;
    forall j | lo <= j < i
      ensures cs[j] in iv' && iv'[cs[j]] == parts[j - lo] && SubtreeOk(t, iv', cs[j])
    {
      SiblingKept(t, root, mid, iv', p, i, j);
    }
    RunGrows(t, cs, lo, i);
    ChangesAdd(iv, mid, iv', Run(t, cs, lo, i), Subtree(t, cs[i]), Run(t, cs, lo, i + 1));
  }

  lemma {:induction false} RunGrows(t: Shape, cs: seq<Hash>, lo: nat, i: int)
    requires lo <= i < |cs|
    ensures Run(t, cs, lo, i) + Subtree(t, cs[i]) <= Run(t, cs, lo, i + 1)
  {
  }

  lemma {:induction false} PackStarts(t: Shape, iv: Labels, cs: seq<Hash>, lo: nat, parts: seq<Interval>)
    requires lo <= |cs|
    ensures Packed(t, iv, iv, cs, lo, lo, parts)
  {
  }

  /** Siblings outside the run are not affected. */
  lemma {:induction false} OutsideRun(t: Shape, root: Hash, iv: Labels, iv': Labels, p: Hash, lo: int, hi: int, j: nat)
    requires WellFormed(t, root) && p in t && iv.Keys == t.Keys && j < |t[p].children| && !(lo <= j < hi)
    requires SameExcept(iv, iv', Run(t, t[p].children, lo, hi))
    ensures t[p].children[j] in t
    ensures forall h :: h in t && Anc(t, t[p].children[j], h) ==> iv'[h] == iv[h]
    ensures iv'[t[p].children[j]] == iv[t[p].children[j]]
    ensures SubtreeOk(t, iv, t[p].children[j]) ==> SubtreeOk(t, iv', t[p].children[j])
  {
    var cs := t[p].children;
    ChildAnc(t, root, p, j);
    forall h | h in t && Anc(t, cs[j], h)
      ensures iv'[h] == iv[h]
    {
      if h in Run(t, cs, lo, hi) {
        var i :| 0 <= i < |cs| && lo <= i < hi && Anc(t, cs[i], h);
        SiblingsApart(t, root, p, i, j, h);
      }
    }
    assert Anc(t, cs[j], cs[j]);
    if SubtreeOk(t, iv, cs[j]) {
      SubtreeSame(t, iv, iv', root, cs[j]);
    }
  }

  lemma {:induction false} RunBelow(t: Shape, root: Hash, p: Hash, lo: int, hi: int)
    requires WellFormed(t, root) && p in t
    ensures Run(t, t[p].children, lo, hi) <= Subtree(t, p) - {p}
  {
    var cs := t[p].children;
    forall x | x in Run(t, cs, lo, hi)
      ensures x in Subtree(t, p) - {p}
    {
      var j :| 0 <= j < |cs| && lo <= j < hi && Anc(t, cs[j], x);
      ChildAnc(t, root, p, j);
      SubtreeUnder'(t, p, cs[j], x);
    }
  }

  lemma {:induction false} SubtreeUnder'(t: Shape, p: Hash, c: Hash, x: Hash)
    requires Anc(t, p, c) && !Anc(t, c, p) && Anc(t, c, x)
    ensures Anc(t, p, x) && x != p && x in t
  {
    AncTrans(t, p, c, x);
    AncHeight(t, c, x);
  }

  // ---------- one block of the chain ----------

  /** `p` has given its labels away: its children form a row with room to spare on both sides,
      and all but the one at `k` are in order. */
  ghost predicate Given(t: Shape, iv: Labels, p: Hash, k: nat)
    requires p in t && p in iv
  {
    var cs := t[p].children;
    && k < |cs| && Adjacent(iv, cs)
    && iv[p].start <= iv[cs[0]].start && iv[cs[|cs| - 1]].end < iv[p].end
    && forall j :: 0 <= j < |cs| && j != k ==> SubtreeOk(t, iv, cs[j])
  }

  /** Both neighbours packed and the chosen child spread between them make a row. */
  lemma {:induction false} RowOfThree(t: Shape, iv: Labels, cs: seq<Hash>, box: Interval, k: nat, low: seq<Interval>,
                                      high: seq<Interval>, slack: nat, sumLow: int, sumHigh: int)
    requires k < |cs| && (forall j :: 0 <= j < |cs| ==> cs[j] in iv) && |low| == k && |high| == |cs| - k - 1
    requires forall j :: 0 <= j < k ==> iv[cs[j]] == low[j]
    requires forall j :: k < j < |cs| ==> iv[cs[j]] == high[j - k - 1]
    requires Tiles(low, Interval(box.start + slack, box.start + slack + sumLow - 1)) && (|low| == 0 ==> sumLow == 0)
    requires Tiles(high, Interval(box.end - slack - sumHigh, box.end - slack - 1)) && (|high| == 0 ==> sumHigh == 0)
    requires iv[cs[k]] == Interval(box.start + sumLow + slack, box.end - sumHigh - slack - 1)
    ensures Adjacent(iv, cs) && box.start <= iv[cs[0]].start && iv[cs[|cs| - 1]].end < box.end
  {
    forall i, j | 0 <= i && j == i + 1 && j < |cs|
      ensures iv[cs[i]].end + 1 == iv[cs[j]].start
    {
      if j < k {
        assert low[i].end + 1 == low[j].start;
      } else if i > k {
        assert high[i - k - 1].end + 1 == high[j - k - 1].start;
      }
    }
  }

  /** A block with children whose interval is widened stays in order. */
  lemma {:induction false} Widened(t: Shape, iv: Labels, iv': Labels, root: Hash, x: Hash)
    requires WellFormed(t, root) && x in t && SubtreeOk(t, iv, x) && iv.Keys == t.Keys && x in iv && x in iv'
    requires iv' == iv[x := iv'[x]] && iv'[x].Contains(iv[x])
    ensures SubtreeOk(t, iv', x)
  {
    assert Anc(t, x, x);
    assert NodeOk(t, iv, x);
    forall h | h in t && Anc(t, x, h)
      ensures NodeOk(t, iv', h)
    {
      assert NodeOk(t, iv, h);
      ChildrenBelow(t, root, x, h);
      forall i | 0 <= i < |t[h].children|
        ensures t[h].children[i] in iv && t[h].children[i] in iv' && iv'[t[h].children[i]] == iv[t[h].children[i]]
      {
        assert t[h].children[i] in Elems(t[h].children);
      }
      if h != x {
        NodeSame(t, iv, iv', h);
      } else {
        RowSame(iv, iv', t[x].children);
      }
    }
  }

  /** Only `x`'s own label changed: what hangs below its children is as it was. */
  lemma {:induction false} StaleKept(t: Shape, iv: Labels, iv': Labels, root: Hash, x: Hash)
    requires WellFormed(t, root) && x in t && Stale(t, iv, x) && iv.Keys == t.Keys
    requires forall h :: h in Subtree(t, x) && h != x ==> h in iv' && iv'[h] == iv[h]
    ensures Stale(t, iv', x)
  {
    forall j | 0 <= j < |t[x].children|
      ensures t[x].children[j] in iv' && iv'[t[x].children[j]] == iv[t[x].children[j]]
      ensures SubtreeOk(t, iv', t[x].children[j])
    {
      ChildAnc(t, root, x, j);
      forall h | h in t && Anc(t, t[x].children[j], h)
        ensures h in iv' && iv'[h] == iv[h]
      {
        SubtreeUnder'(t, x, t[x].children[j], h);
      }
      SubtreeSame(t, iv, iv', root, t[x].children[j]);
    }
    RowSame(iv, iv', t[x].children);
  }

  // ---------- the whole chain ----------

  /** Every block from `top` down to the parent of `current` has given its labels away. */
  ghost predicate ChainGiven(t: Shape, iv: Labels, top: Hash, current: Hash)
    requires iv.Keys == t.Keys
  {
    forall x :: x in t && Anc(t, top, x) && Anc(t, x, current) && x != current ==> GivenTowards(t, iv, x, current)
  }

  ghost predicate GivenTowards(t: Shape, iv: Labels, x: Hash, current: Hash)
    requires x in t && x in iv
  {
    exists k: nat :: k < |t[x].children| && Anc(t, t[x].children[k], current) && Given(t, iv, x, k)
  }

  /** Once the last block of the chain is in order, so is the whole chain. */
  lemma {:induction false} ChainAssembled(t: Shape, iv: Labels, root: Hash, top: Hash, current: Hash)
    requires WellFormed(t, root) && iv.Keys == t.Keys && current in t && Anc(t, top, current)
    requires ChainGiven(t, iv, top, current) && SubtreeOk(t, iv, current)
    ensures SubtreeOk(t, iv, top)
    decreases t[current].height
  {
    if current != top {
      var q := t[current].parent;
      assert Anc(t, top, q) && Anc(t, q, current) by {
        assert Anc(t, q, q);
      }
      AncHeight(t, top, q);
      assert GivenTowards(t, iv, q, current);
      var k: nat :| k < |t[q].children| && Anc(t, t[q].children[k], current) && Given(t, iv, q, k);
      ChildAnc(t, root, q, k);
      SameChild(t, root, t[q].children[k], current);
      GivenOk(t, iv, root, q, k);
      ChainShorter(t, iv, root, top, current);
      ChainAssembled(t, iv, root, top, q);
    }
  }

  lemma {:induction false} GivenOk(t: Shape, iv: Labels, root: Hash, q: Hash, k: nat)
    requires WellFormed(t, root) && iv.Keys == t.Keys && q in t && Given(t, iv, q, k) &&
      SubtreeOk(t, iv, t[q].children[k])
    ensures SubtreeOk(t, iv, q)
  {
    var cs := t[q].children;
    forall j | 0 <= j < |cs|
      ensures cs[j] in t && Labelled(iv, cs[j])
    {
      ChildAnc(t, root, q, j);
      assert Anc(t, cs[j], cs[j]);
      assert NodeOk(t, iv, cs[j]);
    }
    RowBounds(iv, cs, 0);
    Assemble(t, iv, root, q);
  }

  lemma {:induction false} ChainShorter(t: Shape, iv: Labels, root: Hash, top: Hash, current: Hash)
    requires WellFormed(t, root) && iv.Keys == t.Keys && current in t && t[current].parent in t &&
      ChainGiven(t, iv, top, current)
    requires Anc(t, t[current].parent, current)
    ensures ChainGiven(t, iv, top, t[current].parent)
  {
    var q := t[current].parent;
    forall x | x in t && Anc(t, top, x) && Anc(t, x, q) && x != q
      ensures GivenTowards(t, iv, x, q)
    {
      AncTrans(t, x, q, current);
      AncHeight(t, x, q);
      AncHeight(t, q, current);
      assert GivenTowards(t, iv, x, current);
      var k: nat :| k < |t[x].children| && Anc(t, t[x].children[k], current) && Given(t, iv, x, k);
      var i := ChildToward(t, root, x, q);
      AncTrans(t, t[x].children[i], q, current);
      SiblingsApart(t, root, x, i, k, current);
    }
  }

  /** One more block has given its labels away; those above it did not notice. */
  lemma {:induction false} ChainLonger(t: Shape, iv: Labels, iv': Labels, root: Hash, top: Hash, current: Hash, k: nat)
    requires WellFormed(t, root) && iv.Keys == t.Keys == iv'.Keys && current in t && Anc(t, top, current)
    requires ChainGiven(t, iv, top, current) && SameExcept(iv, iv', Subtree(t, current) - {current})
    requires k < |t[current].children| && Given(t, iv', current, k)
    ensures ChainGiven(t, iv', top, t[current].children[k])
  {
    var c := t[current].children[k];
    ChildAnc(t, root, current, k);
    forall x | x in t && Anc(t, top, x) && Anc(t, x, c) && x != c
      ensures GivenTowards(t, iv', x, c)
    {
      assert Anc(t, x, current);
      if x == current {
        assert Anc(t, t[x].children[k], c);
      } else {
        assert GivenTowards(t, iv, x, current);
        var i: nat :| i < |t[x].children| && Anc(t, t[x].children[i], current) && Given(t, iv, x, i);
        GivenKept(t, iv, iv', root, x, i, current);
        AncTrans(t, t[x].children[i], current, c);
      }
    }
  }

  lemma {:induction false} GivenKept(t: Shape, iv: Labels, iv': Labels, root: Hash, x: Hash, i: nat, current: Hash)
    requires WellFormed(t, root) && iv.Keys == t.Keys == iv'.Keys && x in t && current in t
    requires SameExcept(iv, iv', Subtree(t, current) - {current})
    requires i < |t[x].children| && Anc(t, t[x].children[i], current) && Given(t, iv, x, i)
    ensures Given(t, iv', x, i)
  {
    var cs := t[x].children;
    ChildAnc(t, root, x, i);
    forall j | 0 <= j < |cs|
      ensures cs[j] in t && iv'[cs[j]] == iv[cs[j]]
      ensures j != i ==> SubtreeOk(t, iv', cs[j])
    {
      ChildAnc(t, root, x, j);
      forall h | h in t && Anc(t, cs[j], h) && (j != i || h == cs[j])
        ensures iv'[h] == iv[h]
      {
        if Anc(t, current, h) && h != current {
          ChainApart(t, root, x, i, j, current, h);
        }
      }
      assert Anc(t, cs[j], cs[j]);
      if j != i {
        SubtreeSame(t, iv, iv', root, cs[j]);
      }
    }
    AncTrans(t, x, cs[i], current);
    AncHeight(t, x, cs[i]);
    AncHeight(t, cs[i], current);
    if Anc(t, current, x) {
      AncHeight(t, current, x);
    }
  }

  lemma {:induction false} ChainApart(t: Shape, root: Hash, x: Hash, i: nat, j: nat, current: Hash, h: Hash)
    requires WellFormed(t, root) && x in t && i < |t[x].children| && j < |t[x].children|
    requires Anc(t, t[x].children[i], current) && Anc(t, current, h) && h != current && Anc(t, t[x].children[j], h)
    ensures i == j && h != t[x].children[j]
  {
    var cs := t[x].children;
    AncTrans(t, cs[i], current, h);
    SiblingsApart(t, root, x, i, j, h);
    AncHeight(t, cs[i], current);
    AncHeight(t, current, h);
  }
}
