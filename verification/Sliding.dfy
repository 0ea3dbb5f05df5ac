/** Moving labels along the path to the reindex root: one chain block gives up labels at one end,
    and its siblings on that side slide into the gap. The two sides mirror each other. */
module Sliding {
  import opened Types
  import opened Intervals
  import opened Tree
  import opened Labels
  import opened Counting
  import opened Relabel

  /** The end of an interval at which labels are reclaimed: its first or its last labels. */
  datatype Side = Low | High {

    /** A chain block without its `offset` labels at this end. */
    function Shrunk(iv: Interval, offset: int): Interval {
      if Low? then Interval(iv.start + offset, iv.end) else Interval(iv.start, iv.end - offset)
    }

    /** A sibling at this end of the chain block, slid towards it. */
    function Slid(iv: Interval, offset: int): Interval {
      if Low? then iv.Shift(offset) else iv.Shift(-offset)
    }

    /** The sibling that receives the reclaimed labels. */
    function Grown(iv: Interval, offset: int): Interval {
      if Low? then Interval(iv.start, iv.end + offset) else Interval(iv.start - offset, iv.end)
    }

    function Next(i: int): int {
      if Low? then i - 1 else i + 1
    }

    function Prev(i: int): int {
      if Low? then i + 1 else i - 1
    }

    /** The index past the last sibling at this end. */
    function Past(n: nat): int {
      if Low? then -1 else n
    }

    /** `j` lies strictly between `a` and `k`, where `a` is at this end. */
    predicate Between(a: int, j: int, k: int) {
      if Low? then a < j < k else k < j < a
    }
  }

  /** Labels of `x` at this end that no child uses. */
  function Free(t: Shape, iv: Labels, side: Side, x: Hash): int
    requires x in t && x in iv && forall c :: c in t[x].children ==> c in iv
  {
    var cs := t[x].children;
    if |cs| == 0 then iv[x].Size() - 1
    else if side.Low? then iv[cs[0]].start - iv[x].start
    else iv[x].end - 1 - iv[cs[|cs| - 1]].end
  }

  /** From `iv` to `iv'`: the block at `k` shrank by `offset`, those between `a` and `k` slid up to
      it, and the one at `a`, if there is one, grew into the gap. */
  ghost predicate RowSlid(side: Side, iv: Labels, iv': Labels, cs: seq<Hash>, a: int, k: int, offset: int)
    requires 0 <= k < |cs| && forall i :: 0 <= i < |cs| ==> cs[i] in iv && cs[i] in iv'
  {
    && iv'[cs[k]] == side.Shrunk(iv[cs[k]], offset)
    && (forall j :: 0 <= j < |cs| && side.Between(a, j, k) ==> iv'[cs[j]] == side.Slid(iv[cs[j]], offset))
    && (0 <= a < |cs| ==> iv'[cs[a]] == side.Grown(iv[cs[a]], offset))
    && (forall j :: 0 <= j < |cs| && j != a && j != k && !side.Between(a, j, k) ==> iv'[cs[j]] == iv[cs[j]])
  }

  /** A slid row has no gaps. Its outer ends stay put if somebody grew; otherwise the end on this
      side moved by `offset`. */
  lemma {:induction false} SlidAdjacent(side: Side, iv: Labels, iv': Labels, cs: seq<Hash>, a: int, k: int, offset: int)
    requires Adjacent(iv, cs) && (forall i :: 0 <= i < |cs| ==> cs[i] in iv') && 0 <= k < |cs|
    requires a == side.Past(|cs|) || (0 <= a < |cs| && (if side.Low? then a < k else k < a))
    requires RowSlid(side, iv, iv', cs, a, k, offset)
    ensures Adjacent(iv', cs)
    ensures var n := |cs| - 1;
      if 0 <= a < |cs| then iv'[cs[0]].start == iv[cs[0]].start && iv'[cs[n]].end == iv[cs[n]].end
      else if side.Low? then iv'[cs[0]].start == iv[cs[0]].start + offset && iv'[cs[n]].end == iv[cs[n]].end
      else iv'[cs[0]].start == iv[cs[0]].start && iv'[cs[n]].end == iv[cs[n]].end - offset
  {
    forall i, j | 0 <= i && j == i + 1 && j < |cs|
      ensures iv'[cs[i]].end + 1 == iv'[cs[j]].start
    {
      assert iv[cs[i]].end + 1 == iv[cs[j]].start;
    }
  }

  /** Blocks whose labels a slide may touch: the subtrees of the siblings from `a` to `k`. */
  ghost function Touched(t: Shape, cs: seq<Hash>, side: Side, a: int, k: int): set<Hash> {
    set x | x in t && exists j :: 0 <= j < |cs| && side.Between(side.Next(a), j, k) && Anc(t, cs[j], x)
  }

  /** A chain block that gives up labels none of its children use stays well labelled. */
  lemma {:induction false} ShrinkOk(t: Shape, iv: Labels, iv': Labels, root: Hash, side: Side, x: Hash, offset: int)
    requires WellFormed(t, root) && x in t && SubtreeOk(t, iv, x) && iv.Keys == t.Keys
    requires |t[x].children| > 0 && (forall c :: c in t[x].children ==> c in iv) && 0 <= offset <= Free(t, iv, side, x)
    requires iv' == iv[x := side.Shrunk(iv[x], offset)]
    ensures SubtreeOk(t, iv', x)
  {
    assert Anc(t, x, x);
    assert NodeOk(t, iv, x);
    forall h | h in t && Anc(t, x, h)
      ensures NodeOk(t, iv', h)
    {
      assert NodeOk(t, iv, h);
      forall i | 0 <= i < |t[h].children|
        ensures t[h].children[i] in iv && t[h].children[i] in iv' && iv'[t[h].children[i]] == iv[t[h].children[i]]
      {
        ChildrenBelow(t, root, x, h);
        assert t[h].children[i] in Elems(t[h].children);
      }
      if h != x {
        NodeSame(t, iv, iv', h);
      } else {
        RowSame(iv, iv', t[x].children);
        RowBounds(iv, t[x].children, 0);
      }
    }
  }

  lemma {:induction false} ChildrenBelow(t: Shape, root: Hash, block: Hash, x: Hash)
    requires WellFormed(t, root) && block in t && Anc(t, block, x)
    ensures Elems(t[x].children) <= Subtree(t, block) - {block}
  {
    forall c | c in t[x].children
      ensures c in Subtree(t, block) - {block}
    {
      var i :| 0 <= i < |t[x].children| && t[x].children[i] == c;
      ChildAnc(t, root, x, i);
      AncTrans(t, block, x, c);
      AncHeight(t, block, x);
      AncHeight(t, x, c);
    }
  }

  /** A block of the subtree of `top` outside the touched children of `p` keeps its row. */
  lemma {:induction false} UntouchedNode(t: Shape, iv: Labels, iv': Labels, root: Hash, p: Hash, h: Hash,
                                         touched: set<Hash>)
    requires WellFormed(t, root) && h in t && h != p && NodeOk(t, iv, h) && h !in touched
    requires SameExcept(iv, iv', touched)
    requires forall x :: x in touched ==> x in t && t[x].parent in t && (t[x].parent == p || t[x].parent in touched)
    ensures NodeOk(t, iv', h)
  {
    forall i | 0 <= i < |t[h].children|
      ensures t[h].children[i] in iv && t[h].children[i] in iv' && iv'[t[h].children[i]] == iv[t[h].children[i]]
    {
      assert Labelled(iv, t[h].children[i]);
      ChildAnc(t, root, h, i);
    }
    NodeSame(t, iv, iv', h);
  }

  /** A block whose children's subtrees are well labelled and whose children form a row inside it. */
  lemma {:induction false} Assemble(t: Shape, iv: Labels, root: Hash, p: Hash)
    requires WellFormed(t, root) && p in t && Labelled(iv, p) && Adjacent(iv, t[p].children)
    requires |t[p].children| > 0 ==>
      iv[p].start <= iv[t[p].children[0]].start && iv[t[p].children[|t[p].children| - 1]].end < iv[p].end
    requires forall j :: 0 <= j < |t[p].children| ==> t[p].children[j] in t && SubtreeOk(t, iv, t[p].children[j])
    ensures SubtreeOk(t, iv, p)
  {
    var cs := t[p].children;
    forall j | 0 <= j < |cs|
      ensures Labelled(iv, cs[j])
    {
      assert Anc(t, cs[j], cs[j]);
      assert NodeOk(t, iv, cs[j]);
    }
    assert NodeOk(t, iv, p);
    forall h | h in t && Anc(t, p, h)
      ensures NodeOk(t, iv, h)
    {
      if h != p {
        var j := ChildToward(t, root, p, h);
      }
    }
  }

  /** The slide leaves the subtrees of all other siblings alone. */
  lemma {:induction false} OtherSibling(t: Shape, iv: Labels, iv': Labels, root: Hash, p: Hash, side: Side, a: int,
                                        k: int, j: int)
    requires WellFormed(t, root) && p in t && 0 <= k < |t[p].children| && 0 <= j < |t[p].children|
    requires j != a && j != k && !side.Between(a, j, k) && iv.Keys == t.Keys
    requires SameExcept(iv, iv', Touched(t, t[p].children, side, a, k) + Subtree(t, t[p].children[k]))
    requires SubtreeOk(t, iv, t[p].children[j])
    ensures SubtreeOk(t, iv', t[p].children[j]) && iv'[t[p].children[j]] == iv[t[p].children[j]]
  {
    var cs := t[p].children;
    forall h | h in t && Anc(t, cs[j], h)
      ensures iv'[h] == iv[h]
    {
      if h in Touched(t, cs, side, a, k) {
        var i :| 0 <= i < |cs| && side.Between(side.Next(a), i, k) && Anc(t, cs[i], h);
        SiblingsApart(t, root, p, i, j, h);
      } else if h in Subtree(t, cs[k]) {
        SiblingsApart(t, root, p, k, j, h);
      }
    }
    ChildAnc(t, root, p, j);
    SubtreeSame(t, iv, iv', root, cs[j]);
  }

  /** All subtrees below `p` after a slide among its children. */
  lemma {:induction false} AfterSlide(t: Shape, iv: Labels, iv': Labels, root: Hash, p: Hash, side: Side, a: int,
                                      k: int)
    requires WellFormed(t, root) && p in t && 0 <= k < |t[p].children| && iv.Keys == t.Keys
    requires SameExcept(iv, iv', Touched(t, t[p].children, side, a, k) + Subtree(t, t[p].children[k]))
    requires forall j :: 0 <= j < |t[p].children| && j != a ==> SubtreeOk(t, iv, t[p].children[j])
    requires SubtreeOk(t, iv', t[p].children[k]) && (0 <= a < |t[p].children| ==> SubtreeOk(t, iv', t[p].children[a]))
    requires forall j :: 0 <= j < |t[p].children| && side.Between(a, j, k) ==> SubtreeOk(t, iv', t[p].children[j])
    ensures forall j :: 0 <= j < |t[p].children| ==> SubtreeOk(t, iv', t[p].children[j])
    ensures SameExcept(iv, iv', Subtree(t, p) - {p})
  {
    var cs := t[p].children;
    forall j | 0 <= j < |cs|
      ensures SubtreeOk(t, iv', cs[j])
    {
      if j != a && j != k && !side.Between(a, j, k) {
        OtherSibling(t, iv, iv', root, p, side, a, k, j);
      }
    }
    forall x | x in Touched(t, cs, side, a, k) + Subtree(t, cs[k])
      ensures x in Subtree(t, p) - {p}
    {
      var j :| 0 <= j < |cs| && Anc(t, cs[j], x);
      ChildAnc(t, root, p, j);
      AncTrans(t, p, cs[j], x);
      AncHeight(t, p, cs[j]);
      AncHeight(t, cs[j], x);
    }
  }

  /** From `iv` to `iv'`: the children of `p` slid by `offset` towards the one at `k`, and whatever
      hangs below the moved ones is in order. */
  ghost predicate Slid(t: Shape, iv: Labels, iv': Labels, side: Side, p: Hash, a: int, k: int, offset: int)
    requires p in t && 0 <= k < |t[p].children|
  {
    var cs := t[p].children;
    && (forall i :: 0 <= i < |cs| ==> cs[i] in iv && cs[i] in iv')
    && SameExcept(iv, iv', Touched(t, cs, side, a, k) + Subtree(t, cs[k]))
    && RowSlid(side, iv, iv', cs, a, k, offset)
    && SubtreeOk(t, iv', cs[k]) && (0 <= a < |cs| ==> SubtreeOk(t, iv', cs[a]))
    && forall j :: 0 <= j < |cs| && side.Between(a, j, k) ==> SubtreeOk(t, iv', cs[j])
  }

  /** A slide among the children of `p` that nobody grows from: `p` gains free labels on that side,
      and the surrounding subtree stays well labelled. */
  lemma {:induction false} InnerLevel(t: Shape, iv: Labels, iv': Labels, root: Hash, top: Hash, p: Hash, side: Side,
                                      k: int, offset: int)
    requires WellFormed(t, root) && p in t && 0 <= k < |t[p].children| && iv.Keys == t.Keys && 0 <= offset
    requires SubtreeOk(t, iv, top) && Anc(t, top, p)
    requires Slid(t, iv, iv', side, p, side.Past(|t[p].children|), k, offset)
    ensures SubtreeOk(t, iv', top) && SameExcept(iv, iv', Subtree(t, p) - {p})
    ensures Free(t, iv', side, p) == Free(t, iv, side, p) + offset
  {
    var cs, a := t[p].children, side.Past(|t[p].children|);
    ChildrenOk(t, iv, root, top, p);
    hide WellFormed, SubtreeOk, RowSlid, Touched, Adjacent, SameExcept;
    AfterSlide(t, iv, iv', root, p, side, a, k);
    SlidAdjacent(side, iv, iv', cs, a, k, offset);
    SelfSame(t, iv, iv', p);
    Assemble(t, iv', root, p);
    RestOk(t, iv, iv', root, top, p);
  }

  lemma {:induction false} SelfSame(t: Shape, iv: Labels, iv': Labels, p: Hash)
    requires p in t && p in iv && SameExcept(iv, iv', Subtree(t, p) - {p})
    ensures iv'[p] == iv[p]
  {
  }

  lemma {:induction false} ChildrenOk(t: Shape, iv: Labels, root: Hash, top: Hash, p: Hash)
    requires WellFormed(t, root) && p in t && SubtreeOk(t, iv, top) && Anc(t, top, p)
    ensures Labelled(iv, p) && Adjacent(iv, t[p].children)
    ensures |t[p].children| > 0 ==>
      iv[p].start <= iv[t[p].children[0]].start && iv[t[p].children[|t[p].children| - 1]].end < iv[p].end
    ensures forall j :: 0 <= j < |t[p].children| ==> t[p].children[j] in t && SubtreeOk(t, iv, t[p].children[j])
  {
    assert NodeOk(t, iv, p);
    SubtreeWithin(t, iv, root, top, p);
    forall j | 0 <= j < |t[p].children|
      ensures t[p].children[j] in t && SubtreeOk(t, iv, t[p].children[j])
    {
      SubtreeOkBelow(t, iv, root, p, j);
    }
  }

  /** Only what lies below `p` changed, and that is in order. */
  lemma {:induction false} RestOk(t: Shape, iv: Labels, iv': Labels, root: Hash, top: Hash, p: Hash)
    requires WellFormed(t, root) && p in t && SubtreeOk(t, iv, top)
    requires SameExcept(iv, iv', Subtree(t, p) - {p}) && SubtreeOk(t, iv', p)
    ensures SubtreeOk(t, iv', top)
  {
    forall x | x in Subtree(t, p) - {p}
      ensures t[x].parent in t && (t[x].parent == p || t[x].parent in Subtree(t, p) - {p})
    {
      AncHeight(t, p, x);
      assert Anc(t, p, t[x].parent);
      AncHeight(t, p, t[x].parent);
    }
    forall h | h in t && Anc(t, top, h)
      ensures NodeOk(t, iv', h)
    {
      if !Anc(t, p, h) {
        UntouchedNode(t, iv, iv', root, p, h, Subtree(t, p) - {p});
      }
    }
  }

  lemma {:induction false} SubtreeWithin(t: Shape, iv: Labels, root: Hash, top: Hash, p: Hash)
    requires WellFormed(t, root) && SubtreeOk(t, iv, top) && Anc(t, top, p)
    ensures SubtreeOk(t, iv, p)
  {
    forall h | h in t && Anc(t, p, h)
      ensures NodeOk(t, iv, h)
    {
      AncTrans(t, top, p, h);
    }
  }

  /** The labels around `p` when the one at `a` is too small or has rows in disarray below it. */
  ghost predicate OneBad(t: Shape, iv: Labels, p: Hash, a: int)
    requires p in t && p in iv
  {
    var cs := t[p].children;
    && 0 <= a < |cs| && iv[p].start <= iv[p].end && Adjacent(iv, cs)
    && iv[p].start <= iv[cs[0]].start && iv[cs[|cs| - 1]].end < iv[p].end
    && forall j :: 0 <= j < |cs| && j != a ==> SubtreeOk(t, iv, cs[j])
  }

  /** A slide that the block at `a` grows from puts everything below `p` in order. */
  lemma {:induction false} OuterLevel(t: Shape, iv: Labels, iv': Labels, root: Hash, p: Hash, side: Side, a: int,
                                      k: int, offset: int)
    requires WellFormed(t, root) && p in t && 0 <= k < |t[p].children| && iv.Keys == t.Keys && OneBad(t, iv, p, a)
    requires if side.Low? then a < k else k < a
    requires Slid(t, iv, iv', side, p, a, k, offset)
    ensures SubtreeOk(t, iv', p) && SameExcept(iv, iv', Subtree(t, p) - {p})
  {
    hide WellFormed, Anc, SubtreeOk, RowSlid, Touched, Adjacent;
    var cs := t[p].children;
    assert forall i :: 0 <= i < |cs| ==> cs[i] in t;
    AfterSlide(t, iv, iv', root, p, side, a, k);
    SlidAdjacent(side, iv, iv', cs, a, k, offset);
    Assemble(t, iv', root, p);
  }

  /** Sliding and growing as far as the siblings strictly between `i` and `k`. */
  ghost predicate SlidTo(t: Shape, iv: Labels, iv': Labels, cs: seq<Hash>, side: Side, a: int, i: int, k: int,
                         offset: int)
    requires forall j :: 0 <= j < |cs| ==> cs[j] in t && cs[j] in iv && cs[j] in iv'
  {
    && SameExcept(iv, iv', Touched(t, cs, side, side.Prev(i), k))
    && forall j :: 0 <= j < |cs| && side.Between(i, j, k) ==>
         && iv'[cs[j]] == Target(side, iv[cs[j]], j == a, offset)
         && SubtreeOk(t, iv', cs[j])
  }

  lemma {:induction false} SlideOne(t: Shape, root: Hash, iv: Labels, mid: Labels, iv': Labels, p: Hash, side: Side,
                                    a: int, i: int, k: int, offset: int)
    requires WellFormed(t, root) && p in t && iv.Keys == t.Keys == mid.Keys == iv'.Keys
    requires 0 <= i < |t[p].children| && 0 <= k < |t[p].children| && (if side.Low? then i < k else k < i)
    requires forall j :: 0 <= j < |t[p].children| ==> t[p].children[j] in t
    requires SlidTo(t, iv, mid, t[p].children, side, a, i, k, offset)
    requires var c := t[p].children[i];
      && SameExcept(mid, iv', Subtree(t, c)) && SubtreeOk(t, iv', c)
      && iv'[c] == Target(side, mid[c], i == a, offset)
    ensures SlidTo(t, iv, iv', t[p].children, side, a, side.Next(i), k, offset)
  {
    hide WellFormed, Anc, SubtreeOk, Touched, Subtree;
    var cs := t[p].children;
    Unslid(t, root, iv, mid, p, side, a, i, k, offset, i);
    forall j | 0 <= j < |cs| && side.Between(side.Next(i), j, k)
      ensures iv'[cs[j]] == Target(side, iv[cs[j]], j == a, offset)
      ensures SubtreeOk(t, iv', cs[j])
    {
      if j != i {
        SiblingKept(t, root, mid, iv', p, i, j);
      }
    }
    TouchedGrows(t, cs, side, i, k);
    ChangesAdd(iv, mid, iv', Touched(t, cs, side, side.Prev(i), k), Subtree(t, cs[i]),
      Touched(t, cs, side, side.Prev(side.Next(i)), k));
  }

  lemma {:induction false} ChangesAdd(a: Labels, b: Labels, c: Labels, first: set<Hash>, second: set<Hash>,
                                      all: set<Hash>)
    requires SameExcept(a, b, first) && SameExcept(b, c, second) && first + second <= all
    ensures SameExcept(a, c, all)
  {
  }

  lemma {:induction false} SiblingKept(t: Shape, root: Hash, mid: Labels, iv': Labels, p: Hash, i: int, j: int)
    requires WellFormed(t, root) && p in t && mid.Keys == t.Keys
    requires 0 <= i < |t[p].children| && 0 <= j < |t[p].children| && i != j
    requires SameExcept(mid, iv', Subtree(t, t[p].children[i])) && SubtreeOk(t, mid, t[p].children[j])
    ensures t[p].children[j] in t && iv'[t[p].children[j]] == mid[t[p].children[j]]
    ensures SubtreeOk(t, iv', t[p].children[j])
  {
    var cs := t[p].children;
    forall h | h in t && Anc(t, cs[j], h)
      ensures iv'[h] == mid[h]
    {
      if Anc(t, cs[i], h) {
        SiblingsApart(t, root, p, i, j, h);
      }
    }
    ChildAnc(t, root, p, j);
    SubtreeSame(t, mid, iv', root, cs[j]);
  }

  lemma {:induction false} TouchedGrows(t: Shape, cs: seq<Hash>, side: Side, i: int, k: int)
    requires 0 <= i < |cs| && (if side.Low? then i < k else k < i)
    ensures Touched(t, cs, side, side.Prev(i), k) +
      Subtree(t, cs[i]) <= Touched(t, cs, side, side.Prev(side.Next(i)), k)
  {
  }

  /** Siblings not reached yet still carry their first labels. */
  lemma {:induction false} Unslid(t: Shape, root: Hash, iv: Labels, mid: Labels, p: Hash, side: Side, a: int, i: int,
                                  k: int, offset: int, j: int)
    requires WellFormed(t, root) && p in t && iv.Keys == t.Keys
    requires 0 <= j < |t[p].children| && !side.Between(i, j, k)
    requires forall j :: 0 <= j < |t[p].children| ==> t[p].children[j] in t && t[p].children[j] in mid
    requires SlidTo(t, iv, mid, t[p].children, side, a, i, k, offset)
    ensures mid[t[p].children[j]] == iv[t[p].children[j]]
    ensures SubtreeOk(t, iv, t[p].children[j]) ==> SubtreeOk(t, mid, t[p].children[j])
    ensures forall h :: h in t && Anc(t, t[p].children[j], h) ==> mid[h] == iv[h]
  {
    var cs := t[p].children;
    forall h | h in t && Anc(t, cs[j], h)
      ensures mid[h] == iv[h]
    {
      if h in Touched(t, cs, side, side.Prev(i), k) {
        var l :| 0 <= l < |cs| && side.Between(i, l, k) && Anc(t, cs[l], h);
        SiblingsApart(t, root, p, l, j, h);
      }
    }
    assert Anc(t, cs[j], cs[j]);
    if SubtreeOk(t, iv, cs[j]) {
      SubtreeSame(t, iv, mid, root, cs[j]);
    }
  }

  /** Adjacent intervals, possibly empty. */
  ghost predicate LooseRow(iv: Labels, cs: seq<Hash>) {
    Adjacent(iv, cs) && forall i :: 0 <= i < |cs| ==> iv[cs[i]].start <= iv[cs[i]].end + 1
  }

  lemma {:induction false} LooseSorted(iv: Labels, cs: seq<Hash>, i: nat, j: nat)
    requires LooseRow(iv, cs) && i < j < |cs|
    ensures iv[cs[i]].end < iv[cs[j]].start
    decreases j
  {
    assert iv[cs[j - 1]].end + 1 == iv[cs[j]].start;
    if i < j - 1 {
      LooseSorted(iv, cs, i, j - 1);
    }
  }

  lemma {:induction false} LooseBounds(iv: Labels, cs: seq<Hash>, i: nat)
    requires LooseRow(iv, cs) && i < |cs|
    ensures iv[cs[0]].start <= iv[cs[i]].start && iv[cs[i]].end <= iv[cs[|cs| - 1]].end
  {
    if 0 < i {
      LooseSorted(iv, cs, 0, i);
      assert iv[cs[0]].start <= iv[cs[0]].end + 1;
    }
    if i < |cs| - 1 {
      LooseSorted(iv, cs, i, |cs| - 1);
      assert iv[cs[|cs| - 1]].start <= iv[cs[|cs| - 1]].end + 1;
    }
  }

  /** `a` is where `allocation` stands on this side of `k`, or past the end if it is not there. */
  ghost predicate Locates(cs: seq<Hash>, side: Side, allocation: Hash, a: int, k: int) {
    || (0 <= a < |cs| && cs[a] == allocation && (if side.Low? then a < k else k < a))
    || (a == side.Past(|cs|) && forall j :: 0 <= j < |cs| && side.Between(a, j, k) ==> cs[j] != allocation)
  }

  /** The children of `p` are fit for a slide of `offset` labels towards the one at `k`. */
  ghost predicate SlideReady(t: Shape, iv: Labels, side: Side, allocation: Hash, p: Hash, a: int, k: int, offset: int)
    requires p in t && iv.Keys == t.Keys
  {
    var cs := t[p].children;
    && 0 <= k < |cs| && 0 <= offset
    && (forall i :: 0 <= i < |cs| ==> cs[i] in t)
    && Locates(cs, side, allocation, a, k)
    && iv[p].Valid() && LooseRow(iv, cs)
    && iv[p].start <= iv[cs[0]].start && iv[cs[|cs| - 1]].end < iv[p].end
    && (forall j :: 0 <= j < |cs| && side.Between(a, j, k) ==> SubtreeOk(t, iv, cs[j]))
    && (0 <= a < |cs| ==> |Subtree(t, cs[a])| <= iv[cs[a]].Size() + offset)
  }

  /** Where the sibling at `j` goes in a slide of `offset` labels. */
  function Target(side: Side, iv: Interval, grows: bool, offset: int): Interval {
    if grows then side.Grown(iv, offset) else side.Slid(iv, offset)
  }

  /** The slid or grown interval is legal and has room for what hangs below it. */
  ghost predicate Fits(t: Shape, iv: Labels, c: Hash, side: Side, grows: bool, offset: int) {
    && c in iv && Target(side, iv[c], grows, offset).Valid()
    && |Subtree(t, c)| <= Target(side, iv[c], grows, offset).Size()
  }

  lemma {:induction false} SlideFits(t: Shape, iv: Labels, root: Hash, side: Side, allocation: Hash, p: Hash, a: int,
                                     k: int, offset: int, j: int)
    requires WellFormed(t, root) && p in t && iv.Keys == t.Keys && SlideReady(t, iv, side, allocation, p, a, k, offset)
    requires side.Shrunk(iv[t[p].children[k]], offset).Valid()
    requires 0 <= j < |t[p].children| && side.Between(side.Next(a), j, k)
    ensures Fits(t, iv, t[p].children[j], side, j == a, offset)
  {
    var cs := t[p].children;
    LooseBounds(iv, cs, j);
    LooseBounds(iv, cs, k);
    if side.Low? {
      LooseSorted(iv, cs, j, k);
    } else {
      LooseSorted(iv, cs, k, j);
    }
    if j != a {
      SizeBound(t, iv, root, cs[j]);
    }
  }

  lemma {:induction false} SlideStarts(t: Shape, iv: Labels, cs: seq<Hash>, side: Side, a: int, k: int, offset: int)
    requires (forall j :: 0 <= j < |cs| ==> cs[j] in t && cs[j] in iv)
    ensures SlidTo(t, iv, iv, cs, side, a, side.Next(k), k, offset)
  {
  }

  /** The chain block has shrunk and its siblings have slid up to it. */
  lemma {:induction false} SlideDone(t: Shape, root: Hash, iv: Labels, mid: Labels, iv': Labels, side: Side,
                                     allocation: Hash, p: Hash, a: int, k: int, offset: int)
    requires WellFormed(t, root) && p in t && iv.Keys == t.Keys == iv'.Keys && mid.Keys == t.Keys
    requires SlideReady(t, iv, side, allocation, p, a, k, offset)
    requires var c := t[p].children[k];
      && SameExcept(iv, mid, Subtree(t, c)) && SubtreeOk(t, mid, c) && mid[c] == side.Shrunk(iv[c], offset)
    requires SlidTo(t, mid, iv', t[p].children, side, a, side.Next(a), k, offset)
    ensures Slid(t, iv, iv', side, p, a, k, offset)
  {
    hide WellFormed, Anc, SubtreeOk, Touched, Subtree, LooseRow;
    var cs := t[p].children;
    Unslid(t, root, mid, iv', p, side, a, side.Next(a), k, offset, k);
    forall j | 0 <= j < |cs| && j != k
      ensures mid[cs[j]] == iv[cs[j]]
      ensures !side.Between(side.Next(a), j, k) ==> iv'[cs[j]] == mid[cs[j]]
    {
      SiblingFrame(t, root, iv, mid, p, k, j);
      if !side.Between(side.Next(a), j, k) {
        Unslid(t, root, mid, iv', p, side, a, side.Next(a), k, offset, j);
      }
    }
    TouchedSame(t, cs, side, a, k);
    ChangesAdd(iv, mid, iv', Subtree(t, cs[k]), Touched(t, cs, side, a, k),
      Touched(t, cs, side, a, k) + Subtree(t, cs[k]));
  }

  lemma {:induction false} TouchedSame(t: Shape, cs: seq<Hash>, side: Side, a: int, k: int)
    ensures Touched(t, cs, side, side.Prev(side.Next(a)), k) == Touched(t, cs, side, a, k)
  {
  }

  lemma {:induction false} SiblingFrame(t: Shape, root: Hash, iv: Labels, mid: Labels, p: Hash, k: int, j: int)
    requires WellFormed(t, root) && p in t && 0 <= k < |t[p].children| && 0 <= j < |t[p].children| && j != k
    requires SameExcept(iv, mid, Subtree(t, t[p].children[k])) && iv.Keys == t.Keys
    ensures t[p].children[j] in t && mid[t[p].children[j]] == iv[t[p].children[j]]
  {
    ChildAnc(t, root, p, j);
    if t[p].children[j] in Subtree(t, t[p].children[k]) {
      SiblingsApart(t, root, p, k, j, t[p].children[j]);
    }
  }

  /** What the siblings need to fit is not affected by the chain block shrinking. */
  lemma {:induction false} FitsAfterShrink(t: Shape, root: Hash, iv: Labels, mid: Labels, side: Side, allocation: Hash,
                                           p: Hash, a: int, k: int, offset: int)
    requires WellFormed(t, root) && p in t && iv.Keys == t.Keys && mid.Keys == t.Keys
    requires SlideReady(t, iv, side, allocation, p, a, k, offset)
    requires SameExcept(iv, mid, Subtree(t, t[p].children[k]))
    requires side.Shrunk(iv[t[p].children[k]], offset).Valid()
    ensures forall j :: 0 <= j < |t[p].children| && side.Between(side.Next(a), j, k) ==>
              Fits(t, mid, t[p].children[j], side, j == a, offset)
  {
    forall j | 0 <= j < |t[p].children| && side.Between(side.Next(a), j, k)
      ensures Fits(t, mid, t[p].children[j], side, j == a, offset)
    {
      SlideFits(t, iv, root, side, allocation, p, a, k, offset, j);
      SiblingFrame(t, root, iv, mid, p, k, j);
    }
  }
}
