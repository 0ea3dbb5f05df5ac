/** The chain from a block down to the reindex root, and how much each of its blocks gives up when
    labels are reclaimed along it. */
module ChainPath {
  import opened Types
  import opened Tree
  import opened Labels
  import opened Relabel
  import opened Sliding
  import opened Store

  /** `path` leads from `chosen` towards `pivot`; each of its blocks but the last is above `pivot`
      and has `slacks[i]` free labels, together fewer than `required`. */
  ghost predicate OnPath(t: Shape, iv: Labels, side: Side, chosen: Hash, pivot: Hash, required: int, path: seq<Hash>,
                         slacks: seq<int>)
    requires iv.Keys == t.Keys
  {
    && |path| == |slacks| + 1 && path[0] == chosen
    && (forall i :: 0 <= i < |path| ==> Anc(t, chosen, path[i]) && Anc(t, path[i], pivot))
    && (forall i, j :: 0 <= i && j == i + 1 && j < |path| ==> path[j] in t && t[path[j]].parent == path[i])
    && (forall i :: 0 <= i < |slacks| ==> path[i] != pivot && FreeIs(t, iv, side, path[i], slacks[i]))
    && (forall i :: 0 <= i < |path| ==> Sum(slacks[..i]) < required)
  }

  ghost predicate FreeIs(t: Shape, iv: Labels, side: Side, x: Hash, slack: int) {
    && x in t && x in iv && (forall c :: c in t[x].children ==> c in iv)
    && slack == Free(t, iv, side, x) >= 0
  }

  /** What the block at depth `j` of the path gives up. */
  function Budget(required: int, reserve: int, slacks: seq<int>, j: nat): int
    requires j <= |slacks|
  {
    required + reserve * j - Sum(slacks[..j])
  }

  lemma {:induction false} BudgetUp(required: int, reserve: int, slacks: seq<int>, j: nat)
    requires 0 < j <= |slacks|
    ensures Budget(required, reserve, slacks, j - 1) == slacks[j - 1] + Budget(required, reserve, slacks, j) - reserve
  {
    assert slacks[..j] == slacks[..j - 1] + [slacks[j - 1]];
    SumSnoc(slacks[..j - 1], slacks[j - 1]);
    assert reserve * j == reserve * (j - 1) + reserve;
  }

  lemma {:induction false} FreeNonNegative(t: Shape, iv: Labels, root: Hash, side: Side, top: Hash, x: Hash)
    requires WellFormed(t, root) && SubtreeOk(t, iv, top) && Anc(t, top, x) && iv.Keys == t.Keys
    ensures x in t && FreeIs(t, iv, side, x, Free(t, iv, side, x))
  {
    AncHeight(t, top, x);
    assert NodeOk(t, iv, x);
    forall c | c in t[x].children
      ensures c in iv
    {
      var i :| 0 <= i < |t[x].children| && t[x].children[i] == c;
      assert Labelled(iv, t[x].children[i]);
    }
  }

  /** The search among the children of a chain block finds the next chain block. */
  lemma {:induction false} NextOnChain(t: Shape, iv: Labels, root: Hash, x: Hash, pivot: Hash, found: bool, i: nat)
    requires WellFormed(t, root) && iv.Keys == t.Keys && Anc(t, x, pivot) && x != pivot && x in t
    requires forall j :: 0 <= j < |t[x].children| ==>
      Anc(t, t[x].children[j], pivot) ==> SubtreeOk(t, iv, t[x].children[j])
    requires Ordered(iv, t[x].children) && SearchResult(iv, t[x].children, pivot, found, i)
    ensures found && i < |t[x].children|
    ensures var c := t[x].children[i];
      c in t && t[c].parent == x && Anc(t, c, pivot) && Anc(t, x, c) && t[x].height < t[c].height
  {
    var k := ChildToward(t, root, x, pivot);
    var c := t[x].children[k];
    ChildAnc(t, root, x, k);
    AncHeight(t, x, c);
    assert Anc(t, c, c);
    AncContains(t, iv, root, c, c, pivot);
    SearchHit(iv, t[x].children, pivot, k, found, i);
  }

  lemma {:induction false} PathExtends(t: Shape, iv: Labels, root: Hash, side: Side, chosen: Hash, pivot: Hash,
                                       required: int, path: seq<Hash>, slacks: seq<int>, c: Hash)
    requires WellFormed(t, root) && iv.Keys == t.Keys && SubtreeOk(t, iv, chosen)
    requires OnPath(t, iv, side, chosen, pivot, required, path, slacks) && path[|path| - 1] != pivot
    requires c in t && t[c].parent == path[|path| - 1] && Anc(t, c, pivot) && Anc(t, path[|path| - 1], c)
    requires var x := path[|path| - 1];
      x in t && FreeIs(t, iv, side, x, Free(t, iv, side, x)) && Sum(slacks) + Free(t, iv, side, x) < required
    ensures OnPath(t, iv, side, chosen, pivot, required, path + [c], slacks + [Free(t, iv, side, path[|path| - 1])])
    ensures Sum(slacks + [Free(t, iv, side, path[|path| - 1])]) == Sum(slacks) + Free(t, iv, side, path[|path| - 1])
  {
    hide WellFormed, SubtreeOk, Anc, Free, Sum;
    var x := path[|path| - 1];
    var free := Free(t, iv, side, x);
    var path', slacks' := path + [c], slacks + [free];
    assert Anc(t, chosen, c) by {
      AncTrans(t, chosen, x, c);
    }
    SumSnoc(slacks, free);
    forall i | 0 <= i < |path'|
      ensures Anc(t, chosen, path'[i]) && Anc(t, path'[i], pivot) && Sum(slacks'[..i]) < required
    {
      if i < |path| {
        assert slacks'[..i] == slacks[..i] && path'[i] == path[i];
      } else {
        assert slacks'[..i] == slacks';
      }
    }
    forall i, j | 0 <= i && j == i + 1 && j < |path'|
      ensures path'[j] in t && t[path'[j]].parent == path'[i]
    {
      assert j < |path| ==> path'[j] == path[j];
      assert path'[i] == path[i];
    }
    forall i | 0 <= i < |slacks'|
      ensures path'[i] != pivot && FreeIs(t, iv, side, path'[i], slacks'[i])
    {
      assert i < |slacks| ==> slacks'[i] == slacks[i];
    }
  }

  /** The chain blocks from depth `j` down have given up their labels, and what hangs below
      `chosen` is in order. */
  ghost predicate GivenUp(t: Shape, iv: Labels, iv': Labels, side: Side, chosen: Hash, path: seq<Hash>,
                          slacks: seq<int>, budget: int, j: int)
    requires 0 < j < |path| && j <= |slacks| && iv.Keys == t.Keys == iv'.Keys
  {
    && SubtreeOk(t, iv', chosen)
    && SameExcept(iv, iv', Subtree(t, path[j - 1]) - {path[j - 1]})
    && FreeIs(t, iv', side, path[j - 1], slacks[j - 1] + budget)
  }

  /** Whatever changed below a chain block leaves the free labels higher up alone. */
  lemma {:induction false} FreeAbove(t: Shape, iv: Labels, iv': Labels, root: Hash, side: Side, x: Hash, y: Hash,
                                     slack: int)
    requires WellFormed(t, root) && iv.Keys == t.Keys == iv'.Keys && x in t && t[x].parent == y && y in t && x != root
    requires SameExcept(iv, iv', Subtree(t, x) - {x}) && FreeIs(t, iv, side, y, slack)
    ensures FreeIs(t, iv', side, y, slack)
  {
    AncHeight(t, x, x);
    assert HangsOn(t, x, y);
    forall c | c in t[y].children
      ensures iv'[c] == iv[c]
    {
      if Anc(t, x, c) && c != x {
        var i :| 0 <= i < |t[y].children| && t[y].children[i] == c;
        ChildAnc(t, root, y, i);
        SameChild(t, root, x, c);
      }
    }
    if y in Subtree(t, x) {
      AncHeight(t, x, y);
    }
  }

  /** A block of a well-labelled subtree is fit for a slide among its children. */
  lemma {:induction false} ReadyInner(t: Shape, iv: Labels, root: Hash, side: Side, top: Hash, p: Hash, k: int,
                                      offset: int, allocation: Hash)
    requires WellFormed(t, root) && iv.Keys == t.Keys && SubtreeOk(t, iv, top) && Anc(t, top, p) && p in t
    requires 0 <= k < |t[p].children| && 0 <= offset && top in iv && iv[top].Valid()
    requires allocation in t && t[allocation].parent != p
    ensures SlideReady(t, iv, side, allocation, p, side.Past(|t[p].children|), k, offset)
  {
    var cs := t[p].children;
    LabelValid(t, iv, root, top, p);
    ChildrenOk(t, iv, root, top, p);
    assert NodeOk(t, iv, p);
    hide WellFormed, Anc, Subtree, Adjacent;
    forall i | 0 <= i < |cs|
      ensures cs[i] != allocation && cs[i] in t && iv[cs[i]].start <= iv[cs[i]].end + 1
    {
      ChildAnc(t, root, p, i);
      assert Labelled(iv, cs[i]);
    }
  }

  /** So are the children among which one is too small, if the slide makes room for it. */
  lemma {:induction false} ReadyOuter(t: Shape, iv: Labels, root: Hash, side: Side, p: Hash, a: int, k: int,
                                      offset: int)
    requires WellFormed(t, root) && iv.Keys == t.Keys && p in t && OneBad(t, iv, p, a) && iv[p].Valid()
    requires 0 <= k < |t[p].children| && 0 <= offset && (if side.Low? then a < k else k < a)
    requires var c := t[p].children[a];
      c in iv && iv[c].start <= iv[c].end + 1 && |Subtree(t, c)| <= iv[c].Size() + offset
    ensures SlideReady(t, iv, side, t[p].children[a], p, a, k, offset)
  {
    var cs := t[p].children;
    forall i | 0 <= i < |cs|
      ensures cs[i] in t && iv[cs[i]].start <= iv[cs[i]].end + 1
    {
      ChildAnc(t, root, p, i);
      if i != a {
        assert Anc(t, cs[i], cs[i]);
        assert NodeOk(t, iv, cs[i]);
      }
    }
  }

  /** Inside the subtree of one good child, changes do not disturb the picture around its parent. */
  lemma {:induction false} OneBadKept(t: Shape, iv: Labels, iv': Labels, root: Hash, p: Hash, a: int, k: int)
    requires WellFormed(t, root) && iv.Keys == t.Keys == iv'.Keys && p in t && OneBad(t, iv, p, a)
    requires 0 <= k < |t[p].children| && k != a
    requires var c := t[p].children[k]; SameExcept(iv, iv', Subtree(t, c) - {c}) && SubtreeOk(t, iv', c)
    ensures OneBad(t, iv', p, a) && iv'[p] == iv[p]
    ensures forall j :: 0 <= j < |t[p].children| ==>
      t[p].children[j] in t && iv'[t[p].children[j]] == iv[t[p].children[j]]
  {
    var cs := t[p].children;
    ChildAnc(t, root, p, k);
    forall j | 0 <= j < |cs|
      ensures cs[j] in t && iv'[cs[j]] == iv[cs[j]]
      ensures j != a ==> SubtreeOk(t, iv', cs[j])
    {
      ChildAnc(t, root, p, j);
      if j != k {
        SiblingFrame(t, root, iv, iv', p, k, j);
        if j != a {
          SiblingKept(t, root, iv, iv', p, k, j);
        }
      }
    }
    assert p !in Subtree(t, cs[k]);
  }

  /** One step up the path above `chosen`. */
  lemma {:induction false} LevelInner(t: Shape, root: Hash, iv: Labels, mid: Labels, iv': Labels, side: Side,
                                      chosen: Hash, pivot: Hash, required: int,
                   path: seq<Hash>, slacks: seq<int>, j: int, k: int, offset: int)
    requires WellFormed(t, root) && iv.Keys == t.Keys == mid.Keys && iv'.Keys == t.Keys
    requires OnPath(t, iv, side, chosen, pivot, required, path, slacks) && 0 < j < |path| && 0 <= offset
    requires SubtreeOk(t, mid, chosen) && SameExcept(iv, mid, Subtree(t, path[j]) - {path[j]})
    requires path[j - 1] in t && 0 <= k < |t[path[j - 1]].children| && t[path[j - 1]].children[k] == path[j]
    requires Slid(t, mid, iv', side, path[j - 1], side.Past(|t[path[j - 1]].children|), k, offset)
    ensures GivenUp(t, iv, iv', side, chosen, path, slacks, offset, j)
  {
    var x, p := path[j], path[j - 1];
    hide WellFormed, SubtreeOk, Anc, Free, Slid, Sum, Subtree;
    InnerLevel(t, mid, iv', root, chosen, p, side, k, offset);
    ChildAnc(t, root, p, k);
    FreeAbove(t, iv, mid, root, side, x, p, slacks[j - 1]);
    FreeGrew(t, mid, iv', root, side, chosen, p, slacks[j - 1], offset);
    SubtreeInside(t, p, x);
    ChangesAdd(iv, mid, iv', Subtree(t, x) - {x}, Subtree(t, p) - {p}, Subtree(t, p) - {p});
  }

  lemma {:induction false} SubtreeInside(t: Shape, p: Hash, x: Hash)
    requires Anc(t, p, x)
    ensures Subtree(t, x) - {x} <= Subtree(t, p) - {p}
  {
    forall y | y in Subtree(t, x) - {x}
      ensures y in Subtree(t, p) - {p}
    {
      AncTrans(t, p, x, y);
      AncHeight(t, p, x);
      AncHeight(t, x, y);
    }
  }

  lemma {:induction false} FreeGrew(t: Shape, mid: Labels, iv': Labels, root: Hash, side: Side, top: Hash, p: Hash,
                                    slack: int, offset: int)
    requires WellFormed(t, root) && mid.Keys == t.Keys == iv'.Keys && SubtreeOk(t, iv', top) && Anc(t, top, p)
    requires FreeIs(t, mid, side, p, slack) && (forall c :: c in t[p].children ==> c in iv')
    requires Free(t, iv', side, p) == Free(t, mid, side, p) + offset && 0 <= offset
    ensures FreeIs(t, iv', side, p, slack + offset)
  {
  }

  /** The child of `common` at `a` needs `required` labels, which are to come from the path that
      leads from the child at `k` down to `pivot`. */
  ghost predicate ReclaimReady(t: Shape, iv: Labels, side: Side, common: Hash, a: int, k: int, pivot: Hash,
                               required: int)
    requires iv.Keys == t.Keys
  {
    && common in t && OneBad(t, iv, common, a) && iv[common].Valid()
    && 0 <= k < |t[common].children| && (if side.Low? then a < k else k < a)
    && Anc(t, t[common].children[k], pivot) && pivot in t && |t[pivot].children| > 0
    && 0 < required
    && var c := t[common].children[a];
       c in iv && iv[c].start <= iv[c].end + 1 && |Subtree(t, c)| <= required
  }

  /** The outcome: exactly `required` labels moved from the child at `k` to the one at `a`, and
      everything below `common` is in order. */
  ghost predicate Reclaimed(t: Shape, iv: Labels, iv': Labels, side: Side, common: Hash, a: int, k: int, required: int)
    requires common in t && 0 <= k < |t[common].children|
  {
    && SubtreeOk(t, iv', common) && SameExcept(iv, iv', Subtree(t, common) - {common})
    && (forall i :: 0 <= i < |t[common].children| ==> t[common].children[i] in iv && t[common].children[i] in iv')
    && RowSlid(side, iv, iv', t[common].children, a, k, required)
  }

  /** The last step, among the children of `common`. */
  lemma {:induction false} LevelOuter(t: Shape, root: Hash, iv: Labels, mid: Labels, iv': Labels, side: Side,
                                      common: Hash, a: int, k: int, pivot: Hash, required: int)
    requires WellFormed(t, root) && iv.Keys == t.Keys == mid.Keys && iv'.Keys == t.Keys
    requires ReclaimReady(t, iv, side, common, a, k, pivot, required)
    requires OneBad(t, mid, common, a) && mid[common] == iv[common]
    requires forall j :: 0 <= j < |t[common].children| ==>
      t[common].children[j] in t && mid[t[common].children[j]] == iv[t[common].children[j]]
    requires SameExcept(iv, mid, Subtree(t, t[common].children[k]))
    requires Slid(t, mid, iv', side, common, a, k, required)
    ensures Reclaimed(t, iv, iv', side, common, a, k, required)
  {
    hide WellFormed, SubtreeOk, Anc, OneBad, Subtree, Adjacent, Touched;
    OuterLevel(t, mid, iv', root, common, side, a, k, required);
    ChildAnc(t, root, common, k);
    SubtreeUnder(t, common, t[common].children[k]);
    ChangesAdd(iv, mid, iv', Subtree(t, t[common].children[k]), Subtree(t, common) - {common},
      Subtree(t, common) - {common});
  }

  lemma {:induction false} SubtreeUnder(t: Shape, p: Hash, x: Hash)
    requires Anc(t, p, x) && !Anc(t, x, p)
    ensures Subtree(t, x) <= Subtree(t, p) - {p}
  {
    forall y | y in Subtree(t, x)
      ensures y in Subtree(t, p) - {p}
    {
      AncTrans(t, p, x, y);
    }
  }

  lemma {:induction false} ChosenFacts(t: Shape, root: Hash, iv: Labels, side: Side, common: Hash, a: int, k: int,
                                       pivot: Hash, required: int)
    requires WellFormed(t, root) && iv.Keys == t.Keys && ReclaimReady(t, iv, side, common, a, k, pivot, required)
    ensures var c := t[common].children[k];
      c in t && t[c].parent == common && Anc(t, c, c) && SubtreeOk(t, iv, c) && iv[c].Valid() && Anc(t, c, pivot)
  {
    var cs := t[common].children;
    ChildAnc(t, root, common, k);
    assert Anc(t, cs[k], cs[k]);
    assert NodeOk(t, iv, cs[k]);
    forall i | 0 <= i < |cs|
      ensures iv[cs[i]].start <= iv[cs[i]].end + 1
    {
      ChildAnc(t, root, common, i);
      if i != a {
        assert Anc(t, cs[i], cs[i]);
        assert NodeOk(t, iv, cs[i]);
      }
    }
    LooseBounds(iv, cs, k);
  }

  /** Giving up no more than the free labels leaves a legal interval. */
  lemma {:induction false} ShrunkValid(t: Shape, iv: Labels, root: Hash, side: Side, top: Hash, x: Hash, offset: int)
    requires WellFormed(t, root) && iv.Keys == t.Keys && SubtreeOk(t, iv, top) && Anc(t, top, x) && x in t
    requires top in iv && iv[top].Valid() && |t[x].children| > 0
    requires forall c :: c in t[x].children ==> c in iv
    requires 0 <= offset <= Free(t, iv, side, x)
    ensures side.Shrunk(iv[x], offset).Valid() && SubtreeOk(t, iv, x)
  {
    LabelValid(t, iv, root, top, x);
    SubtreeWithin(t, iv, root, top, x);
    assert NodeOk(t, iv, x);
    RowBounds(iv, t[x].children, 0);
    assert Labelled(iv, t[x].children[0]);
  }

  lemma {:induction false} TopSame(t: Shape, iv: Labels, mid: Labels, top: Hash, x: Hash)
    requires Anc(t, top, x) && SameExcept(iv, mid, Subtree(t, x) - {x}) && top in iv
    ensures mid[top] == iv[top]
  {
    AncHeight(t, top, x);
    if Anc(t, x, top) {
      AncHeight(t, x, top);
    }
  }

  /** What every step up the path starts from. */
  ghost predicate LevelStart(t: Shape, iv: Labels, mid: Labels, side: Side, common: Hash, a: int, k: int, pivot: Hash,
                             required: int,
                             path: seq<Hash>, slacks: seq<int>, j: int, offset: int, propagate: bool)
    requires iv.Keys == t.Keys == mid.Keys
  {
    && ReclaimReady(t, iv, side, common, a, k, pivot, required)
    && OnPath(t, iv, side, t[common].children[k], pivot, required, path, slacks)
    && 0 <= j < |path| && SameExcept(iv, mid, Subtree(t, path[j]) - {path[j]})
    && SubtreeOk(t, mid, t[common].children[k])
    && 0 < offset && (j == 0 ==> offset == required)
    && path[j] in t && |t[path[j]].children| > 0 && (forall c :: c in t[path[j]].children ==> c in mid)
    && (propagate || offset <= Free(t, mid, side, path[j]))
  }

  ghost predicate LevelDone(t: Shape, iv: Labels, iv': Labels, side: Side, common: Hash, a: int, k: int, required: int,
                            path: seq<Hash>, slacks: seq<int>, j: int, offset: int)
    requires iv.Keys == t.Keys == iv'.Keys && common in t && 0 <= k < |t[common].children|
    requires 0 <= j < |path| && j <= |slacks|
  {
    if j == 0 then Reclaimed(t, iv, iv', side, common, a, k, required)
    else GivenUp(t, iv, iv', side, t[common].children[k], path, slacks, offset, j)
  }

  /** The sibling list in which a step up the path takes place is fit for the slide. */
  lemma {:induction false} LevelReady(t: Shape, root: Hash, iv: Labels, mid: Labels, side: Side, common: Hash, a: int,
                                      k: int, pivot: Hash, required: int,
                   path: seq<Hash>, slacks: seq<int>, j: int, offset: int, propagate: bool)
      returns (p: Hash, at: int, a': int)
    requires WellFormed(t, root) && iv.Keys == t.Keys == mid.Keys
    requires LevelStart(t, iv, mid, side, common, a, k, pivot, required, path, slacks, j, offset, propagate)
    ensures p in t && 0 <= at < |t[p].children| && t[p].children[at] == path[j] && t[path[j]].parent == p
    ensures if j == 0 then p == common && at == k && a' == a else p == path[j - 1] && a' == side.Past(|t[p].children|)
    ensures SlideReady(t, mid, side, t[common].children[a], p, a', at, offset)
    ensures !propagate ==> side.Shrunk(mid[path[j]], offset).Valid() && SubtreeOk(t, mid, path[j])
    ensures path[j] in mid && mid[path[j]].Valid()
    ensures j == 0 ==> OneBad(t, mid, common, a) && mid[common] == iv[common]
    ensures j == 0 ==>
      forall i :: 0 <= i < |t[common].children| ==>
      t[common].children[i] in t && mid[t[common].children[i]] == iv[t[common].children[i]]
  {
    hide WellFormed, SubtreeOk, Anc, Subtree, Adjacent, Touched, Free, SlideReady, Sum;
    var chosen := t[common].children[k];
    ChosenFacts(t, root, iv, side, common, a, k, pivot, required);
    TopSame(t, iv, mid, chosen, path[j]);
    LabelValid(t, mid, root, chosen, path[j]);
    if !propagate {
      ShrunkValid(t, mid, root, side, chosen, path[j], offset);
    }
    if j == 0 {
      p, at, a' := common, k, a;
      OneBadKept(t, iv, mid, root, common, a, k);
      ReadyOuter(t, mid, root, side, common, a, k, offset);
    } else {
      p := path[j - 1];
      assert t[path[j]].parent == p && FreeIs(t, iv, side, p, slacks[j - 1]);
      at := ChildIndex(t, root, path[j], chosen);
      a' := side.Past(|t[p].children|);
      ChildAnc(t, root, common, a);
      NotCommon(t, root, chosen, common, p);
      ReadyInner(t, mid, root, side, chosen, p, at, offset, t[common].children[a]);
    }
  }

  lemma {:induction false} ChildIndex(t: Shape, root: Hash, x: Hash, top: Hash) returns (i: int)
    requires WellFormed(t, root) && x in t && t[x].parent in t
    ensures 0 <= i < |t[t[x].parent].children| && t[t[x].parent].children[i] == x
  {
    assert HangsOn(t, x, t[x].parent);
    i :| 0 <= i < |t[t[x].parent].children| && t[t[x].parent].children[i] == x;
  }

  lemma {:induction false} NotCommon(t: Shape, root: Hash, chosen: Hash, common: Hash, p: Hash)
    requires WellFormed(t, root) && chosen in t && t[chosen].parent == common && common in t && Anc(t, chosen, p)
    ensures p != common && p in t
  {
    assert HangsOn(t, chosen, common);
    AncHeight(t, chosen, p);
  }

  lemma {:induction false} PathStarts(t: Shape, root: Hash, iv: Labels, side: Side, common: Hash, a: int, k: int,
                                      pivot: Hash, required: int)
    requires WellFormed(t, root) && iv.Keys == t.Keys && ReclaimReady(t, iv, side, common, a, k, pivot, required)
    ensures OnPath(t, iv, side, t[common].children[k], pivot, required, [t[common].children[k]], [])
    ensures SubtreeOk(t, iv, t[common].children[k])
  {
    ChosenFacts(t, root, iv, side, common, a, k, pivot, required);
  }

  /** The last block of the path: it is in the tree, above or at `pivot`, and has a child. */
  lemma {:induction false} PathEnd(t: Shape, root: Hash, iv: Labels, side: Side, chosen: Hash, pivot: Hash,
                                   required: int, path: seq<Hash>, slacks: seq<int>)
    requires WellFormed(t, root) && iv.Keys == t.Keys && SubtreeOk(t, iv, chosen) && pivot in t &&
      |t[pivot].children| > 0
    requires OnPath(t, iv, side, chosen, pivot, required, path, slacks)
    ensures var x := path[|slacks|];
      && x in t && Anc(t, chosen, x) && Anc(t, x, pivot) && t[x].height <= t[pivot].height
      && |t[x].children| > 0 && FreeIs(t, iv, side, x, Free(t, iv, side, x))
      && Ordered(iv, t[x].children)
      && SubtreeOk(t, iv, x)
  {
    var x := path[|slacks|];
    assert Anc(t, chosen, x) && Anc(t, x, pivot);
    AncHeight(t, x, pivot);
    FreeNonNegative(t, iv, root, side, chosen, x);
    if x != pivot {
      var _ := ChildToward(t, root, x, pivot);
    }
    assert NodeOk(t, iv, x);
    RowOrdered(iv, t[x].children);
    SubtreeWithin(t, iv, root, chosen, x);
  }

  /** The walk has come as far as `current`, with `slackSum` free labels on the way. */
  ghost predicate Walk(t: Shape, iv: Labels, side: Side, chosen: Hash, pivot: Hash, required: int, path: seq<Hash>,
                       slacks: seq<int>,
                       current: Hash, slackSum: int, pathLen: int)
    requires iv.Keys == t.Keys
  {
    && OnPath(t, iv, side, chosen, pivot, required, path, slacks) && current == path[|slacks|]
    && slackSum == Sum(slacks) && pathLen == |slacks|
    && current in t && pivot in t && |t[pivot].children| > 0 && pathLen <= t[current].height <= t[pivot].height
  }

  lemma {:induction false} WalkStarts(t: Shape, root: Hash, iv: Labels, side: Side, common: Hash, a: int, k: int,
                                      pivot: Hash, required: int)
    requires WellFormed(t, root) && iv.Keys == t.Keys && ReclaimReady(t, iv, side, common, a, k, pivot, required)
    ensures var chosen := t[common].children[k];
      SubtreeOk(t, iv, chosen) && Walk(t, iv, side, chosen, pivot, required, [chosen], [], chosen, 0, 0)
  {
    var chosen := t[common].children[k];
    PathStarts(t, root, iv, side, common, a, k, pivot, required);
    PathEnd(t, root, iv, side, chosen, pivot, required, [chosen], []);
  }

  /** Where the walk stands, and what it would ask for here. */
  lemma {:induction false} WalkHere(t: Shape, root: Hash, iv: Labels, side: Side, chosen: Hash, pivot: Hash,
                                    required: int, path: seq<Hash>, slacks: seq<int>,
                 current: Hash, slackSum: int, pathLen: int, reserve: int)
    requires WellFormed(t, root) && iv.Keys == t.Keys && SubtreeOk(t, iv, chosen)
    requires Walk(t, iv, side, chosen, pivot, required, path, slacks, current, slackSum, pathLen)
    ensures current in t && FreeIs(t, iv, side, current, Free(t, iv, side, current)) &&
      Ordered(iv, t[current].children) && pivot in iv
    ensures required + reserve * pathLen - slackSum == Budget(required, reserve, slacks, |slacks|)
    ensures required - slackSum == Budget(required, 0, slacks, |slacks|)
  {
    PathEnd(t, root, iv, side, chosen, pivot, required, path, slacks);
    BudgetFull(required, reserve, slacks);
  }

  /** One step down the chain, taking the child that the search found. */
  lemma {:induction false} StepDown(t: Shape, root: Hash, iv: Labels, side: Side, chosen: Hash, pivot: Hash,
                                    required: int, path: seq<Hash>, slacks: seq<int>,
                 current: Hash, slackSum: int, pathLen: int, free: int, found: bool, i: nat)
    requires WellFormed(t, root) && iv.Keys == t.Keys && SubtreeOk(t, iv, chosen)
    requires Walk(t, iv, side, chosen, pivot, required, path, slacks, current, slackSum, pathLen) && current != pivot
    requires FreeIs(t, iv, side, current, free) && slackSum + free < required
    requires Ordered(iv, t[current].children) && SearchResult(iv, t[current].children, pivot, found, i)
    ensures found && i < |t[current].children|
    ensures var c := t[current].children[i];
      && c in t && t[current].height < t[c].height <= t[pivot].height
      && Walk(t, iv, side, chosen, pivot, required, path + [c], slacks + [free], c, slackSum + free, pathLen + 1)
  {
    hide WellFormed, Anc, SubtreeOk, Ordered, Sum, SearchResult, Free;
    PathEnd(t, root, iv, side, chosen, pivot, required, path, slacks);
    OwnSubtrees(t, iv, root, current);
    NextOnChain(t, iv, root, current, pivot, found, i);
    var c := t[current].children[i];
    AncHeight(t, c, pivot);
    PathExtends(t, iv, root, side, chosen, pivot, required, path, slacks, c);
  }

  lemma {:induction false} OwnSubtrees(t: Shape, iv: Labels, root: Hash, x: Hash)
    requires WellFormed(t, root) && x in t && SubtreeOk(t, iv, x)
    ensures forall j :: 0 <= j < |t[x].children| ==> SubtreeOk(t, iv, t[x].children[j])
  {
    forall j | 0 <= j < |t[x].children|
      ensures SubtreeOk(t, iv, t[x].children[j])
    {
      SubtreeOkBelow(t, iv, root, x, j);
    }
  }

  /** The budget at depth `j` is positive: no subtraction on the way ever goes below zero. */
  lemma {:induction false} PathBudget(t: Shape, iv: Labels, side: Side, chosen: Hash, pivot: Hash, required: int,
                                      path: seq<Hash>, slacks: seq<int>, reserve: nat, j: nat)
    requires iv.Keys == t.Keys && OnPath(t, iv, side, chosen, pivot, required, path, slacks) && j <= |slacks|
    ensures Budget(required, reserve, slacks, j) > 0
  {
    assert Sum(slacks[..j]) < required;
    Product(reserve, j);
  }

  lemma {:induction false} Product(x: nat, y: nat)
    ensures x * y >= 0
  {
  }

  /** Two consecutive blocks of the path. */
  lemma {:induction false} PathPair(t: Shape, root: Hash, iv: Labels, side: Side, chosen: Hash, pivot: Hash,
                                    required: int, path: seq<Hash>, slacks: seq<int>, j: nat)
    requires WellFormed(t, root) && iv.Keys == t.Keys
    requires OnPath(t, iv, side, chosen, pivot, required, path, slacks) && 0 < j <= |slacks|
    ensures path[j] in t && t[path[j]].parent == path[j - 1] && path[j - 1] in t && |t[path[j - 1]].children| > 0
  {
    assert Anc(t, path[j], pivot) && path[j - 1] != pivot && Anc(t, path[j - 1], pivot);
    var _ := ChildToward(t, root, path[j - 1], pivot);
    assert path[j] in t && t[path[j]].parent == path[j - 1];
  }

  /** The parent of a path block is `common` only for the first one. */
  lemma {:induction false} PathParent(t: Shape, root: Hash, iv: Labels, side: Side, common: Hash, a: int, k: int,
                                      pivot: Hash, required: int,
                   path: seq<Hash>, slacks: seq<int>, j: nat)
    requires WellFormed(t, root) && iv.Keys == t.Keys && ReclaimReady(t, iv, side, common, a, k, pivot, required)
    requires OnPath(t, iv, side, t[common].children[k], pivot, required, path, slacks) && j <= |slacks|
    ensures path[j] in t && (t[path[j]].parent == common <==> j == 0)
  {
    var chosen := t[common].children[k];
    ChildAnc(t, root, common, k);
    if j > 0 {
      PathPair(t, root, iv, side, chosen, pivot, required, path, slacks, j);
      assert Anc(t, chosen, path[j - 1]);
      NotCommon(t, root, chosen, common, path[j - 1]);
    }
  }

  lemma {:induction false} FirstLevel(t: Shape, root: Hash, iv: Labels, side: Side, common: Hash, a: int, k: int,
                                      pivot: Hash, required: int,
                   path: seq<Hash>, slacks: seq<int>, reserve: nat, propagate: bool)
    requires WellFormed(t, root) && iv.Keys == t.Keys && ReclaimReady(t, iv, side, common, a, k, pivot, required)
    requires OnPath(t, iv, side, t[common].children[k], pivot, required, path, slacks) &&
      SubtreeOk(t, iv, t[common].children[k])
    requires propagate || (path[|slacks|] in t && FreeIs(t, iv, side, path[|slacks|], Free(t, iv, side, path[|slacks|]))
                           && Budget(required, reserve, slacks, |slacks|) <= Free(t, iv, side, path[|slacks|]))
    ensures LevelStart(t, iv, iv, side, common, a, k, pivot, required, path, slacks, |slacks|,
      Budget(required, reserve, slacks, |slacks|), propagate)
  {
    hide WellFormed, Anc, SubtreeOk, OneBad, Subtree, Free, Ordered;
    PathEnd(t, root, iv, side, t[common].children[k], pivot, required, path, slacks);
    PathBudget(t, iv, side, t[common].children[k], pivot, required, path, slacks, reserve, |slacks|);
  }

  lemma {:induction false} NextLevel(t: Shape, root: Hash, iv: Labels, mid: Labels, side: Side, common: Hash, a: int,
                                     k: int, pivot: Hash, required: int,
                  path: seq<Hash>, slacks: seq<int>, j: int, reserve: nat)
    requires WellFormed(t, root) && iv.Keys == t.Keys == mid.Keys &&
      ReclaimReady(t, iv, side, common, a, k, pivot, required)
    requires OnPath(t, iv, side, t[common].children[k], pivot, required, path, slacks) && 0 < j <= |slacks|
    requires GivenUp(t, iv, mid, side, t[common].children[k], path, slacks, Budget(required, reserve, slacks, j), j)
    ensures t[path[j]].parent == path[j - 1] && path[j - 1] in t &&
      FreeIs(t, mid, side, path[j - 1], Free(t, mid, side, path[j - 1]))
    ensures Free(t, mid, side, path[j - 1]) - reserve == Budget(required, reserve, slacks, j - 1)
    ensures LevelStart(t, iv, mid, side, common, a, k, pivot, required, path, slacks, j - 1,
      Budget(required, reserve, slacks, j - 1), false)
  {
    hide WellFormed, Anc, SubtreeOk, OneBad, Subtree, Free, Budget, Sum, Adjacent;
    PathPair(t, root, iv, side, t[common].children[k], pivot, required, path, slacks, j);
    PathBudget(t, iv, side, t[common].children[k], pivot, required, path, slacks, reserve, j - 1);
    BudgetUp(required, reserve, slacks, j);
    BudgetTop(required, reserve, slacks);
  }

  lemma {:induction false} BudgetFull(required: int, reserve: int, slacks: seq<int>)
    ensures Budget(required, reserve, slacks, |slacks|) == required + reserve * |slacks| - Sum(slacks)
    ensures Budget(required, 0, slacks, |slacks|) == required - Sum(slacks)
  {
    assert slacks[..|slacks|] == slacks;
  }

  lemma {:induction false} SumNonNegative(s: seq<int>)
    requires forall i :: 0 <= i < |s| ==> s[i] >= 0
    ensures Sum(s) >= 0
  {
    if |s| > 0 {
      SumNonNegative(s[..|s| - 1]);
    }
  }

  lemma {:induction false} PathSlacks(t: Shape, iv: Labels, side: Side, chosen: Hash, pivot: Hash, required: int,
                                      path: seq<Hash>, slacks: seq<int>)
    requires iv.Keys == t.Keys && OnPath(t, iv, side, chosen, pivot, required, path, slacks)
    ensures Sum(slacks) >= 0
  {
    forall i | 0 <= i < |slacks|
      ensures slacks[i] >= 0
    {
      assert FreeIs(t, iv, side, path[i], slacks[i]);
    }
    SumNonNegative(slacks);
  }

  lemma {:induction false} BudgetTop(required: int, reserve: int, slacks: seq<int>)
    ensures Budget(required, reserve, slacks, 0) == required
  {
  }
}
