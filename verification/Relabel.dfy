/** What handing out labels keeps: invariants of the top-down pass and of moves among siblings. */
module Relabel {
  import opened Types
  import opened Tree
  import opened Labels
  import opened Counting

  /** The interval of `h` is legal and has a label for every block below. */
  ghost predicate Roomy(t: Shape, iv: Labels, h: Hash) {
    h in iv && iv[h].Valid() && |Subtree(t, h)| <= iv[h].Size()
  }

  /** Labels agree except on the blocks of `changed`. */
  ghost predicate SameExcept(iv: Labels, iv': Labels, changed: set<Hash>) {
    && iv.Keys == iv'.Keys
    && forall h :: h in iv && h !in changed ==> iv'[h] == iv[h]
  }

  ghost predicate HandedOut(t: Shape, iv: Labels, waiting: set<Hash>, done: set<Hash>) {
    && done <= t.Keys
    && (forall x :: x in waiting ==> Roomy(t, iv, x))
    && (forall x :: x in done ==> NodeOk(t, iv, x))
  }

  lemma {:induction false} SubtreeNonEmpty(t: Shape, h: Hash)
    requires h in t
    ensures |Subtree(t, h)| >= 1
  {
    assert h in Subtree(t, h);
  }

  /** From `iv` to `iv'` the children of `x` were given a row inside `x`, each with room for its
      subtree, and nothing else changed. */
  ghost predicate RowGiven(t: Shape, iv: Labels, iv': Labels, x: Hash)
    requires x in t && x in iv
  {
    && SameExcept(iv, iv', Elems(t[x].children)) && iv'[x] == iv[x]
    && RowInside(iv', t[x].children, iv[x])
    && forall i :: 0 <= i < |t[x].children| ==> Roomy(t, iv', t[x].children[i])
  }

  /** Giving the children of one waiting block their row leaves the rows already given alone. */
  lemma {:induction false} HandOut(t: Shape, root: Hash, block: Hash, iv: Labels, iv': Labels, waiting: set<Hash>,
                                   done: set<Hash>, x: Hash)
    requires WellFormed(t, root) && block in t && Explored(t, block, waiting, done, done) && x in waiting
    requires HandedOut(t, iv, waiting, done) && x in t && x in iv && RowGiven(t, iv, iv', x)
    ensures HandedOut(t, iv', waiting - {x} + Elems(t[x].children), done + {x})
    ensures Explored(t, block, waiting - {x} + Elems(t[x].children), done + {x}, done + {x})
  {
    var cs := t[x].children;
    Expand(t, root, block, waiting, done, done, x);
    SubtreeNonEmpty(t, x);
    forall y | y in done
      ensures NodeOk(t, iv', y)
    {
      ServedKept(t, root, iv, iv', x, y);
    }
    assert Roomy(t, iv, x);
    assert NodeOk(t, iv', x);
    forall y | y in waiting - {x} + Elems(cs)
      ensures Roomy(t, iv', y)
    {
      if y in waiting {
        assert Roomy(t, iv, y);
      } else {
        var i :| 0 <= i < |cs| && cs[i] == y;
      }
    }
  }

  lemma {:induction false} ServedKept(t: Shape, root: Hash, iv: Labels, iv': Labels, x: Hash, y: Hash)
    requires WellFormed(t, root) && x in t && y in t && NodeOk(t, iv, y) && y != x && y !in Elems(t[x].children)
    requires SameExcept(iv, iv', Elems(t[x].children))
    ensures NodeOk(t, iv', y)
  {
    forall i | 0 <= i < |t[y].children|
      ensures t[y].children[i] in iv && t[y].children[i] in iv' && iv'[t[y].children[i]] == iv[t[y].children[i]]
    {
      assert Labelled(iv, t[y].children[i]);
      if t[y].children[i] in Elems(t[x].children) {
        ChildOfBoth(t, root, x, y, t[y].children[i]);
      }
    }
    NodeSame(t, iv, iv', y);
  }

  lemma {:induction false} ChildOfBoth(t: Shape, root: Hash, x: Hash, y: Hash, c: Hash)
    requires WellFormed(t, root) && x in t && y in t && c in t[x].children && c in t[y].children
    ensures x == y
  {
    var i :| 0 <= i < |t[x].children| && t[x].children[i] == c;
    var j :| 0 <= j < |t[y].children| && t[y].children[j] == c;
    assert IsChild(t, x, c) && IsChild(t, y, c);
  }

  /** A row does not notice changes to other labels. */
  lemma {:induction false} RowSame(iv: Labels, iv': Labels, cs: seq<Hash>)
    requires Row(iv, cs)
    requires forall i :: 0 <= i < |cs| ==> cs[i] in iv' && iv'[cs[i]] == iv[cs[i]]
    ensures Row(iv', cs)
  {
    forall i | 0 <= i < |cs|
      ensures Labelled(iv', cs[i])
    {
      assert Labelled(iv, cs[i]);
    }
  }

  /** Once nothing waits, every block of the subtree has been served. */
  lemma {:induction false} AllServed(t: Shape, root: Hash, block: Hash, done: set<Hash>, x: Hash)
    requires WellFormed(t, root) && block in t && Explored(t, block, {}, done, done) && Anc(t, block, x)
    ensures x in done
    decreases if x in t then t[x].height else 0
  {
    if x != block {
      AllServed(t, root, block, done, t[x].parent);
      BelowBlock(t, root, block, x);
    }
  }

  lemma {:induction false} NodeSame(t: Shape, iv: Labels, iv': Labels, x: Hash)
    requires x in t && NodeOk(t, iv, x) && x in iv' && iv'[x] == iv[x]
    requires forall i :: 0 <= i < |t[x].children| ==>
      t[x].children[i] in iv' && t[x].children[i] in iv && iv'[t[x].children[i]] == iv[t[x].children[i]]
    ensures NodeOk(t, iv', x)
  {
    RowSame(iv, iv', t[x].children);
  }

  /** A subtree stays well labelled when none of its labels change. */
  lemma {:induction false} SubtreeSame(t: Shape, iv: Labels, iv': Labels, root: Hash, top: Hash)
    requires WellFormed(t, root) && SubtreeOk(t, iv, top)
    requires forall h :: h in t && Anc(t, top, h) ==> h in iv && h in iv' && iv'[h] == iv[h]
    ensures SubtreeOk(t, iv', top)
  {
    forall h | h in t && Anc(t, top, h)
      ensures NodeOk(t, iv', h)
    {
      assert NodeOk(t, iv, h);
      forall i | 0 <= i < |t[h].children|
        ensures Anc(t, top, t[h].children[i])
      {
        ChildAnc(t, root, h, i);
        AncTrans(t, top, h, t[h].children[i]);
      }
      NodeSame(t, iv, iv', h);
    }
  }

  /** Labels of a well-labelled subtree are legal when the top's is. */
  lemma {:induction false} LabelValid(t: Shape, iv: Labels, root: Hash, top: Hash, h: Hash)
    requires WellFormed(t, root) && SubtreeOk(t, iv, top) && Anc(t, top, h)
    requires top in iv && iv[top].Valid()
    ensures Labelled(iv, h) && iv[h].Valid()
  {
    AncHeight(t, top, h);
    AncContains(t, iv, root, top, top, h);
  }
}
