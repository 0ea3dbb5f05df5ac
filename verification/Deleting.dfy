/** What deleting a block does to the tree, the labels and the covering sets. */
module Deleting {
  import opened Types
  import opened Intervals
  import opened Tree
  import opened Labels
  import opened Store
  import opened Dag
  import opened Covering

  function Adopted(t: Shape, kids: set<Hash>, p: Hash): Shape {
    map h | h in t :: if h in kids then t[h].(parent := p) else t[h]
  }

  /** `x` is the `k`th child of `p`. */
  ghost predicate Slot(t: Shape, x: Hash, p: Hash, k: nat) {
    x in t && p in t && t[x].parent == p && k < |t[p].children| && t[p].children[k] == x
  }

  /** The tree after `p` took the children of `x` in its place, with `x` still there. */
  ghost function Emptied(t: Shape, x: Hash, p: Hash, k: nat): Shape
    requires Slot(t, x, p, k)
  {
    Adopted(t[p := t[p].(children := Spliced(t[p].children, k, t[x].children))], Listed(t[x].children), p)
  }

  ghost function Without(t: Shape, x: Hash, p: Hash, k: nat): Shape
    requires Slot(t, x, p, k)
  {
    Emptied(t, x, p, k) - {x}
  }

  lemma {:induction false} WithoutAt(t: Shape, root: Hash, x: Hash, p: Hash, k: nat, h: Hash)
    requires WellFormed(t, root) && Slot(t, x, p, k) && x != root
    ensures Without(t, x, p, k).Keys == t.Keys - {x} && p != x
    ensures h in t && h != x ==>
      && Without(t, x, p, k)[h].height == t[h].height
      && Without(t, x, p, k)[h].parent == (if h != root && t[h].parent == x then p else t[h].parent)
      && Without(t, x, p, k)[h].children == (if h == p then Spliced(t[p].children, k, t[x].children) else t[h].children)
  {
    ChildAnc(t, root, p, k);
    if h in t && h != x {
      if h in t[x].children {
        var i :| 0 <= i < |t[x].children| && t[x].children[i] == h;
        ChildAnc(t, root, x, i);
      } else if h != root {
        assert HangsOn(t, h, t[h].parent);
      }
    }
  }

  lemma {:induction false} SplicedAt(s: seq<Hash>, k: nat, with: seq<Hash>, i: nat)
    requires k < |s| && i < |Spliced(s, k, with)|
    ensures Spliced(s, k, with)[i] == if i < k then s[i] else if i < k + |with| then with[i - k] else s[i - |with| + 1]
  {
  }

  lemma {:induction false} SplicedHas(s: seq<Hash>, k: nat, with: seq<Hash>, h: Hash)
    requires k < |s| && forall i, j :: 0 <= i < j < |s| ==> s[i] != s[j]
    ensures h in Spliced(s, k, with) <==> (h in s && h != s[k]) || h in with
  {
    if h in s && h != s[k] {
      var i :| 0 <= i < |s| && s[i] == h;
      if i < k {
        assert Spliced(s, k, with)[i] == h;
      } else {
        assert Spliced(s, k, with)[i + |with| - 1] == h;
      }
    }
    if h in with {
      var i :| 0 <= i < |with| && with[i] == h;
      assert Spliced(s, k, with)[k + i] == h;
    }
  }

  lemma {:induction false} WithoutHangs(t: Shape, root: Hash, x: Hash, p: Hash, k: nat, h: Hash)
    requires WellFormed(t, root) && Slot(t, x, p, k) && x != root && h in t && h != x && h != root
    ensures h in Without(t, x, p, k) && HangsOn(Without(t, x, p, k), h, Without(t, x, p, k)[h].parent)
  {
    var q := t[h].parent;
    WithoutAt(t, root, x, p, k, h);
    WithoutAt(t, root, x, p, k, p);
    assert HangsOn(t, h, q) && HangsOn(t, x, p);
    if q == x {
      SplicedHas(t[p].children, k, t[x].children, h);
    } else {
      WithoutAt(t, root, x, p, k, q);
      SplicedHas(t[p].children, k, t[x].children, h);
    }
  }

  lemma {:induction false} WithoutChild(t: Shape, root: Hash, x: Hash, p: Hash, k: nat, h: Hash, i: nat)
    requires WellFormed(t, root) && Slot(t, x, p, k) && x != root && h in t && h != x
    requires h in Without(t, x, p, k) && i < |Without(t, x, p, k)[h].children|
    ensures IsChild(Without(t, x, p, k), h, Without(t, x, p, k)[h].children[i])
  {
    WithoutAt(t, root, x, p, k, h);
    var c := Without(t, x, p, k)[h].children[i];
    WithoutAt(t, root, x, p, k, c);
    if h == p {
      SplicedAt(t[p].children, k, t[x].children, i);
      if k <= i < k + |t[x].children| {
        ChildAnc(t, root, x, i - k);
      } else {
        ChildAnc(t, root, p, if i < k then i else i - |t[x].children| + 1);
      }
    } else {
      ChildAnc(t, root, h, i);
    }
  }

  lemma {:induction false} WithoutDistinct(t: Shape, root: Hash, x: Hash, p: Hash, k: nat, h: Hash, i: nat, j: nat)
    requires WellFormed(t, root) && Slot(t, x, p, k) && x != root && h in t && h != x
    requires h in Without(t, x, p, k) && i < j < |Without(t, x, p, k)[h].children|
    ensures Without(t, x, p, k)[h].children[i] != Without(t, x, p, k)[h].children[j]
  {
    WithoutAt(t, root, x, p, k, h);
    if h == p {
      var n := |t[x].children|;
      SplicedAt(t[p].children, k, t[x].children, i);
      SplicedAt(t[p].children, k, t[x].children, j);
      if i < k <= j < k + n {
        ChildAnc(t, root, p, i);
        ChildAnc(t, root, x, j - k);
      } else if k <= i < k + n <= j {
        ChildAnc(t, root, p, j - n + 1);
        ChildAnc(t, root, x, i - k);
      }
    }
  }

  lemma {:induction false} WithoutWellFormed(t: Shape, root: Hash, x: Hash, p: Hash, k: nat)
    requires WellFormed(t, root) && Slot(t, x, p, k) && x != root
    ensures WellFormed(Without(t, x, p, k), root)
  {
    var t' := Without(t, x, p, k);
    WithoutAt(t, root, x, p, k, root);
    hide Without, Slot;
    forall h | h in t' && h != root
      ensures HangsOn(t', h, t'[h].parent)
    {
      WithoutHangs(t, root, x, p, k, h);
    }
    forall h, i | h in t' && 0 <= i < |t'[h].children|
      ensures IsChild(t', h, t'[h].children[i])
    {
      WithoutChild(t, root, x, p, k, h, i);
    }
    forall h, i, j | h in t' && 0 <= i < j < |t'[h].children|
      ensures t'[h].children[i] != t'[h].children[j]
    {
      WithoutDistinct(t, root, x, p, k, h, i, j);
    }
  }

  /** Ancestry among the survivors is as before. */
  lemma {:induction false} AncWithout(t: Shape, root: Hash, x: Hash, p: Hash, k: nat, a: Hash, b: Hash)
    requires WellFormed(t, root) && Slot(t, x, p, k) && x != root && b in t && b != x && a != x
    ensures Anc(Without(t, x, p, k), a, b) <==> Anc(t, a, b)
    decreases t[b].height
  {
    WithoutAt(t, root, x, p, k, b);
    if b != root {
      var q := t[b].parent;
      assert HangsOn(t, b, q) && HangsOn(t, x, p);
      WithoutHangs(t, root, x, p, k, b);
      WithoutWellFormed(t, root, x, p, k);
      hide WellFormed, Without;
      AncParent(t, root, a, b);
      AncParent(Without(t, x, p, k), root, a, b);
      if q == x {
        AncParent(t, root, a, x);
        AncWithout(t, root, x, p, k, a, p);
      } else {
        AncWithout(t, root, x, p, k, a, q);
      }
    } else {
      WithoutWellFormed(t, root, x, p, k);
      NoParent(t, root, a);
      NoParent(Without(t, x, p, k), root, a);
    }
  }

  lemma {:induction false} NoParent(t: Shape, root: Hash, a: Hash)
    requires WellFormed(t, root)
    ensures Anc(t, a, root) <==> a == root
  {
  }

  // ---------- labels ----------

  /** The labels of `x` go to its outermost children, or to its sibling on the left if it has none. */
  ghost function Inherited(t: Shape, iv: Labels, x: Hash, p: Hash, k: nat): Labels
    requires Slot(t, x, p, k) && x in iv && (forall c :: c in t[x].children ==> c in iv) &&
      (forall c :: c in t[p].children ==> c in iv)
  {
    var cs := t[x].children;
    if |cs| == 0 then
      if k > 0 then iv[t[p].children[k - 1] := Interval(iv[t[p].children[k - 1]].start, iv[x].end)] else iv
    else if |cs| == 1 then
      iv[cs[0] := iv[x]]
    else
      iv[cs[0] := Interval(iv[x].start, iv[cs[0]].end)][cs[|cs| - 1] := Interval(iv[cs[|cs| - 1]].start, iv[x].end)]
  }

  lemma {:induction false} SlotLabels(t: Shape, iv: Labels, root: Hash, x: Hash, p: Hash, k: nat)
    requires TreeOk(t, iv, root) && Slot(t, x, p, k)
    ensures x in iv && p in iv && (forall c :: c in t[x].children ==> c in iv) &&
      (forall c :: c in t[p].children ==> c in iv)
    ensures RowInside(iv, t[x].children, iv[x]) && Labelled(iv, x) && RowInside(iv, t[p].children, iv[p])
  {
    hide WellFormed;
    assert NodeOk(t, iv, x) && NodeOk(t, iv, p);
  }

  ghost predicate Wider(iv: Labels, iv': Labels, h: Hash) {
    h in iv && h in iv' && iv'[h].start <= iv[h].start && iv[h].end <= iv'[h].end
  }

  /** Labels only grow, and only for children of `x` or of its parent. */
  lemma {:induction false} InheritedWider(t: Shape, iv: Labels, root: Hash, x: Hash, p: Hash, k: nat, h: Hash)
    requires TreeOk(t, iv, root) && Slot(t, x, p, k) && x != root && h in t
    ensures x in iv && (forall c :: c in t[x].children ==> c in iv) && (forall c :: c in t[p].children ==> c in iv)
    ensures Wider(iv, Inherited(t, iv, x, p, k), h)
    ensures Inherited(t, iv, x, p, k).Keys == t.Keys
    ensures h !in t[x].children && h !in t[p].children ==> Inherited(t, iv, x, p, k)[h] == iv[h]
    ensures |t[x].children| > 0 && h !in t[x].children ==> Inherited(t, iv, x, p, k)[h] == iv[h]
  {
    SlotLabels(t, iv, root, x, p, k);
    var cs, row := t[x].children, t[p].children;
    assert forall i :: 0 <= i < |cs| ==> Labelled(iv, cs[i]);
    if |cs| == 0 {
      if k > 0 {
        assert iv[row[k - 1]].end + 1 == iv[row[k]].start;
      }
    } else {
      RowBounds(iv, cs, 0);
      RowBounds(iv, cs, |cs| - 1);
      if |cs| > 1 {
        SiblingsDiffer(t, root, x);
      }
    }
  }

  lemma {:induction false} SiblingsDiffer(t: Shape, root: Hash, x: Hash)
    requires WellFormed(t, root) && x in t
    ensures forall i, j :: 0 <= i < j < |t[x].children| ==> t[x].children[i] != t[x].children[j]
  {
  }

  /** The children of `x` now fill the labels of `x` exactly. */
  ghost predicate Fills(iv: Labels, cs: seq<Hash>, whole: Interval) {
    Row(iv, cs) && |cs| > 0 && iv[cs[0]].start == whole.start && iv[cs[|cs| - 1]].end == whole.end
  }

  lemma {:induction false} HeirsFill(iv: Labels, cs: seq<Hash>, whole: Interval)
    requires RowInside(iv, cs, whole) && |cs| > 1 && forall i, j :: 0 <= i < j < |cs| ==> cs[i] != cs[j]
    ensures Fills(iv[cs[0] := Interval(whole.start, iv[cs[0]].end)][cs[|cs| - 1] :=
      Interval(iv[cs[|cs| - 1]].start, whole.end)], cs, whole)
  {
    var iv' :=
      iv[cs[0] := Interval(whole.start, iv[cs[0]].end)][cs[|cs| - 1] := Interval(iv[cs[|cs| - 1]].start, whole.end)];
    forall i | 0 <= i < |cs|
      ensures Labelled(iv', cs[i])
    {
      assert Labelled(iv, cs[i]);
    }
  }

  /** A row in which one member gives way to others that fill its labels. */
  lemma {:induction false} RowFilled(iv: Labels, iv': Labels, row: seq<Hash>, k: nat, cs: seq<Hash>, box: Interval)
    requires RowInside(iv, row, box) && k < |row| && Fills(iv', cs, iv[row[k]])
    requires forall i :: 0 <= i < |row| && i != k ==> row[i] in iv' && iv'[row[i]] == iv[row[i]]
    ensures RowInside(iv', Spliced(row, k, cs), box)
  {
    var spliced, n := Spliced(row, k, cs), |cs|;
    forall i | 0 <= i < |spliced|
      ensures Labelled(iv', spliced[i])
    {
      SplicedAt(row, k, cs, i);
      if k <= i < k + n {
        assert Labelled(iv', cs[i - k]);
      } else {
        assert Labelled(iv, row[if i < k then i else i - n + 1]);
      }
    }
    forall i, j | 0 <= i && j == i + 1 && j < |spliced|
      ensures iv'[spliced[i]].end + 1 == iv'[spliced[j]].start
    {
      SplicedAt(row, k, cs, i);
      SplicedAt(row, k, cs, j);
      if j < k || (j == k && i < k) {
        assert iv[row[i]].end + 1 == iv[row[j]].start;
      } else if j < k + n {
        assert iv'[cs[i - k]].end + 1 == iv'[cs[j - k]].start;
      } else {
        assert iv[row[i - n + 1]].end + 1 == iv[row[j - n + 1]].start;
      }
    }
    SplicedAt(row, k, cs, 0);
    SplicedAt(row, k, cs, |spliced| - 1);
  }

  /** A member that stays keeps its labels, but for the one before the gap, and is next to the one after. */
  lemma {:induction false} MemberClosed(iv: Labels, iv': Labels, row: seq<Hash>, k: nat, box: Interval, i: nat)
    requires RowInside(iv, row, box) && k < |row| && i < |Spliced(row, k, [])|
    requires forall i :: 0 <= i < |row| && i != k && i != k - 1 ==> row[i] in iv' && iv'[row[i]] == iv[row[i]]
    requires k > 0 ==> row[k - 1] in iv' && iv'[row[k - 1]] == Interval(iv[row[k - 1]].start, iv[row[k]].end)
    ensures var m := if i < k then i else i + 1;
      && m < |row| && Spliced(row, k, [])[i] == row[m] && row[m] in iv && row[m] in iv' && row[k] in iv
      && Labelled(iv', row[m]) && iv'[row[m]].start == iv[row[m]].start
      && iv'[row[m]].end == iv[row[if i == k - 1 then k else m]].end
      && (m + 1 < |row| ==> row[m + 1] in iv && iv[row[m]].end + 1 == iv[row[m + 1]].start)
      && (m == k - 1 && k + 1 < |row| ==> row[k + 1] in iv && iv[row[k]].end + 1 == iv[row[k + 1]].start)
  {
    var m := if i < k then i else i + 1;
    SplicedAt(row, k, [], i);
    assert Labelled(iv, row[m]) && Labelled(iv, row[k]);
    assert m + 1 < |row| ==> Labelled(iv, row[m + 1]) && iv[row[m]].end + 1 == iv[row[m + 1]].start;
    assert k + 1 < |row| ==> Labelled(iv, row[k + 1]) && iv[row[k]].end + 1 == iv[row[k + 1]].start;
  }

  /** A row in which one member is dropped and the one before it takes its labels. */
  lemma {:induction false} RowClosed(iv: Labels, iv': Labels, row: seq<Hash>, k: nat, box: Interval)
    requires RowInside(iv, row, box) && k < |row| && box.start <= box.end
    requires forall i :: 0 <= i < |row| && i != k && i != k - 1 ==> row[i] in iv' && iv'[row[i]] == iv[row[i]]
    requires k > 0 ==> row[k - 1] in iv' && iv'[row[k - 1]] == Interval(iv[row[k - 1]].start, iv[row[k]].end)
    ensures RowInside(iv', Spliced(row, k, []), box)
  {
    var spliced := Spliced(row, k, []);
    assert Labelled(iv, row[k]);
    forall i | 0 <= i < |spliced|
      ensures Labelled(iv', spliced[i])
    {
      MemberClosed(iv, iv', row, k, box, i);
    }
    forall i, j | 0 <= i && j == i + 1 && j < |spliced|
      ensures iv'[spliced[i]].end + 1 == iv'[spliced[j]].start
    {
      MemberClosed(iv, iv', row, k, box, i);
      MemberClosed(iv, iv', row, k, box, j);
    }
    if |spliced| > 0 {
      MemberClosed(iv, iv', row, k, box, 0);
      MemberClosed(iv, iv', row, k, box, |spliced| - 1);
    }
    if |spliced| > 0 {
      assert Labelled(iv', spliced[0]) && Labelled(iv', spliced[|spliced| - 1]);
      RowBounds(iv, row, k);
      RowBounds(iv, row, if k == 0 then 1 else 0);
    }
  }

  lemma {:induction false} OtherRow(t: Shape, iv: Labels, root: Hash, x: Hash, p: Hash, k: nat, h: Hash)
    requires TreeOk(t, iv, root) && Slot(t, x, p, k) && x != root && h in t && h != x && h != p
    ensures x in iv && (forall c :: c in t[x].children ==> c in iv) && (forall c :: c in t[p].children ==> c in iv)
    ensures var iv' := Inherited(t, iv, x, p, k); h in iv' && RowInside(iv', t[h].children, iv'[h])
  {
    SlotLabels(t, iv, root, x, p, k);
    InheritedWider(t, iv, root, x, p, k, h);
    assert NodeOk(t, iv, h);
    var iv', cs := Inherited(t, iv, x, p, k), t[h].children;
    forall i | 0 <= i < |cs|
      ensures Labelled(iv', cs[i]) && iv'[cs[i]] == iv[cs[i]]
    {
      hide NodeOk, Inherited, WellFormed, RowInside;
      ChildAnc(t, root, h, i);
      OtherParent(t, root, x, cs[i]);
      OtherParent(t, root, p, cs[i]);
      InheritedWider(t, iv, root, x, p, k, cs[i]);
      assert NodeOk(t, iv, cs[i]);
      NodeLabelled(t, iv, cs[i]);
    }
    hide Inherited, WellFormed;
    RowWider(iv, iv', cs, iv[h], iv'[h]);
  }

  lemma {:induction false} OtherParent(t: Shape, root: Hash, q: Hash, c: Hash)
    requires WellFormed(t, root) && q in t && c in t && t[c].parent != q
    ensures c !in t[q].children
  {
    if c in t[q].children {
      var i :| 0 <= i < |t[q].children| && t[q].children[i] == c;
      ChildAnc(t, root, q, i);
    }
  }

  lemma {:induction false} NodeLabelled(t: Shape, iv: Labels, h: Hash)
    requires h in t && NodeOk(t, iv, h)
    ensures Labelled(iv, h)
  {
  }

  lemma {:induction false} RowWider(iv: Labels, iv': Labels, cs: seq<Hash>, box: Interval, box': Interval)
    requires RowInside(iv, cs, box) && box'.start <= box.start && box.end <= box'.end
    requires forall i :: 0 <= i < |cs| ==> Labelled(iv', cs[i]) && iv'[cs[i]] == iv[cs[i]]
    ensures RowInside(iv', cs, box')
  {
  }

  /** The row of the parent closes over the deleted block. */
  lemma {:induction false} ParentRowClosed(t: Shape, iv: Labels, root: Hash, x: Hash, p: Hash, k: nat)
    requires TreeOk(t, iv, root) && Slot(t, x, p, k) && x != root
    ensures x in iv && (forall c :: c in t[x].children ==> c in iv) && (forall c :: c in t[p].children ==> c in iv)
    ensures var iv' := Inherited(t, iv, x, p, k);
      p in iv' && p in iv && iv'[p] == iv[p] && RowInside(iv', Spliced(t[p].children, k, t[x].children), iv[p])
  {
    var row, cs := t[p].children, t[x].children;
    SlotLabels(t, iv, root, x, p, k);
    assert NodeOk(t, iv, p);
    ChildAnc(t, root, p, k);
    if p in row {
      var j :| 0 <= j < |row| && row[j] == p;
      ChildAnc(t, root, p, j);
    }
    if p in cs {
      var j :| 0 <= j < |cs| && cs[j] == p;
      ChildAnc(t, root, x, j);
    }
    InheritedWider(t, iv, root, x, p, k, p);
    SiblingsDiffer(t, root, p);
    SiblingsDiffer(t, root, x);
    var iv' := Inherited(t, iv, x, p, k);
    hide WellFormed, TreeOk, NodeOk;
    if |cs| == 0 {
      RowClosed(iv, iv', row, k, iv[p]);
      assert cs == [];
    } else {
      KidsElsewhere(t, root, x, p, k);
      hide Adjacent;
      if |cs| == 1 {
        SoleHeir(iv, cs, iv[x]);
      } else {
        HeirsFill(iv, cs, iv[x]);
      }
      RowFilled(iv, iv', row, k, cs, iv[p]);
    }
  }

  lemma {:induction false} SoleHeir(iv: Labels, cs: seq<Hash>, whole: Interval)
    requires |cs| == 1 && whole.start <= whole.end
    ensures Fills(iv[cs[0] := whole], cs, whole)
  {
    assert Labelled(iv[cs[0] := whole], cs[0]);
  }

  lemma {:induction false} KidsElsewhere(t: Shape, root: Hash, x: Hash, p: Hash, k: nat)
    requires WellFormed(t, root) && Slot(t, x, p, k)
    ensures forall c :: c in t[x].children ==> c !in t[p].children
  {
    ChildAnc(t, root, p, k);
    forall c | c in t[x].children
      ensures c !in t[p].children
    {
      var i :| 0 <= i < |t[x].children| && t[x].children[i] == c;
      ChildAnc(t, root, x, i);
      OtherParent(t, root, p, c);
    }
  }

  lemma {:induction false} RowWithout(iv: Labels, cs: seq<Hash>, box: Interval, x: Hash)
    requires RowInside(iv, cs, box) && x !in cs
    ensures RowInside(iv - {x}, cs, box)
  {
    RowDropped(iv, cs, box, x);
  }

  lemma {:induction false} WithoutNode(t: Shape, iv: Labels, root: Hash, x: Hash, p: Hash, k: nat, h: Hash)
    requires TreeOk(t, iv, root) && Slot(t, x, p, k) && x != root && h in t && h != x
    ensures x in iv && (forall c :: c in t[x].children ==> c in iv) && (forall c :: c in t[p].children ==> c in iv)
    ensures h in Without(t, x, p, k) && NodeOk(Without(t, x, p, k), Inherited(t, iv, x, p, k) - {x}, h)
  {
    SlotLabels(t, iv, root, x, p, k);
    InheritedWider(t, iv, root, x, p, k, h);
    WithoutAt(t, root, x, p, k, h);
    assert NodeOk(t, iv, h);
    var iv', t' := Inherited(t, iv, x, p, k), Without(t, x, p, k);
    SiblingsDiffer(t, root, p);
    assert x !in t'[h].children by {
      if h == p {
        SplicedHas(t[p].children, k, t[x].children, x);
        OtherParent(t, root, x, x);
      } else {
        OtherParent(t, root, h, x);
      }
    }
    hide WellFormed, TreeOk, Without, Inherited, RowInside;
    if h == p {
      ParentRowClosed(t, iv, root, x, p, k);
    } else {
      OtherRow(t, iv, root, x, p, k, h);
    }
    RowWithout(iv', t'[h].children, iv'[h], x);
  }

  /** Deleting a block leaves a well-labelled tree. */
  lemma {:induction false} WithoutTreeOk(t: Shape, iv: Labels, root: Hash, x: Hash, p: Hash, k: nat)
    requires TreeOk(t, iv, root) && Slot(t, x, p, k) && x != root
    ensures x in iv && (forall c :: c in t[x].children ==> c in iv) && (forall c :: c in t[p].children ==> c in iv)
    ensures TreeOk(Without(t, x, p, k), Inherited(t, iv, x, p, k) - {x}, root)
  {
    SlotLabels(t, iv, root, x, p, k);
    InheritedWider(t, iv, root, x, p, k, root);
    RootNoChild(t, root, x);
    RootNoChild(t, root, p);
    WithoutWellFormed(t, root, x, p, k);
    WithoutAt(t, root, x, p, k, root);
    hide Without, Inherited, WellFormed;
    var t', iv' := Without(t, x, p, k), Inherited(t, iv, x, p, k) - {x};
    forall h | h in t'
      ensures NodeOk(t', iv', h)
    {
      WithoutNode(t, iv, root, x, p, k, h);
    }
  }

  lemma {:induction false} RootNoChild(t: Shape, root: Hash, q: Hash)
    requires WellFormed(t, root) && q in t
    ensures root !in t[q].children
  {
    OtherParent(t, root, q, root);
  }

  // ---------- covering sets ----------

  /** A covering set in which `x` gave way to its children. */
  ghost predicate CoverLess(t: Shape, items: seq<Hash>, items': seq<Hash>, x: Hash)
    requires x in t
  {
    if x in items then exists i :: 0 <= i < |items| && items[i] == x && items' == Spliced(items, i, t[x].children)
    else items' == items
  }

  lemma {:induction false} SplicedOrdered(iv: Labels, items: seq<Hash>, i: nat, cs: seq<Hash>)
    requires Ordered(iv, items) && i < |items| && items[i] in iv && RowInside(iv, cs, iv[items[i]])
    ensures Ordered(iv, Spliced(items, i, cs))
  {
    var items', x := Spliced(items, i, cs), items[i];
    RowOrdered(iv, cs);
    forall j | 0 <= j < |cs|
      ensures Labelled(iv, cs[j]) && iv[x].start <= iv[cs[j]].start && iv[cs[j]].end < iv[x].end
    {
      RowBounds(iv, cs, j);
      assert Labelled(iv, cs[j]);
    }
    hide RowInside;
    forall j | 0 <= j < |items'|
      ensures items'[j] in iv
    {
      SplicedAt(items, i, cs, j);
    }
    forall j, l | 0 <= j < l < |items'|
      ensures iv[items'[j]].end < iv[items'[l]].start && iv[items'[j]].start < iv[items'[l]].start
    {
      SplicedAt(items, i, cs, j);
      SplicedAt(items, i, cs, l);
    }
  }

  /** Survivors keep their order when labels only grow. */
  lemma {:induction false} OrderAfter(t: Shape, iv: Labels, root: Hash, x: Hash, p: Hash, k: nat, items: seq<Hash>)
    requires TreeOk(t, iv, root) && Slot(t, x, p, k) && x != root && Ordered(iv, items) && x !in items
    ensures x in iv && (forall c :: c in t[x].children ==> c in iv) && (forall c :: c in t[p].children ==> c in iv)
    ensures Ordered(Inherited(t, iv, x, p, k) - {x}, items)
  {
    WithoutTreeOk(t, iv, root, x, p, k);
    var t', iv' := Without(t, x, p, k), Inherited(t, iv, x, p, k) - {x};
    forall i, j | 0 <= i < j < |items|
      ensures iv'[items[i]].end < iv'[items[j]].start && iv'[items[i]].start < iv'[items[j]].start
    {
      PairAfter(t, iv, root, x, p, k, items[i], items[j]);
    }
    forall i | 0 <= i < |items|
      ensures items[i] in iv'
    {
      InheritedWider(t, iv, root, x, p, k, items[i]);
    }
  }

  lemma {:induction false} PairAfter(t: Shape, iv: Labels, root: Hash, x: Hash, p: Hash, k: nat, u: Hash, v: Hash)
    requires TreeOk(t, iv, root) && Slot(t, x, p, k) && x != root && u in t && v in t && u != x && v != x &&
      Before(iv, u, v)
    ensures x in iv && (forall c :: c in t[x].children ==> c in iv) && (forall c :: c in t[p].children ==> c in iv)
    ensures var iv' := Inherited(t, iv, x, p, k) - {x};
      u in iv' && v in iv' && Before(iv', u, v) && iv'[u].start < iv'[v].start
  {
    SlotLabels(t, iv, root, x, p, k);
    BeforeUnrelated(t, iv, root, u, v);
    AncWithout(t, root, x, p, k, u, v);
    AncWithout(t, root, x, p, k, v, u);
    WithoutTreeOk(t, iv, root, x, p, k);
    WithoutAt(t, root, x, p, k, u);
    InheritedWider(t, iv, root, x, p, k, u);
    InheritedWider(t, iv, root, x, p, k, v);
    TreeContains(t, iv, root, u, v);
    var t', iv' := Without(t, x, p, k), Inherited(t, iv, x, p, k) - {x};
    hide TreeOk, WellFormed, Without, Inherited;
    TreeContains(t', iv', root, u, v);
    TreeApart(t', iv', root, u, v);
  }

  lemma {:induction false} CoverLessOrdered(t: Shape, iv: Labels, root: Hash, x: Hash, p: Hash, k: nat,
                                            items: seq<Hash>, items': seq<Hash>)
    requires TreeOk(t, iv, root) && Slot(t, x, p, k) && x != root && Ordered(iv, items) &&
      CoverLess(t, items, items', x)
    ensures x in iv && (forall c :: c in t[x].children ==> c in iv) && (forall c :: c in t[p].children ==> c in iv)
    ensures Ordered(Inherited(t, iv, x, p, k) - {x}, items')
  {
    SlotLabels(t, iv, root, x, p, k);
    if x in items {
      var i :| 0 <= i < |items| && items[i] == x && items' == Spliced(items, i, t[x].children);
      hide TreeOk, RowInside;
      SplicedOrdered(iv, items, i, t[x].children);
      GoneAfter(t, iv, root, x, items, i);
    }
    OrderAfter(t, iv, root, x, p, k, items');
  }

  lemma {:induction false} GoneAfter(t: Shape, iv: Labels, root: Hash, x: Hash, items: seq<Hash>, i: nat)
    requires TreeOk(t, iv, root) && Ordered(iv, items) && i < |items| && items[i] == x && x in t
    ensures x !in Spliced(items, i, t[x].children)
  {
    OtherParentSelf(t, root, x);
    hide TreeOk;
    var items', n := Spliced(items, i, t[x].children), |t[x].children|;
    forall j | 0 <= j < |items'|
      ensures items'[j] != x
    {
      SplicedAt(items, i, t[x].children, j);
      assert i <= j < i + n ==> items'[j] in t[x].children;
    }
  }

  lemma {:induction false} OtherParentSelf(t: Shape, root: Hash, x: Hash)
    requires WellFormed(t, root) && x in t
    ensures x !in t[x].children
  {
    if x in t[x].children {
      var i :| 0 <= i < |t[x].children| && t[x].children[i] == x;
      ChildAnc(t, root, x, i);
    }
  }

  /** The survivors covered are the same. */
  lemma {:induction false} CoveredWithout(t: Shape, iv: Labels, root: Hash, x: Hash, p: Hash, k: nat, items: seq<Hash>,
                                          items': seq<Hash>, b: Hash)
    requires TreeOk(t, iv, root) && Slot(t, x, p, k) && x != root && Ordered(iv, items) &&
      CoverLess(t, items, items', x)
    requires b in t && b != x
    ensures Covered(Without(t, x, p, k), items', b) <==> Covered(t, items, b)
  {
    CoverLessOrdered(t, iv, root, x, p, k, items, items');
    CoveredSame(t, root, x, p, k, items', b);
    var cs := t[x].children;
    if x in items {
      var i :| 0 <= i < |items| && items[i] == x && items' == Spliced(items, i, cs);
      hide TreeOk, Inherited, Without, Ordered;
      GoneAfter(t, iv, root, x, items, i);
      if Covered(t, items, b) {
        var j :| 0 <= j < |items| && Anc(t, items[j], b);
        CoverOnward(t, root, x, items, i, j, b);
      }
      if Covered(t, items', b) {
        var j :| 0 <= j < |items'| && Anc(t, items'[j], b);
        SplicedAt(items, i, cs, j);
        if i <= j < i + |cs| {
          ChildAnc(t, root, x, j - i);
          AncTrans(t, x, items'[j], b);
          assert Anc(t, items[i], b);
        } else {
          assert Anc(t, items[if j < i then j else j - |cs| + 1], b);
        }
      }
    }
  }

  lemma {:induction false} CoverOnward(t: Shape, root: Hash, x: Hash, items: seq<Hash>, i: nat, j: nat, b: Hash)
    requires WellFormed(t, root) && x in t && i < |items| && j < |items| && items[i] == x && Anc(t, items[j], b) &&
      b != x
    ensures Covered(t, Spliced(items, i, t[x].children), b)
  {
    var cs := t[x].children;
    var l := j;
    if j == i {
      var c := ChildToward(t, root, x, b);
      l := i + c;
    } else if j > i {
      l := j + |cs| - 1;
    }
    SplicedAt(items, i, cs, l);
    assert Anc(t, Spliced(items, i, cs)[l], b);
  }

  lemma {:induction false} CoveredSame(t: Shape, root: Hash, x: Hash, p: Hash, k: nat, items: seq<Hash>, b: Hash)
    requires WellFormed(t, root) && Slot(t, x, p, k) && x != root && b in t && b != x
    ensures x !in items ==> (Covered(Without(t, x, p, k), items, b) <==> Covered(t, items, b))
  {
    if x !in items {
      var t' := Without(t, x, p, k);
      forall j | 0 <= j < |items|
        ensures Anc(t', items[j], b) <==> Anc(t, items[j], b)
      {
        AncWithout(t, root, x, p, k, items[j], b);
      }
      hide Without, WellFormed;
      if Covered(t, items, b) {
        var j :| 0 <= j < |items| && Anc(t, items[j], b);
        assert Anc(t', items[j], b);
      }
      if Covered(t', items, b) {
        var j :| 0 <= j < |items| && Anc(t', items[j], b);
        assert Anc(t, items[j], b);
      }
    }
  }

  ghost function PastLess(past: Pasts, x: Hash): Pasts {
    map b | b in past && b != x :: past[b] - {x}
  }

  ghost predicate LessAt(t: Shape, cover: Cover, cover': Cover, x: Hash, a: Hash)
    requires x in t
  {
    a in cover && a in cover' && CoverLess(t, cover[a], cover'[a], x)
  }

  /** Deleting a block changes no answer between the others. */
  lemma {:induction false} IndexLess(t: Shape, iv: Labels, cover: Cover, past: Pasts, root: Hash, x: Hash, p: Hash,
                                     k: nat, cover': Cover)
    requires IndexOk(t, iv, cover, past, root) && Slot(t, x, p, k) && x != root && cover'.Keys == t.Keys
    requires forall a {:trigger LessAt(t, cover, cover', x, a)} :: a in t ==> LessAt(t, cover, cover', x, a)
    ensures x in iv && (forall c :: c in t[x].children ==> c in iv) && (forall c :: c in t[p].children ==> c in iv)
    ensures IndexOk(Without(t, x, p, k), Inherited(t, iv, x, p, k) - {x}, cover' - {x}, PastLess(past, x), root)
  {
    IndexParts(t, iv, cover, past, root);
    WithoutTreeOk(t, iv, root, x, p, k);
    WithoutAt(t, root, x, p, k, root);
    var t', iv', cover'', past' :=
      Without(t, x, p, k), Inherited(t, iv, x, p, k) - {x}, cover' - {x}, PastLess(past, x);
    hide IndexOk, TreeOk, Without, Inherited, WellFormed, LessAt, Linked, CoverOk, PastKnown;
    forall a, b | a in t'.Keys && b in t'.Keys
      ensures Linked(t', cover'', past', a, b) && CoverOk(iv', cover'', a) && PastKnown(past', b)
    {
      assert LessAt(t, cover, cover', x, a);
      LessLinked(t, iv, cover, past, root, x, p, k, cover', a, b);
    }
    IndexAssembled(t', iv', cover'', past', root);
  }

  lemma {:induction false} LessLinked(t: Shape, iv: Labels, cover: Cover, past: Pasts, root: Hash, x: Hash, p: Hash,
                                      k: nat, cover': Cover, a: Hash, b: Hash)
    requires IndexOk(t, iv, cover, past, root) && Slot(t, x, p, k) && x != root && LessAt(t, cover, cover', x, a)
    requires a in t && b in t && a != x && b != x
    ensures x in iv && (forall c :: c in t[x].children ==> c in iv) && (forall c :: c in t[p].children ==> c in iv)
    ensures Linked(Without(t, x, p, k), cover' - {x}, PastLess(past, x), a, b)
    ensures CoverOk(Inherited(t, iv, x, p, k) - {x}, cover' - {x}, a)
    ensures PastKnown(PastLess(past, x), b)
  {
    IndexParts(t, iv, cover, past, root);
    CoverAt(t, iv, cover, past, root, a);
    LinkedAt(t, iv, cover, past, root, a, b);
    hide IndexOk, TreeOk, Without, Inherited, WellFormed, CoverLess, Ordered;
    CoverLessOrdered(t, iv, root, x, p, k, cover[a], cover'[a]);
    CoveredWithout(t, iv, root, x, p, k, cover[a], cover'[a], b);
    AncWithout(t, root, x, p, k, a, b);
  }
}
