/** Labelling of the reachability tree: nested, adjacent, non-empty intervals, and why nesting of
    intervals is then the same thing as tree ancestry. */
module Labels {
  import opened Types
  import opened Intervals
  import opened Tree

  type Labels = map<Hash, Interval>

  /** The blocks of `cs` carry non-empty intervals, each starting where the one before ends. */
  ghost predicate Row(iv: Labels, cs: seq<Hash>) {
    && (forall i :: 0 <= i < |cs| ==> Labelled(iv, cs[i]))
    && Adjacent(iv, cs)
  }

  ghost predicate Adjacent(iv: Labels, cs: seq<Hash>) {
    && (forall i :: 0 <= i < |cs| ==> cs[i] in iv)
    && forall i, j :: 0 <= i && j == i + 1 && j < |cs| ==> iv[cs[i]].end + 1 == iv[cs[j]].start
  }

  ghost predicate Labelled(iv: Labels, h: Hash) {
    h in iv && iv[h].start <= iv[h].end
  }

  /** A row that lies strictly inside `box`: the last label of `box` stays its own. */
  ghost predicate RowInside(iv: Labels, cs: seq<Hash>, box: Interval) {
    && Row(iv, cs)
    && (|cs| > 0 ==> box.start <= iv[cs[0]].start && iv[cs[|cs| - 1]].end < box.end)
  }

  ghost predicate NodeOk(t: Shape, iv: Labels, h: Hash)
    requires h in t
  {
    Labelled(iv, h) && RowInside(iv, t[h].children, iv[h])
  }

  /** Every block below `top`, itself included, is labelled and holds its children's row. */
  ghost predicate SubtreeOk(t: Shape, iv: Labels, top: Hash) {
    forall h {:trigger NodeOk(t, iv, h)} :: h in t && Anc(t, top, h) ==> NodeOk(t, iv, h)
  }

  /** The labelling of the whole tree. */
  ghost predicate TreeOk(t: Shape, iv: Labels, root: Hash) {
    && WellFormed(t, root)
    && iv.Keys == t.Keys
    && iv[root].Valid()
    && forall h {:trigger NodeOk(t, iv, h)} :: h in t ==> NodeOk(t, iv, h)
  }

  lemma {:induction false} RowSorted(iv: Labels, cs: seq<Hash>, i: nat, j: nat)
    requires Row(iv, cs) && i < j < |cs|
    ensures iv[cs[i]].end < iv[cs[j]].start
    decreases j
  {
    assert Labelled(iv, cs[j - 1]);
    assert iv[cs[j - 1]].end + 1 == iv[cs[j]].start;
    if i < j - 1 {
      RowSorted(iv, cs, i, j - 1);
    }
  }

  lemma {:induction false} RowBounds(iv: Labels, cs: seq<Hash>, i: nat)
    requires Row(iv, cs) && i < |cs|
    ensures iv[cs[0]].start <= iv[cs[i]].start && iv[cs[i]].end <= iv[cs[|cs| - 1]].end
  {
    assert Labelled(iv, cs[i]) && Labelled(iv, cs[0]) && Labelled(iv, cs[|cs| - 1]);
    if 0 < i {
      RowSorted(iv, cs, 0, i);
    }
    if i < |cs| - 1 {
      RowSorted(iv, cs, i, |cs| - 1);
    }
  }

  /** A child's interval lies strictly inside its parent's. */
  lemma {:induction false} ChildInside(t: Shape, iv: Labels, p: Hash, i: nat)
    requires p in t && NodeOk(t, iv, p) && i < |t[p].children|
    ensures Labelled(iv, t[p].children[i])
    ensures iv[p].StrictlyContains(iv[t[p].children[i]])
  {
    RowBounds(iv, t[p].children, i);
    assert Labelled(iv, t[p].children[i]);
  }

  lemma {:induction false} AncContains(t: Shape, iv: Labels, root: Hash, top: Hash, a: Hash, b: Hash)
    requires WellFormed(t, root) && SubtreeOk(t, iv, top) && Anc(t, top, a) && Anc(t, a, b)
    ensures Labelled(iv, a) && Labelled(iv, b)
    ensures iv[a].Contains(iv[b])
    ensures a != b ==> iv[a].StrictlyContains(iv[b])
    decreases if b in t then t[b].height else 0
  {
    AncTrans(t, top, a, b);
    AncHeight(t, a, b);
    assert NodeOk(t, iv, b);
    if a != b {
      var p := t[b].parent;
      AncContains(t, iv, root, top, a, p);
      AncTrans(t, top, a, p);
      assert HangsOn(t, b, p);
      var i :| 0 <= i < |t[p].children| && t[p].children[i] == b;
      ChildInside(t, iv, p, i);
    }
  }

  ghost predicate Meet(x: Interval, y: Interval) {
    x.start <= y.end && y.start <= x.end
  }

  /** Laminarity: intervals that meet belong to related blocks. */
  lemma {:induction false} MeetRelated(t: Shape, iv: Labels, root: Hash, top: Hash, a: Hash, b: Hash)
    requires WellFormed(t, root) && SubtreeOk(t, iv, top) && Anc(t, top, a) && Anc(t, top, b)
    requires a in iv && b in iv && Meet(iv[a], iv[b])
    ensures Anc(t, a, b) || Anc(t, b, a)
    decreases if a in t then t[a].height else 0
  {
    AncHeight(t, top, a);
    AncHeight(t, top, b);
    if a != top {
      var p := t[a].parent;
      assert Anc(t, top, p);
      assert HangsOn(t, a, p);
      AncContains(t, iv, root, top, p, a);
      MeetRelated(t, iv, root, top, p, b);
      if Anc(t, p, b) && p != b {
        ApartOrChild(t, iv, root, top, a, b);
      }
    }
  }

  lemma {:induction false} ApartOrChild(t: Shape, iv: Labels, root: Hash, top: Hash, a: Hash, b: Hash)
    requires WellFormed(t, root) && SubtreeOk(t, iv, top) && a in t && t[a].parent in t
    requires var p := t[a].parent; Anc(t, top, p) && Anc(t, p, a) && Anc(t, p, b) && p != b
    requires a in iv && b in iv && Meet(iv[a], iv[b]) && a != t[a].parent
    ensures Anc(t, a, b)
  {
    var p := t[a].parent;
    var cs := t[p].children;
    var j := ChildToward(t, root, p, b);
    var i := ChildToward(t, root, p, a);
    ChildAnc(t, root, p, i);
    ChildAnc(t, root, p, j);
    AncHeight(t, cs[i], a);
    assert Anc(t, cs[i], a) && t[cs[i]].parent == p;
    SameChild(t, root, cs[i], a);
    AncTrans(t, top, p, cs[j]);
    AncContains(t, iv, root, top, cs[j], b);
    assert NodeOk(t, iv, p);
    if i < j {
      RowSorted(iv, cs, i, j);
    } else if j < i {
      RowSorted(iv, cs, j, i);
    }
  }

  lemma {:induction false} SameChild(t: Shape, root: Hash, c: Hash, a: Hash)
    requires WellFormed(t, root) && c in t && a in t && t[c].parent == t[a].parent && Anc(t, c, a)
    ensures c == a
  {
    if c != root {
      assert HangsOn(t, c, t[c].parent);
    }
    if c != a {
      AncHeight(t, c, t[a].parent);
    }
  }

  /** Inside a well-labelled subtree, interval containment is tree ancestry. */
  lemma {:induction false} ContainsIffAnc(t: Shape, iv: Labels, root: Hash, top: Hash, a: Hash, b: Hash)
    requires WellFormed(t, root) && SubtreeOk(t, iv, top) && Anc(t, top, a) && Anc(t, top, b)
    ensures a in iv && b in iv
    ensures iv[a].Contains(iv[b]) <==> Anc(t, a, b)
    ensures iv[a].StrictlyContains(iv[b]) <==> Anc(t, a, b) && a != b
  {
    AncHeight(t, top, a);
    AncHeight(t, top, b);
    assert NodeOk(t, iv, a) && NodeOk(t, iv, b);
    if Anc(t, a, b) {
      AncContains(t, iv, root, top, a, b);
    }
    if iv[a].Contains(iv[b]) {
      MeetRelated(t, iv, root, top, a, b);
      if Anc(t, b, a) {
        AncContains(t, iv, root, top, b, a);
      }
    }
  }

  lemma {:induction false} TreeContains(t: Shape, iv: Labels, root: Hash, a: Hash, b: Hash)
    requires TreeOk(t, iv, root) && a in t && b in t
    ensures Labelled(iv, a) && Labelled(iv, b)
    ensures iv[a].Contains(iv[b]) <==> Anc(t, a, b)
    ensures iv[a].StrictlyContains(iv[b]) <==> Anc(t, a, b) && a != b
  {
    RootAnc(t, root, a);
    RootAnc(t, root, b);
    ContainsIffAnc(t, iv, root, root, a, b);
    assert NodeOk(t, iv, a) && NodeOk(t, iv, b);
  }

  ghost predicate Before(iv: Labels, x: Hash, y: Hash)
    requires x in iv && y in iv
  {
    iv[x].end < iv[y].start
  }

  lemma {:induction false} TreeApart(t: Shape, iv: Labels, root: Hash, a: Hash, b: Hash)
    requires TreeOk(t, iv, root) && a in t && b in t
    requires !Anc(t, a, b) && !Anc(t, b, a)
    ensures Before(iv, a, b) || Before(iv, b, a)
  {
    RootAnc(t, root, a);
    RootAnc(t, root, b);
    if Meet(iv[a], iv[b]) {
      MeetRelated(t, iv, root, root, a, b);
    }
  }

  // ---------- sizes ----------

  ghost function RowSizes(iv: Labels, cs: seq<Hash>): (r: seq<int>)
    requires forall i :: 0 <= i < |cs| ==> cs[i] in iv
    ensures |r| == |cs| && forall i :: 0 <= i < |cs| ==> r[i] == iv[cs[i]].Size()
  {
    seq(|cs|, i requires 0 <= i < |cs| => iv[cs[i]].Size())
  }

  lemma {:induction false} RowLength(iv: Labels, cs: seq<Hash>, n: nat)
    requires Row(iv, cs) && 0 < n <= |cs|
    ensures Sum(RowSizes(iv, cs[..n])) == iv[cs[n - 1]].end + 1 - iv[cs[0]].start
    decreases n
  {
    assert Labelled(iv, cs[n - 1]);
    assert RowSizes(iv, cs[..n]) == RowSizes(iv, cs[..n - 1]) + [iv[cs[n - 1]].Size()];
    SumSnoc(RowSizes(iv, cs[..n - 1]), iv[cs[n - 1]].Size());
    if n > 1 {
      RowLength(iv, cs, n - 1);
      assert iv[cs[n - 2]].end + 1 == iv[cs[n - 1]].start;
    }
  }

  lemma {:induction false} SumMonotone(a: seq<int>, b: seq<int>)
    requires |a| == |b| && forall i :: 0 <= i < |a| ==> a[i] <= b[i]
    ensures Sum(a) <= Sum(b)
  {
    if |a| > 0 {
      SumMonotone(a[..|a| - 1], b[..|b| - 1]);
    }
  }

  /** Nested non-empty intervals leave every subtree at least one label per block. */
  lemma {:induction false} SizeBound(t: Shape, iv: Labels, root: Hash, top: Hash)
    requires WellFormed(t, root) && top in t && SubtreeOk(t, iv, top)
    ensures top in iv && |Subtree(t, top)| <= iv[top].Size()
    decreases Subtree(t, top)
  {
    var cs := t[top].children;
    SubtreeSize(t, root, top);
    assert Anc(t, top, top);
    assert NodeOk(t, iv, top);
    forall i | 0 <= i < |cs|
      ensures |Subtree(t, cs[i])| <= iv[cs[i]].Size()
    {
      SubtreeOkBelow(t, iv, root, top, i);
      SizeBound(t, iv, root, cs[i]);
    }
    RowRoom(t, iv, cs, iv[top]);
  }

  lemma {:induction false} RowRoom(t: Shape, iv: Labels, cs: seq<Hash>, box: Interval)
    requires RowInside(iv, cs, box) && box.start <= box.end
    requires forall i :: 0 <= i < |cs| ==> |Subtree(t, cs[i])| <= iv[cs[i]].Size()
    ensures Sum(Counts(t, cs)) < box.Size()
  {
    if |cs| > 0 {
      RowLength(iv, cs, |cs|);
      assert cs[..|cs|] == cs;
      SumMonotone(Counts(t, cs), RowSizes(iv, cs));
    }
  }

  lemma {:induction false} SubtreeOkBelow(t: Shape, iv: Labels, root: Hash, top: Hash, i: nat)
    requires WellFormed(t, root) && top in t && SubtreeOk(t, iv, top) && i < |t[top].children|
    ensures t[top].children[i] in t && SubtreeOk(t, iv, t[top].children[i])
  {
    ChildAnc(t, root, top, i);
    var c := t[top].children[i];
    forall h | h in t && Anc(t, c, h)
      ensures NodeOk(t, iv, h)
    {
      AncTrans(t, top, c, h);
    }
  }

  // ---------- relabelling keeps left-to-right order ----------

  lemma {:induction false} BeforeUnrelated(t: Shape, iv: Labels, root: Hash, x: Hash, y: Hash)
    requires TreeOk(t, iv, root) && x in t && y in t && Before(iv, x, y)
    ensures !Anc(t, x, y) && !Anc(t, y, x) && x != root && y != root
  {
    TreeContains(t, iv, root, x, y);
    TreeContains(t, iv, root, y, x);
    RootAnc(t, root, x);
    RootAnc(t, root, y);
  }

  /** If `x` comes before `y` then so do unrelated blocks around them. */
  lemma {:induction false} BeforeOutward(t: Shape, iv: Labels, root: Hash, x: Hash, y: Hash, x': Hash, y': Hash)
    requires TreeOk(t, iv, root) && x in t && y in t && Before(iv, x, y)
    requires Anc(t, x', x) && Anc(t, y', y) && !Anc(t, x', y') && !Anc(t, y', x')
    ensures x' in t && y' in t && Before(iv, x', y')
  {
    AncHeight(t, x', x);
    AncHeight(t, y', y);
    TreeContains(t, iv, root, x', x);
    TreeContains(t, iv, root, y', y);
    TreeApart(t, iv, root, x', y');
  }

  /** Blocks inside `x'` and `y'` keep the order of `x'` and `y'`. */
  lemma {:induction false} BeforeInward(t: Shape, iv: Labels, root: Hash, x: Hash, y: Hash, x': Hash, y': Hash)
    requires TreeOk(t, iv, root) && x' in t && y' in t && Before(iv, x', y')
    requires Anc(t, x', x) && Anc(t, y', y)
    ensures x in t && y in t && Before(iv, x, y)
  {
    TreeContains(t, iv, root, x', x);
    TreeContains(t, iv, root, y', y);
  }

  /** Which of two unrelated blocks comes first is read off the tree, so two labellings of the
      same tree agree on it. */
  lemma {:induction false} OrderKept(t: Shape, iv: Labels, iv': Labels, root: Hash, x: Hash, y: Hash)
    requires TreeOk(t, iv, root) && TreeOk(t, iv', root) && x in t && y in t
    requires Before(iv, x, y)
    ensures Before(iv', x, y)
    decreases t[x].height + t[y].height
  {
    BeforeUnrelated(t, iv, root, x, y);
    var px, py := t[x].parent, t[y].parent;
    assert HangsOn(t, x, px) && HangsOn(t, y, py);
    assert Anc(t, px, x) && Anc(t, py, y);
    if !Anc(t, px, y) {
      AncParentUp(t, root, x, y);
      BeforeOutward(t, iv, root, x, y, px, y);
      OrderKept(t, iv, iv', root, px, y);
      BeforeInward(t, iv', root, x, y, px, y);
    } else if !Anc(t, py, x) {
      AncParentUp(t, root, y, x);
      BeforeOutward(t, iv, root, x, y, x, py);
      OrderKept(t, iv, iv', root, x, py);
      BeforeInward(t, iv', root, x, y, x, py);
    } else {
      SiblingOrder(t, iv, iv', root, x, y);
    }
  }

  lemma {:induction false} AncParentUp(t: Shape, root: Hash, x: Hash, y: Hash)
    requires WellFormed(t, root) && x in t && x != root && !Anc(t, y, x)
    ensures !Anc(t, y, t[x].parent)
  {
    AncParent(t, root, y, x);
  }

  lemma {:induction false} SameParent(t: Shape, root: Hash, x: Hash, y: Hash)
    requires WellFormed(t, root) && x in t && y in t && x != root && y != root
    requires Anc(t, t[x].parent, y) && Anc(t, t[y].parent, x) && !Anc(t, x, y) && !Anc(t, y, x)
    ensures t[x].parent == t[y].parent
  {
    var p, q := t[x].parent, t[y].parent;
    assert HangsOn(t, x, p) && HangsOn(t, y, q);
    assert Anc(t, p, x) && Anc(t, q, y);
    AncParent(t, root, p, y);
    AncParent(t, root, q, x);
    AncHeight(t, p, q);
    AncHeight(t, q, p);
  }

  lemma {:induction false} SiblingOrder(t: Shape, iv: Labels, iv': Labels, root: Hash, x: Hash, y: Hash)
    requires TreeOk(t, iv, root) && TreeOk(t, iv', root) && x in t && y in t && x != root && y != root && x != y
    requires Anc(t, t[x].parent, y) && Anc(t, t[y].parent, x) && !Anc(t, x, y) && !Anc(t, y, x)
    requires Before(iv, x, y)
    ensures Before(iv', x, y)
  {
    SameParent(t, root, x, y);
    hide Anc;
    var p := t[x].parent;
    assert HangsOn(t, x, p) && HangsOn(t, y, p);
    var i :| 0 <= i < |t[p].children| && t[p].children[i] == x;
    var j :| 0 <= j < |t[p].children| && t[p].children[j] == y;
    RowsOf(t, iv, iv', root, p);
    RowOrderKept(iv, iv', t[p].children, i, j);
  }

  lemma {:induction false} RowsOf(t: Shape, iv: Labels, iv': Labels, root: Hash, p: Hash)
    requires TreeOk(t, iv, root) && TreeOk(t, iv', root) && p in t
    ensures Row(iv, t[p].children) && Row(iv', t[p].children)
  {
    assert NodeOk(t, iv, p) && NodeOk(t, iv', p);
  }

  lemma {:induction false} RowOrderKept(iv: Labels, iv': Labels, cs: seq<Hash>, i: nat, j: nat)
    requires Row(iv, cs) && Row(iv', cs) && i < |cs| && j < |cs| && i != j
    requires iv[cs[i]].end < iv[cs[j]].start
    ensures iv'[cs[i]].end < iv'[cs[j]].start
  {
    assert Labelled(iv, cs[i]) && Labelled(iv, cs[j]);
    if j < i {
      RowSorted(iv, cs, j, i);
    } else {
      RowSorted(iv', cs, i, j);
    }
  }
}
