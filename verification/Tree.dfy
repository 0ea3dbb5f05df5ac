/** The reachability tree: every block hangs below its selected parent. Only its shape lives
    here; labels are a separate map, as reindexing moves labels and never the shape. */
module Tree {
  import opened Types

  datatype TreeNode = TreeNode(parent: Hash, children: seq<Hash>, height: nat)

  type Shape = map<Hash, TreeNode>

  /** Parent and child pointers agree, siblings are distinct, and heights grow downwards. */
  ghost predicate WellFormed(t: Shape, root: Hash) {
    && root in t && NONE !in t && t[root].parent == NONE
    && (forall h {:trigger HangsOn(t, h, t[h].parent)} :: h in t && h != root ==> HangsOn(t, h, t[h].parent))
    && (forall h, i :: h in t && 0 <= i < |t[h].children| ==> IsChild(t, h, t[h].children[i]))
    && (forall h, i, j :: h in t && 0 <= i < j < |t[h].children| ==> t[h].children[i] != t[h].children[j])
  }

  ghost predicate HangsOn(t: Shape, h: Hash, p: Hash)
    requires h in t
  {
    p in t && h in t[p].children && t[p].height < t[h].height
  }

  ghost predicate IsChild(t: Shape, p: Hash, c: Hash) {
    c in t && t[c].parent == p
  }

  /** `a` is `b` or one of its tree ancestors. */
  ghost predicate Anc(t: Shape, a: Hash, b: Hash)
    decreases if b in t then t[b].height else 0
  {
    && b in t
    && (|| a == b
        || (&& t[b].parent in t
            && t[t[b].parent].height < t[b].height
            && Anc(t, a, t[b].parent)))
  }

  ghost function Subtree(t: Shape, h: Hash): set<Hash> {
    set x | x in t && Anc(t, h, x)
  }

  lemma {:induction false} AncHeight(t: Shape, a: Hash, b: Hash)
    requires Anc(t, a, b)
    ensures a in t && b in t
    ensures t[a].height <= t[b].height
    ensures a != b ==> t[a].height < t[b].height
    decreases if b in t then t[b].height else 0
  {
    if a != b {
      AncHeight(t, a, t[b].parent);
    }
  }

  lemma {:induction false} AncTrans(t: Shape, a: Hash, b: Hash, c: Hash)
    requires Anc(t, a, b) && Anc(t, b, c)
    ensures Anc(t, a, c)
    decreases if c in t then t[c].height else 0
  {
    if b != c {
      AncTrans(t, a, b, t[c].parent);
    }
  }

  /** Two ancestors of one block are related to each other. */
  lemma {:induction false} AncLinear(t: Shape, a: Hash, b: Hash, c: Hash)
    requires Anc(t, a, c) && Anc(t, b, c)
    ensures Anc(t, a, b) || Anc(t, b, a)
    decreases if c in t then t[c].height else 0
  {
    if a != c && b != c {
      AncLinear(t, a, b, t[c].parent);
    }
  }

  lemma {:induction false} RootAnc(t: Shape, root: Hash, b: Hash)
    requires WellFormed(t, root) && b in t
    ensures Anc(t, root, b)
    decreases t[b].height
  {
    if b != root {
      assert HangsOn(t, b, t[b].parent);
      RootAnc(t, root, t[b].parent);
    }
  }

  lemma {:induction false} ChildAnc(t: Shape, root: Hash, p: Hash, i: nat)
    requires WellFormed(t, root) && p in t && i < |t[p].children|
    ensures var c := t[p].children[i]; c in t && t[c].parent == p && c != root && Anc(t, p, c) && !Anc(t, c, p)
  {
    var c := t[p].children[i];
    assert IsChild(t, p, c);
    assert HangsOn(t, c, p);
    if Anc(t, c, p) {
      AncHeight(t, c, p);
    }
  }

  /** The child of `a` on the way down to `b`. */
  lemma {:induction false} ChildToward(t: Shape, root: Hash, a: Hash, b: Hash) returns (i: nat)
    requires WellFormed(t, root) && Anc(t, a, b) && a != b
    ensures a in t && i < |t[a].children| && Anc(t, t[a].children[i], b)
    decreases if b in t then t[b].height else 0
  {
    AncHeight(t, a, b);
    var p := t[b].parent;
    if p == a {
      assert b != root;
      assert HangsOn(t, b, a);
      i :| 0 <= i < |t[a].children| && t[a].children[i] == b;
    } else {
      i := ChildToward(t, root, a, p);
      AncTrans(t, t[a].children[i], p, b);
    }
  }

  /** Distinct siblings have no common descendant. */
  lemma {:induction false} SiblingsApart(t: Shape, root: Hash, p: Hash, i: nat, j: nat, x: Hash)
    requires WellFormed(t, root) && p in t && i < |t[p].children| && j < |t[p].children|
    requires Anc(t, t[p].children[i], x) && Anc(t, t[p].children[j], x)
    ensures i == j
  {
    var a, b := t[p].children[i], t[p].children[j];
    AncLinear(t, a, b, x);
    ChildAnc(t, root, p, i);
    ChildAnc(t, root, p, j);
    AncParent(t, root, a, b);
    AncParent(t, root, b, a);
  }

  /** A block's proper ancestors are its parent's ancestors. */
  lemma {:induction false} AncParent(t: Shape, root: Hash, a: Hash, b: Hash)
    requires WellFormed(t, root) && b in t && b != root
    ensures Anc(t, a, b) <==> a == b || Anc(t, a, t[b].parent)
  {
    assert HangsOn(t, b, t[b].parent);
  }

  // ---------- subtree sizes ----------

  function SubtreeSizes(sizes: map<Hash, int>, cs: seq<Hash>): (r: seq<int>)
    requires forall c :: c in cs ==> c in sizes
    ensures |r| == |cs| && forall i :: 0 <= i < |cs| ==> r[i] == sizes[cs[i]]
  {
    seq(|cs|, i requires 0 <= i < |cs| => sizes[cs[i]])
  }

  ghost function Counts(t: Shape, cs: seq<Hash>): (r: seq<int>)
    ensures |r| == |cs| && forall i :: 0 <= i < |cs| ==> r[i] == |Subtree(t, cs[i])|
  {
    seq(|cs|, i requires 0 <= i < |cs| => |Subtree(t, cs[i])|)
  }

  ghost function Union(t: Shape, cs: seq<Hash>): set<Hash> {
    set x | x in t && exists i :: 0 <= i < |cs| && Anc(t, cs[i], x)
  }

  lemma {:induction false} UnionSplit(t: Shape, root: Hash, p: Hash, n: nat)
    requires WellFormed(t, root) && p in t && n < |t[p].children|
    ensures var cs := t[p].children;
      && Union(t, cs[..n + 1]) == Union(t, cs[..n]) + Subtree(t, cs[n])
      && Union(t, cs[..n]) !! Subtree(t, cs[n])
  {
    var cs := t[p].children;
    var u, v, w := Union(t, cs[..n]), Subtree(t, cs[n]), Union(t, cs[..n + 1]);
    forall x | x in u
      ensures x in w && x !in v
    {
      var i :| 0 <= i < n && Anc(t, cs[..n][i], x);
      assert cs[..n + 1][i] == cs[i];
      if x in v {
        SiblingsApart(t, root, p, i, n, x);
      }
    }
    forall x | x in v
      ensures x in w
    {
      assert cs[..n + 1][n] == cs[n];
    }
    forall x | x in w
      ensures x in u + v
    {
      var i :| 0 <= i < n + 1 && Anc(t, cs[..n + 1][i], x);
      if i < n {
        assert cs[..n][i] == cs[i];
      }
    }
  }

  /** The subtrees of a block's children are disjoint, so their sizes add up. */
  lemma {:induction false} UnionSize(t: Shape, root: Hash, p: Hash, n: nat)
    requires WellFormed(t, root) && p in t && n <= |t[p].children|
    ensures |Union(t, t[p].children[..n])| == Sum(Counts(t, t[p].children[..n]))
    decreases n
  {
    var cs := t[p].children;
    if n == 0 {
      assert Union(t, cs[..n]) == {};
    } else {
      UnionSize(t, root, p, n - 1);
      UnionSplit(t, root, p, n - 1);
      assert cs[..n - 1 + 1] == cs[..n];
      DisjointSize(Union(t, cs[..n - 1]), Subtree(t, cs[n - 1]));
      CountsSnoc(t, cs, n - 1);
    }
  }

  lemma {:induction false} DisjointSize<T>(u: set<T>, v: set<T>)
    requires u !! v
    ensures |u + v| == |u| + |v|
  {
  }

  lemma {:induction false} CountsSnoc(t: Shape, cs: seq<Hash>, n: nat)
    requires n < |cs|
    ensures Sum(Counts(t, cs[..n + 1])) == Sum(Counts(t, cs[..n])) + |Subtree(t, cs[n])|
  {
    assert Counts(t, cs[..n + 1]) == Counts(t, cs[..n]) + [|Subtree(t, cs[n])|];
    SumSnoc(Counts(t, cs[..n]), |Subtree(t, cs[n])|);
  }

  /** A subtree is its top block and the subtrees of that block's children. */
  lemma {:induction false} SubtreeSize(t: Shape, root: Hash, h: Hash)
    requires WellFormed(t, root) && h in t
    ensures |Subtree(t, h)| == 1 + Sum(Counts(t, t[h].children))
    ensures forall i :: 0 <= i < |t[h].children| ==> Subtree(t, t[h].children[i]) < Subtree(t, h)
  {
    var cs := t[h].children;
    UnionSize(t, root, h, |cs|);
    assert cs[..|cs|] == cs;
    var u := Union(t, cs);
    forall x
      ensures x in Subtree(t, h) <==> x in u + {h}
    {
      if x in Subtree(t, h) && x != h {
        var i := ChildToward(t, root, h, x);
        assert Anc(t, cs[i], x);
      }
      if x in u {
        var i :| 0 <= i < |cs| && Anc(t, cs[i], x);
        ChildAnc(t, root, h, i);
        AncTrans(t, h, cs[i], x);
      }
    }
    if h in u {
      var i :| 0 <= i < |cs| && Anc(t, cs[i], h);
      ChildAnc(t, root, h, i);
    }
    assert Subtree(t, h) == u + {h};
    forall i | 0 <= i < |cs|
      ensures Subtree(t, cs[i]) < Subtree(t, h)
    {
      ChildAnc(t, root, h, i);
      assert h !in Subtree(t, cs[i]);
      assert Subtree(t, cs[i]) <= u;
    }
  }
}
