/** The invariants of the two breadth-first passes of a reindex: counting subtrees bottom-up and
    handing out labels top-down. */
module Counting {
  import opened Types
  import opened Tree

  /** Cached subtree sizes are right, and cached together with those of all descendants. */
  ghost predicate SizesOk(t: Shape, sizes: map<Hash, int>) {
    forall h {:trigger SizeOk(t, sizes, h)} :: h in sizes ==> SizeOk(t, sizes, h)
  }

  ghost predicate SizeOk(t: Shape, sizes: map<Hash, int>, h: Hash)
    requires h in sizes
  {
    && h in t && sizes[h] == |Subtree(t, h)|
    && forall i :: 0 <= i < |t[h].children| ==> t[h].children[i] in sizes
  }

  /** How many entries of `cs` are in `done`. */
  ghost function CountIn(cs: seq<Hash>, done: set<Hash>): (n: nat)
    ensures n <= |cs|
  {
    if |cs| == 0 then 0 else CountIn(cs[..|cs| - 1], done) + if cs[|cs| - 1] in done then 1 else 0
  }

  lemma {:induction false} CountAll(cs: seq<Hash>, done: set<Hash>)
    ensures CountIn(cs, done) == |cs| <==> forall i :: 0 <= i < |cs| ==> cs[i] in done
  {
    if |cs| > 0 {
      CountAll(cs[..|cs| - 1], done);
    }
  }

  lemma {:induction false} CountOneMore(cs: seq<Hash>, done: set<Hash>, c: Hash)
    requires c !in done
    requires forall i, j :: 0 <= i < j < |cs| ==> cs[i] != cs[j]
    ensures CountIn(cs, done + {c}) == CountIn(cs, done) + if c in cs then 1 else 0
  {
    if |cs| > 0 {
      CountOneMore(cs[..|cs| - 1], done, c);
    }
  }

  /** A block's size follows once the sizes of all its children are cached. */
  lemma {:induction false} SizeFromChildren(t: Shape, root: Hash, sizes: map<Hash, int>, h: Hash)
    requires WellFormed(t, root) && SizesOk(t, sizes) && h in t
    requires forall c :: c in t[h].children ==> c in sizes
    ensures Sum(SubtreeSizes(sizes, t[h].children)) + 1 == |Subtree(t, h)|
  {
    var cs := t[h].children;
    assert SubtreeSizes(sizes, cs) == Counts(t, cs) by {
      forall i | 0 <= i < |cs|
        ensures SubtreeSizes(sizes, cs)[i] == Counts(t, cs)[i]
      {
        assert cs[i] in cs;
        assert SizeOk(t, sizes, cs[i]);
      }
    }
    SubtreeSize(t, root, h);
  }

  lemma {:induction false} SizesGrow(t: Shape, sizes: map<Hash, int>, h: Hash)
    requires SizesOk(t, sizes) && h in t && forall c :: c in t[h].children ==> c in sizes
    ensures SizesOk(t, sizes[h := |Subtree(t, h)|])
  {
    var sizes' := sizes[h := |Subtree(t, h)|];
    forall x | x in sizes'
      ensures SizeOk(t, sizes', x)
    {
      if x != h {
        assert SizeOk(t, sizes, x);
      }
    }
  }

  // ---------- queues ----------

  /** `queue` holds each block of `waiting` exactly once. */
  ghost predicate IsQueue(queue: seq<Hash>, waiting: set<Hash>) {
    && (forall i :: 0 <= i < |queue| ==> queue[i] in waiting)
    && (forall x :: x in waiting ==> x in queue)
    && (forall i, j :: 0 <= i < j < |queue| ==> queue[i] != queue[j])
  }

  lemma {:induction false} Pop(queue: seq<Hash>, waiting: set<Hash>)
    requires IsQueue(queue, waiting) && |queue| > 0
    ensures queue[0] in waiting && IsQueue(queue[1..], waiting - {queue[0]})
  {
    forall x | x in waiting - {queue[0]}
      ensures x in queue[1..]
    {
      var i :| 0 <= i < |queue| && queue[i] == x;
      assert queue[1..][i - 1] == x;
    }
  }

  lemma {:induction false} PushAll(queue: seq<Hash>, waiting: set<Hash>, cs: seq<Hash>)
    requires IsQueue(queue, waiting)
    requires forall i, j :: 0 <= i < j < |cs| ==> cs[i] != cs[j]
    requires forall i :: 0 <= i < |cs| ==> cs[i] !in waiting
    ensures IsQueue(queue + cs, waiting + Elems(cs))
  {
  }

  ghost predicate AllIn(cs: seq<Hash>, s: set<Hash>) {
    forall c :: c in cs ==> c in s
  }

  ghost function Elems(cs: seq<Hash>): set<Hash> {
    set x | x in cs
  }

  // ---------- counting ----------

  /** Blocks met by the counting pass below `block`: `popped` ones left the queue, `waiting` ones
      are on it, and `expanded` ones were put off until their children are counted. */
  ghost predicate Explored(t: Shape, block: Hash, waiting: set<Hash>, popped: set<Hash>, expanded: set<Hash>) {
    && expanded <= popped <= Subtree(t, block) && waiting <= Subtree(t, block) && waiting !! popped
    && (forall x :: x in popped + waiting && x != block ==> t[x].parent in expanded)
    && (forall x :: x in expanded ==> AllIn(t[x].children, waiting + popped))
    && block in popped + waiting
  }

  function CountOf(counts: map<Hash, int>, x: Hash): int {
    if x in counts then counts[x] else 0
  }

  /** Who has been counted: `pushed` blocks have reported to their parent, and those in `pending`
      are about to. A block reports once it needs no child or all its children have reported. */
  ghost predicate CountedAt(t: Shape, block: Hash, sizes: map<Hash, int>, counts: map<Hash, int>,
                            expanded: set<Hash>, pushed: set<Hash>, pending: set<Hash>, x: Hash)
    requires x in t
  {
    var complete := x !in expanded || AllIn(t[x].children, pushed);
    && (x in expanded ==> CountOf(counts, x) == CountIn(t[x].children, pushed))
    && (complete ==> x in sizes && (x in pushed || x in pending || x == block))
    && (x in pushed || x in pending ==> complete && x in sizes && x != block)
  }

  ghost predicate Counted(t: Shape, block: Hash, sizes: map<Hash, int>, counts: map<Hash, int>,
                          popped: set<Hash>, expanded: set<Hash>, pushed: set<Hash>, pending: set<Hash>)
  {
    && SizesOk(t, sizes)
    && popped <= t.Keys && pushed <= popped && pending <= popped && pushed !! pending && counts.Keys <= expanded
    && forall x :: x in popped ==> CountedAt(t, block, sizes, counts, expanded, pushed, pending, x)
  }

  lemma {:induction false} ChildFresh(t: Shape, root: Hash, block: Hash, waiting: set<Hash>, popped: set<Hash>,
                                      expanded: set<Hash>, x: Hash, i: nat)
    requires WellFormed(t, root) && block in t && Explored(t, block, waiting, popped, expanded)
    requires x in waiting + popped && x !in expanded && i < |t[x].children|
    ensures var c := t[x].children[i];
      c in Subtree(t, block) && c !in popped + waiting && t[c].parent == x && c != block
  {
    ChildAnc(t, root, x, i);
    AncTrans(t, block, x, t[x].children[i]);
    AncHeight(t, block, x);
    AncHeight(t, x, t[x].children[i]);
  }

  /** A block whose children must be counted first is put off. */
  lemma {:induction false} Expand(t: Shape, root: Hash, block: Hash, waiting: set<Hash>, popped: set<Hash>,
                                  expanded: set<Hash>, x: Hash)
    requires WellFormed(t, root) && block in t && Explored(t, block, waiting, popped, expanded) && x in waiting
    ensures Explored(t, block, waiting - {x} + Elems(t[x].children), popped + {x}, expanded + {x})
    ensures forall i :: 0 <= i < |t[x].children| ==> t[x].children[i] !in waiting + popped
    ensures forall i, j :: 0 <= i < j < |t[x].children| ==> t[x].children[i] != t[x].children[j]
  {
    forall c | c in t[x].children
      ensures c in Subtree(t, block) && c !in popped + waiting && t[c].parent == x && c != block
    {
      var i :| 0 <= i < |t[x].children| && t[x].children[i] == c;
      ChildFresh(t, root, block, waiting, popped, expanded, x, i);
    }
  }

  lemma {:induction false} ExpandCounted(t: Shape, root: Hash, block: Hash, sizes: map<Hash, int>, counts: map<Hash,
                                         int>,
                      waiting: set<Hash>, popped: set<Hash>, expanded: set<Hash>, pushed: set<Hash>, x: Hash)
    requires WellFormed(t, root) && block in t && Explored(t, block, waiting, popped, expanded) && x in waiting
    requires Counted(t, block, sizes, counts, popped, expanded, pushed, {})
    requires |t[x].children| > 0
    ensures Counted(t, block, sizes, counts, popped + {x}, expanded + {x}, pushed, {})
  {
    var cs := t[x].children;
    forall i | 0 <= i < |cs|
      ensures cs[i] !in pushed
    {
      ChildFresh(t, root, block, waiting, popped, expanded, x, i);
    }
    CountNone(cs, pushed);
    assert cs[0] in cs;
    forall y | y in popped + {x}
      ensures CountedAt(t, block, sizes, counts, expanded + {x}, pushed, {}, y)
    {
      if y != x {
        assert CountedAt(t, block, sizes, counts, expanded, pushed, {}, y);
      }
    }
  }

  lemma {:induction false} CountNone(cs: seq<Hash>, s: set<Hash>)
    requires forall i :: 0 <= i < |cs| ==> cs[i] !in s
    ensures CountIn(cs, s) == 0
  {
    if |cs| > 0 {
      CountNone(cs[..|cs| - 1], s);
    }
  }

  /** A leaf, or a block counted earlier, needs no expansion. */
  lemma {:induction false} Leave(t: Shape, block: Hash, waiting: set<Hash>, popped: set<Hash>, expanded: set<Hash>,
                                 x: Hash)
    requires block in t && Explored(t, block, waiting, popped, expanded) && x in waiting
    ensures Explored(t, block, waiting - {x}, popped + {x}, expanded)
  {
    assert (popped + {x}) + (waiting - {x}) == popped + waiting;
    assert (waiting - {x}) + (popped + {x}) == waiting + popped;
  }

  lemma {:induction false} LeaveCounted(t: Shape, block: Hash, sizes: map<Hash, int>, counts: map<Hash, int>,
                     popped: set<Hash>, expanded: set<Hash>, pushed: set<Hash>, x: Hash)
    requires x in t && x !in popped && expanded <= popped && x in sizes
    requires Counted(t, block, sizes, counts, popped, expanded, pushed, {})
    ensures Counted(t, block, sizes, counts, popped + {x}, expanded, pushed, if x == block then {} else {x})
  {
    var pending := if x == block then {} else {x};
    forall y | y in popped + {x}
      ensures CountedAt(t, block, sizes, counts, expanded, pushed, pending, y)
    {
      if y != x {
        assert CountedAt(t, block, sizes, counts, expanded, pushed, {}, y);
      }
    }
  }

  /** The pending block reports to its parent. */
  lemma {:induction false} Push(t: Shape, root: Hash, block: Hash, sizes: map<Hash, int>, counts: map<Hash, int>,
             waiting: set<Hash>, popped: set<Hash>, expanded: set<Hash>, pushed: set<Hash>, c: Hash)
    requires WellFormed(t, root) && block in t && Explored(t, block, waiting, popped, expanded)
    requires Counted(t, block, sizes, counts, popped, expanded, pushed, {c}) && c != block
    ensures var p := t[c].parent; var n := CountOf(counts, p) + 1;
      && p in t && t[p].height < t[c].height
      && p in expanded && p !in pushed && p != c && c != root && c in t[p].children
      && n == CountIn(t[p].children, pushed + {c}) <= |t[p].children|
      && (n == |t[p].children| <==> AllIn(t[p].children, pushed + {c}))
  {
    var p := t[c].parent;
    BelowBlock(t, root, block, c);
    assert CountedAt(t, block, sizes, counts, expanded, pushed, {c}, p);
    PushCount(t[p].children, pushed, c);
  }

  lemma {:induction false} PushCount(cs: seq<Hash>, pushed: set<Hash>, c: Hash)
    requires c in cs && c !in pushed
    requires forall i, j :: 0 <= i < j < |cs| ==> cs[i] != cs[j]
    ensures !AllIn(cs, pushed)
    ensures CountIn(cs, pushed) + 1 == CountIn(cs, pushed + {c})
    ensures CountIn(cs, pushed + {c}) == |cs| <==> AllIn(cs, pushed + {c})
  {
    CountOneMore(cs, pushed, c);
    CountAll(cs, pushed + {c});
    assert AllIn(cs, pushed + {c}) <==> forall i :: 0 <= i < |cs| ==> cs[i] in pushed + {c};
  }

  lemma {:induction false} BelowBlock(t: Shape, root: Hash, block: Hash, c: Hash)
    requires WellFormed(t, root) && block in t && c in Subtree(t, block) && c != block
    ensures c != root && t[c].parent in t && c in t[t[c].parent].children && t[c].parent != c
    ensures t[t[c].parent].height < t[c].height
  {
    AncHeight(t, block, c);
    RootAnc(t, root, block);
    AncHeight(t, root, block);
    assert HangsOn(t, c, t[c].parent);
  }

  /** Reporting changes nothing for blocks other than the parent. */
  lemma {:induction false} PushOthers(t: Shape, root: Hash, block: Hash, sizes: map<Hash, int>, counts: map<Hash, int>,
                                      n: int,
                   expanded: set<Hash>, pushed: set<Hash>, c: Hash, pending: set<Hash>, sizes': map<Hash, int>, y: Hash)
    requires WellFormed(t, root) && c in t && c != root && y in t && y != t[c].parent && c !in pushed
    requires CountedAt(t, block, sizes, counts, expanded, pushed, {c}, y)
    requires pending <= {t[c].parent} && sizes.Keys <= sizes'.Keys
    ensures CountedAt(t, block, sizes', counts[t[c].parent := n], expanded, pushed + {c}, pending, y)
  {
    ChildOfParent(t, root, c, y);
    CountOneMore(t[y].children, pushed, c);
    if AllIn(t[y].children, pushed + {c}) {
      forall x | x in t[y].children
        ensures x in pushed
      {
      }
    }
    if AllIn(t[y].children, pushed) {
      assert AllIn(t[y].children, pushed + {c});
    }
  }

  lemma {:induction false} PushAllOthers(t: Shape, root: Hash, block: Hash, sizes: map<Hash, int>, counts: map<Hash,
                                         int>, n: int,
                      popped: set<Hash>, expanded: set<Hash>, pushed: set<Hash>, c: Hash, pending: set<Hash>,
                        sizes': map<Hash, int>)
    requires WellFormed(t, root) && c in t && c != root && c !in pushed && popped <= t.Keys
    requires forall y :: y in popped ==> CountedAt(t, block, sizes, counts, expanded, pushed, {c}, y)
    requires pending <= {t[c].parent} && sizes.Keys <= sizes'.Keys
    ensures forall y :: y in popped && y != t[c].parent ==>
              CountedAt(t, block, sizes', counts[t[c].parent := n], expanded, pushed + {c}, pending, y)
  {
    forall y | y in popped && y != t[c].parent
      ensures CountedAt(t, block, sizes', counts[t[c].parent := n], expanded, pushed + {c}, pending, y)
    {
      PushOthers(t, root, block, sizes, counts, n, expanded, pushed, c, pending, sizes', y);
    }
  }

  lemma {:induction false} PushSome(t: Shape, root: Hash, block: Hash, sizes: map<Hash, int>, counts: map<Hash, int>,
                 waiting: set<Hash>, popped: set<Hash>, expanded: set<Hash>, pushed: set<Hash>, c: Hash)
    requires WellFormed(t, root) && block in t && Explored(t, block, waiting, popped, expanded)
    requires Counted(t, block, sizes, counts, popped, expanded, pushed, {c}) && c != block
    requires t[c].parent in t && CountOf(counts, t[c].parent) + 1 < |t[t[c].parent].children|
    ensures var p := t[c].parent;
      Counted(t, block, sizes, counts[p := CountOf(counts, p) + 1], popped, expanded, pushed + {c}, {})
  {
    Push(t, root, block, sizes, counts, waiting, popped, expanded, pushed, c);
    var p := t[c].parent;
    var n := CountOf(counts, p) + 1;
    assert CountedAt(t, block, sizes, counts[p := n], expanded, pushed + {c}, {}, p);
    PushAllOthers(t, root, block, sizes, counts, n, popped, expanded, pushed, c, {}, sizes);
  }

  lemma {:induction false} PushedSized(t: Shape, block: Hash, sizes: map<Hash, int>, counts: map<Hash, int>,
                    popped: set<Hash>, expanded: set<Hash>, pushed: set<Hash>, pending: set<Hash>, cs: seq<Hash>)
    requires Counted(t, block, sizes, counts, popped, expanded, pushed, pending) && AllIn(cs, pushed + pending)
    ensures forall x :: x in cs ==> x in sizes
  {
    forall x | x in cs
      ensures x in sizes
    {
      assert CountedAt(t, block, sizes, counts, expanded, pushed, pending, x);
    }
  }

  /** The last child to report completes its parent, which then reports itself. */
  lemma {:induction false} PushLast(t: Shape, root: Hash, block: Hash, sizes: map<Hash, int>, counts: map<Hash, int>,
                 waiting: set<Hash>, popped: set<Hash>, expanded: set<Hash>, pushed: set<Hash>, c: Hash)
    requires WellFormed(t, root) && block in t && Explored(t, block, waiting, popped, expanded)
    requires Counted(t, block, sizes, counts, popped, expanded, pushed, {c}) && c != block
    requires t[c].parent in t && CountOf(counts, t[c].parent) + 1 >= |t[t[c].parent].children|
    ensures var p := t[c].parent;
      && (forall x :: x in t[p].children ==> x in sizes)
      && Counted(t, block, sizes[p := |Subtree(t, p)|], counts[p := CountOf(counts, p) + 1], popped, expanded,
                 pushed + {c}, if p == block then {} else {p})
  {
    Push(t, root, block, sizes, counts, waiting, popped, expanded, pushed, c);
    PushedSized(t, block, sizes, counts, popped, expanded, pushed, {c}, t[t[c].parent].children);
    PushComplete(t, root, block, sizes, counts, popped, expanded, pushed, c);
  }

  lemma {:induction false} PushComplete(t: Shape, root: Hash, block: Hash, sizes: map<Hash, int>, counts: map<Hash,
                                        int>,
                     popped: set<Hash>, expanded: set<Hash>, pushed: set<Hash>, c: Hash)
    requires WellFormed(t, root) && Counted(t, block, sizes, counts, popped, expanded, pushed, {c}) && c != root
    requires var p := t[c].parent;
      && p in expanded && expanded <= popped && p !in pushed && p != c
      && CountOf(counts, p) + 1 == CountIn(t[p].children, pushed + {c}) && AllIn(t[p].children, pushed + {c})
      && forall x :: x in t[p].children ==> x in sizes
    ensures var p := t[c].parent;
      Counted(t, block, sizes[p := |Subtree(t, p)|], counts[p := CountOf(counts, p) + 1], popped, expanded,
              pushed + {c}, if p == block then {} else {p})
  {
    var p := t[c].parent;
    var n := CountOf(counts, p) + 1;
    var pending := if p == block then {} else {p};
    SizesGrow(t, sizes, p);
    var sizes' := sizes[p := |Subtree(t, p)|];
    PushAllOthers(t, root, block, sizes, counts, n, popped, expanded, pushed, c, pending, sizes');
    var counts', pushed' := counts[p := n], pushed + {c};
    assert CountedAt(t, block, sizes', counts', expanded, pushed', pending, p);
    assert pushed' <= popped && pending <= popped && pushed' !! pending && counts'.Keys <= expanded;
    assert Counted(t, block, sizes', counts', popped, expanded, pushed', pending);
  }

  lemma {:induction false} ChildOfParent(t: Shape, root: Hash, c: Hash, x: Hash)
    requires WellFormed(t, root) && c in t && c != root && x in t
    ensures c in t[x].children <==> t[c].parent == x
  {
    assert HangsOn(t, c, t[c].parent);
    if c in t[x].children {
      var i :| 0 <= i < |t[x].children| && t[x].children[i] == c;
      assert IsChild(t, x, c);
    }
  }

  lemma {:induction false} ExploredChild(t: Shape, root: Hash, block: Hash, popped: set<Hash>, expanded: set<Hash>,
                                         x: Hash, i: nat)
    requires WellFormed(t, root) && block in t && Explored(t, block, {}, popped, expanded)
    requires x in expanded && i < |t[x].children|
    ensures t[x].children[i] in popped && t[x].children[i] != block
  {
    assert t[x].children[i] in t[x].children;
    ChildAnc(t, root, x, i);
    AncHeight(t, block, x);
    AncHeight(t, x, t[x].children[i]);
  }

  /** Once nothing waits and nobody is pending, everything met has been counted. */
  lemma {:induction false} AllCounted(t: Shape, root: Hash, block: Hash, sizes: map<Hash, int>, counts: map<Hash, int>,
                                      popped: set<Hash>, expanded: set<Hash>, pushed: set<Hash>, x: Hash)
    requires WellFormed(t, root) && block in t && Explored(t, block, {}, popped, expanded)
    requires Counted(t, block, sizes, counts, popped, expanded, pushed, {}) && x in popped
    ensures x in sizes && (x in pushed || x == block)
    decreases Subtree(t, x)
  {
    assert CountedAt(t, block, sizes, counts, expanded, pushed, {}, x);
    if x in expanded {
      SubtreeSize(t, root, x);
      forall i | 0 <= i < |t[x].children|
        ensures t[x].children[i] in pushed
      {
        ExploredChild(t, root, block, popped, expanded, x, i);
        AllCounted(t, root, block, sizes, counts, popped, expanded, pushed, t[x].children[i]);
      }
    }
  }
}
