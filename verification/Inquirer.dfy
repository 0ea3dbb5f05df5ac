/** The reachability index: insertion of blocks and queries on the DAG. */
module Inquirer {
  import opened Types
  import opened Intervals
  import opened Tree
  import opened Labels
  import opened Store
  import opened NewLeaf
  import opened Dag
  import opened Covering
  import opened Deleting
  import opened TreeOps

  /** The store holds the index of the DAG whose pasts are `past`. */
  ghost predicate Indexes(store: ReachabilityStore, past: Pasts, root: Hash)
    reads store
  {
    && IndexOk(store.tree, store.labels, store.cover, past, root)
    && PivotOk(store.tree, root, store.reindexRoot)
  }

  lemma {:induction false} IndexedTree(store: ReachabilityStore, past: Pasts, root: Hash)
    requires Indexes(store, past, root)
    ensures TreeValid(store, root) && IndexOk(store.tree, store.labels, store.cover, past, root)
    ensures store.cover.Keys == store.tree.Keys == past.Keys == store.labels.Keys
  {
  }

  /** Starts the index with the virtual origin alone; does nothing if that was done before. */
  method Init(store: ReachabilityStore) returns (r: Status)
    modifies store
    ensures r == Ok
    ensures ORIGIN in old(store.tree) ==> unchanged(store)
    ensures old(store.tree) == map[] && old(store.labels) == map[] && old(store.cover) == map[] ==>
      Indexes(store, map[ORIGIN := {}], ORIGIN)
    ensures old(store.tree) == map[] ==>
      store.tree == map[ORIGIN := TreeNode(NONE, [], 0)] && store.reindexRoot == ORIGIN &&
      store.labels == old(store.labels)[ORIGIN := MAXIMAL]
  {
    if ORIGIN in store.tree {
      return Ok;
    }
    r := store.Insert(ORIGIN, NONE, MAXIMAL, 0);
    store.SetReindexRoot(ORIGIN);
    if |old(store.tree)| == 0 {
      assert Anc(store.tree, ORIGIN, ORIGIN);
      assert old(store.labels) == map[] && old(store.cover) == map[] ==>
        Linked(store.tree, store.cover, map[ORIGIN := {}], ORIGIN, ORIGIN);
    }
  }

  /** Is `a` equal to `b` or in its past? */
  method IsDagAncestorOf(store: ReachabilityStore, a: Hash, b: Hash, ghost past: Pasts, ghost root: Hash)
      returns (r: Status, answer: bool)
    requires Indexes(store, past, root)
    ensures r == if a in store.tree && b in store.tree then Ok else KeyNotFound
    ensures r == Ok ==> (answer <==> a == b || a in past[b])
  {
    hide IndexOk, PivotOk, TreeOk, SearchResult, Ordered;
    IndexedTree(store, past, root);
    if a !in store.labels || b !in store.labels {
      return KeyNotFound, false;
    }
    ghost var t, iv := store.tree, store.labels;
    IndexParts(t, iv, store.cover, past, root);
    LinkedAt(t, iv, store.cover, past, root, a, b);
    TreeContains(t, iv, root, a, b);
    if IsChainAncestorOf(store, a, b) {
      return Ok, true;
    }
    CoverAt(t, iv, store.cover, past, root, a);
    var found, i := BinarySearchDescendant(store, store.cover[a], b);
    SearchIsAncestry(t, iv, root, store.cover[a], b, found, i);
    return Ok, found;
  }

  /** The child of `ancestor` on the tree path to `descendant`. */
  method GetNextChainAncestor(store: ReachabilityStore, descendant: Hash, ancestor: Hash, ghost past: Pasts,
                              ghost root: Hash)
      returns (r: Status, child: Hash)
    requires Indexes(store, past, root)
    ensures descendant != ancestor && (descendant !in store.tree || ancestor !in store.tree) ==> r == KeyNotFound
    ensures descendant == ancestor ==> r == BadQuery
    ensures descendant != ancestor && descendant in store.tree && ancestor in store.tree ==>
      r == if Anc(store.tree, ancestor, descendant) then Ok else BadQuery
    ensures r == Ok ==>
      child in store.tree && store.tree[child].parent == ancestor && Anc(store.tree, child, descendant)
  {
    IndexedTree(store, past, root);
    ghost var t, iv := store.tree, store.labels;
    IndexParts(t, iv, store.cover, past, root);
    hide Indexes, IndexOk, PivotOk, TreeOk, SearchResult, Ordered, WellFormed;
    if descendant == ancestor {
      return BadQuery, NONE;
    }
    if descendant !in store.labels || ancestor !in store.labels {
      return KeyNotFound, NONE;
    }
    TreeContains(t, iv, root, ancestor, descendant);
    if !IsStrictChainAncestorOf(store, ancestor, descendant) {
      return BadQuery, NONE;
    }
    SelfChildren(t, iv, root, ancestor);
    var i;
    r, child, i := NextChainAncestorUnchecked(store, descendant, ancestor);
    if r == Ok {
      FoundChild(t, iv, root, ancestor, descendant, i);
    } else {
      StuckAtHint(t, iv, root, ancestor, descendant, i);
    }
  }

  /** Records that `n` is in the future of `m`, in the place where the labels of `n` belong. */
  method InsertToFutureCoveringSet(store: ReachabilityStore, m: Hash, n: Hash, ghost root: Hash) returns (r: Status)
    requires TreeOk(store.tree, store.labels, root) && n in store.tree && store.tree[n].children == []
    requires m in store.cover ==> Ordered(store.labels, store.cover[m])
    modifies store`cover
    ensures r == if m !in old(store.cover) then KeyNotFound else if Covered(store.tree, old(store.cover)[m], n) then
      DataInconsistency else Ok
    ensures r != Ok ==> store.cover == old(store.cover)
    ensures r == Ok ==>
      m in store.cover && store.cover == old(store.cover)[m := store.cover[m]] &&
      WithItem(old(store.cover)[m], store.cover[m], n)
    ensures r == Ok ==> Ordered(store.labels, store.cover[m])
  {
    hide TreeOk, SearchResult, Ordered;
    if m !in store.cover {
      return KeyNotFound;
    }
    ghost var t, iv, items := store.tree, store.labels, store.cover[m];
    TreeContains(t, iv, root, n, n);
    var found, i := BinarySearchDescendant(store, store.cover[m], n);
    SearchIsAncestry(t, iv, root, items, n, found, i);
    if found {
      return DataInconsistency;
    }
    SearchPlaces(t, iv, root, items, n, i);
    store.InsertFutureCoveringItem(m, n, i);
    return Ok;
  }

  /** The place the search names keeps the items in order. */
  lemma {:induction false} SearchPlaces(t: Shape, iv: Labels, root: Hash, items: seq<Hash>, n: Hash, i: nat)
    requires TreeOk(t, iv, root) && n in t && t[n].children == [] && Ordered(iv, items) &&
      SearchResult(iv, items, n, false, i)
    ensures i <= |items| && Ordered(iv, items[..i] + [n] + items[i..])
  {
    SearchIsAncestry(t, iv, root, items, n, false, i);
    forall k | 0 <= k < |items|
      ensures Labelled(iv, items[k]) && (if k < i then Before(iv, items[k], n) else Before(iv, n, items[k]))
    {
      TreeContains(t, iv, root, items[k], n);
      if Anc(t, n, items[k]) {
        ChildlessApart(t, root, n, items[k]);
      }
      TreeApart(t, iv, root, items[k], n);
    }
    TreeContains(t, iv, root, n, n);
    hide TreeOk, SearchResult;
    PlacedOrdered(iv, items, n, i);
  }

  lemma {:induction false} ChildlessApart(t: Shape, root: Hash, n: Hash, x: Hash)
    requires WellFormed(t, root) && n in t && t[n].children == [] && Anc(t, n, x)
    ensures x == n
  {
    if x != n {
      var i := ChildToward(t, root, n, x);
    }
  }

  lemma {:induction false} PlacedOrdered(iv: Labels, items: seq<Hash>, n: Hash, i: nat)
    requires Ordered(iv, items) && Labelled(iv, n) && i <= |items|
    requires forall k :: 0 <= k < |items| ==>
      Labelled(iv, items[k]) && (if k < i then Before(iv, items[k], n) else Before(iv, n, items[k]))
    ensures Ordered(iv, items[..i] + [n] + items[i..])
  {
    var placed := items[..i] + [n] + items[i..];
    forall j, k | 0 <= j < k < |placed|
      ensures placed[j] in iv && placed[k] in iv && iv[placed[j]].end < iv[placed[k]].start &&
        iv[placed[j]].start < iv[placed[k]].start
    {
      assert j != i ==> placed[j] == items[if j < i then j else j - 1];
      assert k != i ==> placed[k] == items[if k < i then k else k - 1];
    }
    forall j | 0 <= j < |placed|
      ensures placed[j] in iv
    {
      assert j != i ==> placed[j] == items[if j < i then j else j - 1];
    }
  }

  // ---------- insertion ----------

  /** None of the blocks is listed twice or already known to precede `sp` by way of its covering set. */
  ghost predicate Mergeable(t: Shape, cover: Cover, sp: Hash, mergeset: seq<Hash>) {
    && (forall i, j :: 0 <= i < j < |mergeset| ==> mergeset[i] != mergeset[j])
    && (forall i :: 0 <= i < |mergeset| ==> mergeset[i] in cover && !Covered(t, cover[mergeset[i]], sp))
  }

  /** The blocks listed so far have the new block in their covering sets. */
  ghost predicate Merging(t: Shape, iv: Labels, cover: Cover, now: Cover, n: Hash, mergeset: seq<Hash>, i: nat)
    requires i <= |mergeset|
  {
    && now.Keys == cover.Keys + {n} && now[n] == []
    && (forall a {:trigger GrownAt(iv, cover, now, n, Listed(mergeset[..i]), a)} :: a in t ==>
      GrownAt(iv, cover, now, n, Listed(mergeset[..i]), a))
  }

  /** Puts the new block in the covering set of every block of the merge set. */
  method AddDagBlock(store: ReachabilityStore, n: Hash, mergeset: seq<Hash>, ghost t: Shape, ghost cover: Cover,
                     ghost sp: Hash, ghost root: Hash)
      returns (r: Status)
    requires WellFormed(t, root) && Fresh(t, n, sp) && cover.Keys == t.Keys
    requires store.tree == WithLeaf(t, n, sp) && TreeOk(store.tree, store.labels, root)
    requires store.cover == cover[n := []] && forall m :: m in mergeset ==> m in t
    requires forall a {:trigger CoverOk(store.labels, cover, a)} :: a in t ==>
      CoverOk(store.labels, cover, a) && n !in cover[a]
    modifies store`cover
    ensures r == if Mergeable(t, cover, sp, mergeset) then Ok else DataInconsistency
    ensures r == Ok ==> Merging(t, store.labels, cover, store.cover, n, mergeset, |mergeset|)
  {
    ghost var iv := store.labels;
    GrownKeys(t, n, sp);
    MergingStarts(t, iv, cover, store.cover, n, mergeset);
    hide WellFormed, TreeOk, WithLeaf, CoverOk, Ordered, Mergeable, Merging;
    assert MergeableUpTo(t, cover, sp, mergeset, 0);
    for i := 0 to |mergeset|
      invariant Merging(t, iv, cover, store.cover, n, mergeset, i)
      invariant MergeableUpTo(t, cover, sp, mergeset, i)
    {
      MergingAt(t, root, iv, cover, store.cover, n, sp, mergeset, i);
      ghost var now := store.cover;
      r := InsertToFutureCoveringSet(store, mergeset[i], n, root);
      MergedOne(t, iv, cover, sp, now, store.cover, n, mergeset, i, r);
      if r != Ok {
        return;
      }
    }
    AllMergeable(t, cover, sp, mergeset);
    return Ok;
  }

  ghost predicate MergeableUpTo(t: Shape, cover: Cover, sp: Hash, mergeset: seq<Hash>, i: nat) {
    i <= |mergeset| && Mergeable(t, cover, sp, mergeset[..i])
  }

  lemma {:induction false} AllMergeable(t: Shape, cover: Cover, sp: Hash, mergeset: seq<Hash>)
    requires MergeableUpTo(t, cover, sp, mergeset, |mergeset|)
    ensures Mergeable(t, cover, sp, mergeset)
  {
    assert mergeset[..|mergeset|] == mergeset;
  }

  lemma {:induction false} MergingStarts(t: Shape, iv: Labels, cover: Cover, now: Cover, n: Hash, mergeset: seq<Hash>)
    requires n !in t && now == cover[n := []] && cover.Keys == t.Keys
    requires forall a {:trigger CoverOk(iv, cover, a)} :: a in t ==> CoverOk(iv, cover, a)
    ensures Merging(t, iv, cover, now, n, mergeset, 0)
  {
    forall a | a in t
      ensures GrownAt(iv, cover, now, n, Listed(mergeset[..0]), a)
    {
      assert CoverOk(iv, cover, a);
    }
  }

  /** The next search fails exactly for a block already merged or one that the covering sets
      already place before the selected parent. */
  lemma {:induction false} MergingAt(t: Shape, root: Hash, iv: Labels, cover: Cover, now: Cover, n: Hash, sp: Hash,
                                     mergeset: seq<Hash>, i: nat)
    requires WellFormed(t, root) && Fresh(t, n, sp) && cover.Keys == t.Keys && i < |mergeset| && mergeset[i] in t
    requires forall a {:trigger CoverOk(iv, cover, a)} :: a in t ==> CoverOk(iv, cover, a) && n !in cover[a]
    requires Merging(t, iv, cover, now, n, mergeset, i)
    ensures var m := mergeset[i];
      && m in now && m in cover && Ordered(iv, now[m])
      && (Covered(WithLeaf(t, n, sp), now[m], n) <==> m in mergeset[..i] || Covered(t, cover[m], sp))
    ensures n in WithLeaf(t, n, sp) && WithLeaf(t, n, sp)[n].children == []
  {
    var m := mergeset[i];
    assert CoverOk(iv, cover, m);
    assert GrownAt(iv, cover, now, n, Listed(mergeset[..i]), m);
    hide WellFormed, Ordered, WithItem;
    LeafCovered(t, root, n, sp, cover[m]);
    AncOfLeaf(t, root, n, sp, n);
    if m in mergeset[..i] {
      CoveredGrown(WithLeaf(t, n, sp), cover[m], now[m], n, n);
    }
  }

  lemma {:induction false} MergedOne(t: Shape, iv: Labels, cover: Cover, sp: Hash, now: Cover, now': Cover, n: Hash,
                                     mergeset: seq<Hash>, i: nat, r: Status)
    requires i < |mergeset| && mergeset[i] in t && n !in t && cover.Keys == t.Keys &&
      Merging(t, iv, cover, now, n, mergeset, i)
    requires MergeableUpTo(t, cover, sp, mergeset, i)
    requires var m := mergeset[i];
      m in cover && m in now && (r == Ok || r == DataInconsistency) &&
      (r == DataInconsistency <==> m in mergeset[..i] || Covered(t, cover[m], sp))
    requires var m := mergeset[i];
      r == Ok ==> m in now' && now' == now[m := now'[m]] && WithItem(now[m], now'[m], n) && Ordered(iv, now'[m])
    ensures r == Ok ==> Merging(t, iv, cover, now', n, mergeset, i + 1) && MergeableUpTo(t, cover, sp, mergeset, i + 1)
    ensures r != Ok ==> !Mergeable(t, cover, sp, mergeset)
  {
    hide Ordered, Covered, WithItem;
    var m := mergeset[i];
    if r == Ok {
      var before, after := mergeset[..i], mergeset[..i + 1];
      assert after == before + [m];
      forall a | a in t
        ensures GrownAt(iv, cover, now', n, Listed(after), a)
      {
        assert GrownAt(iv, cover, now, n, Listed(before), a);
      }
    } else if m in mergeset[..i] {
      var j :| 0 <= j < i && mergeset[j] == m;
    }
  }

  /** Adds `n` below its selected parent `sp`. With room for labels it fails only on a merge set that
      lists a block twice or one that is already covered; afterwards the index answers for the DAG
      in which the past of `n` is `sp`, the past of `sp`, and the merge set. */
  method AddBlock(store: ReachabilityStore, n: Hash, sp: Hash, mergeset: seq<Hash>, slack: nat, ghost past: Pasts,
                  ghost root: Hash)
      returns (r: Status)
    requires Indexes(store, past, root) && n != NONE && forall m :: m in mergeset ==> m in store.tree
    modifies store
    ensures sp !in old(store.tree) ==> r == KeyNotFound && unchanged(store)
    ensures sp in old(store.tree) && n in old(store.tree) ==> r == AlreadyExists
    ensures sp in old(store.tree) && n !in old(store.tree) ==> r in {Ok, DataOverflow, Panic, DataInconsistency}
    ensures sp in old(store.tree) && n !in old(store.tree) && old(HasRoom(store, slack)) ==>
      r == if Mergeable(old(store.tree), old(store.cover), sp, mergeset) then Ok else DataInconsistency
    ensures sp in old(store.tree) && Mergeable(old(store.tree), old(store.cover), sp, mergeset) ==>
      r != DataInconsistency
    ensures r == Ok ==> store.tree == WithLeaf(old(store.tree), n, sp) && store.reindexRoot == old(store.reindexRoot)
    ensures r == Ok ==> Indexes(store, past[n := PastWith(past, sp, Listed(mergeset))], root)
    ensures r == Ok ==>
      old(store.reindexRoot) in old(store.labels) && store.reindexRoot in store.labels &&
      store.reindexRoot in store.tree
    ensures r == Ok ==>
      store.labels[store.reindexRoot].Size() >=
        old(store.labels[store.reindexRoot].Size()) - |store.tree| - slack * store.tree[store.reindexRoot].height
  {
    ghost var t, iv, cover := store.tree, store.labels, store.cover;
    IndexedTree(store, past, root);
    IndexParts(t, iv, cover, past, root);
    hide IndexOk, TreeOk, WellFormed, WithLeaf, HasRoom, Mergeable, Merging, PivotOk, PastWith, Indexes, TreeValid;
    r := AddTreeBlock(store, n, sp, slack, root);
    if r != Ok {
      return;
    }
    ValidParts(store, root);
    CoversReady(t, iv, cover, past, root, n, sp, store.labels);
    r := AddDagBlock(store, n, mergeset, t, cover, sp, root);
    if r == Ok {
      MergedAll(t, iv, cover, past, root, n, sp, mergeset, store.labels, store.cover);
      IndexedAgain(store, past[n := PastWith(past, sp, Listed(mergeset))], root);
    }
  }

  lemma {:induction false} IndexedAgain(store: ReachabilityStore, past: Pasts, root: Hash)
    requires IndexOk(store.tree, store.labels, store.cover, past, root) && PivotOk(store.tree, root, store.reindexRoot)
    ensures Indexes(store, past, root)
  {
  }

  lemma {:induction false} CoversReady(t: Shape, iv: Labels, cover: Cover, past: Pasts, root: Hash, n: Hash, p: Hash,
                                       iv': Labels)
    requires IndexOk(t, iv, cover, past, root) && Fresh(t, n, p) && TreeOk(WithLeaf(t, n, p), iv', root)
    ensures forall a {:trigger CoverOk(iv', cover, a)} :: a in t ==> CoverOk(iv', cover, a) && n !in cover[a]
  {
    IndexParts(t, iv, cover, past, root);
    hide IndexOk, WellFormed, WithLeaf, TreeOk;
    forall a | a in t
      ensures CoverOk(iv', cover, a) && n !in cover[a]
    {
      CoverAt(t, iv, cover, past, root, a);
      OrderKeptByLeaf(t, root, n, p, iv, iv', cover[a]);
    }
  }

  lemma {:induction false} MergedAll(t: Shape, iv: Labels, cover: Cover, past: Pasts, root: Hash, n: Hash, p: Hash,
                                     mergeset: seq<Hash>, iv': Labels, cover': Cover)
    requires IndexOk(t, iv, cover, past, root) && Fresh(t, n, p) && TreeOk(WithLeaf(t, n, p), iv', root)
    requires Merging(t, iv', cover, cover', n, mergeset, |mergeset|) && forall m :: m in mergeset ==> m in t
    ensures p in past && IndexOk(WithLeaf(t, n, p), iv', cover', past[n := PastWith(past, p, Listed(mergeset))], root)
  {
    IndexParts(t, iv, cover, past, root);
    hide IndexOk, WellFormed, WithLeaf, TreeOk, GrownAt, PastWith;
    assert mergeset[..|mergeset|] == mergeset;
    IndexGrown(t, iv, cover, past, root, n, p, Listed(mergeset), iv', cover');
  }

  /** The exact merge set of a block, listed once each, is always accepted, and leaves the new block
      with exactly its past. */
  lemma {:induction false} MergeSetAccepted(t: Shape, iv: Labels, cover: Cover, past: Pasts, root: Hash, sp: Hash,
                                            mergeset: seq<Hash>, whole: set<Hash>)
    requires IndexOk(t, iv, cover, past, root) && sp in t && whole <= t.Keys && past[sp] + {sp} <= whole
    requires Listed(mergeset) == whole - past[sp] - {sp} && forall i, j :: 0 <= i < j < |mergeset| ==>
      mergeset[i] != mergeset[j]
    ensures Mergeable(t, cover, sp, mergeset) && PastWith(past, sp, Listed(mergeset)) == whole
  {
    forall i | 0 <= i < |mergeset|
      ensures mergeset[i] in cover && !Covered(t, cover[mergeset[i]], sp)
    {
      assert mergeset[i] in Listed(mergeset);
      LinkedAt(t, iv, cover, past, root, mergeset[i], sp);
    }
  }

  /** Tells the index which block may become the selected tip; labels may move, answers do not. */
  method HintVirtualSelectedParent(store: ReachabilityStore, hint: Hash, depth: nat, slack: nat, ghost past: Pasts,
                                   ghost root: Hash) returns (r: Status)
    requires Indexes(store, past, root)
    modifies store`labels, store`reindexRoot
    ensures hint !in store.tree ==> r == KeyNotFound
    ensures hint in store.tree ==> r in {Ok, BadQuery, Panic}
    ensures hint in store.tree && 0 < depth ==> (r == BadQuery <==> hint == old(store.reindexRoot))
    ensures hint in store.tree && old(HasMoveRoom(store, hint, slack)) ==> r != Panic
    ensures r != Panic ==> Indexes(store, past, root)
    ensures r == Ok ==> MovedTo(store.tree, old(store.reindexRoot), hint, depth, slack, store.reindexRoot)
    ensures r == Ok ==>
      old(store.reindexRoot) in old(store.labels) && store.reindexRoot in store.labels && hint in store.tree
    ensures r == Ok ==>
      store.labels[store.reindexRoot].Size() >=
        old(store.labels[store.reindexRoot].Size()) - |store.tree| - 2 * slack * store.tree[hint].height
  {
    ghost var iv := store.labels;
    IndexedTree(store, past, root);
    hide IndexOk, TreeOk, TreeValid, HasMoveRoom, PivotOk, Indexes, MovedTo;
    r := TryAdvancingReindexRoot(store, hint, depth, slack, root);
    if r == Ok {
      ValidParts(store, root);
      RelabelledIndex(store.tree, iv, store.labels, store.cover, past, root);
      IndexedAgain(store, past, root);
    }
  }

  // ---------- deletion ----------

  /** `holders` lists, once each, the blocks whose covering sets contain `x`. */
  ghost predicate Holders(t: Shape, cover: Cover, x: Hash, holders: seq<Hash>) {
    && (forall i, j :: 0 <= i < j < |holders| ==> holders[i] != holders[j])
    && (forall m :: m in holders ==> m in t)
    && (forall m :: m in t && m in cover ==> (m in holders <==> x in cover[m]))
  }

  /** The covering sets of the holders listed so far have let go of `x`. */
  ghost predicate LettingGo(t: Shape, cover: Cover, now: Cover, x: Hash, holders: seq<Hash>, i: nat)
    requires x in t && i <= |holders|
  {
    && now.Keys == cover.Keys == t.Keys
    && (forall a {:trigger LessAt(t, cover, now, x, a)} :: a in t && a !in holders[i..] ==> LessAt(t, cover, now, x, a))
    && (forall a :: a in holders[i..] && a in now ==> now[a] == cover[a])
  }

  lemma {:induction false} LettingGoStarts(t: Shape, cover: Cover, x: Hash, holders: seq<Hash>)
    requires x in t && cover.Keys == t.Keys && Holders(t, cover, x, holders)
    ensures LettingGo(t, cover, cover, x, holders, 0)
  {
    assert holders[0..] == holders;
  }

  lemma {:induction false} HolderNext(t: Shape, iv: Labels, cover: Cover, past: Pasts, root: Hash, now: Cover, x: Hash,
                                      holders: seq<Hash>, i: nat)
    requires IndexOk(t, iv, cover, past, root) && x in t && Holders(t, cover, x, holders) && i < |holders| &&
      LettingGo(t, cover, now, x, holders, i)
    ensures var m := holders[i]; m in now && m in cover && now[m] == cover[m] && Ordered(iv, now[m]) && x in now[m]
  {
    var m := holders[i];
    assert m in holders[i..];
    CoverAt(t, iv, cover, past, root, m);
  }

  lemma {:induction false} LetGo(t: Shape, cover: Cover, now: Cover, x: Hash, holders: seq<Hash>, i: nat, j: nat,
                                 now': Cover)
    requires x in t && Holders(t, cover, x, holders) && i < |holders| && LettingGo(t, cover, now, x, holders, i)
    requires var m := holders[i];
      m in now && m in cover && now[m] == cover[m] && j < |now[m]| && now[m][j] == x &&
      now' == now[m := Spliced(now[m], j, t[x].children)]
    ensures LettingGo(t, cover, now', x, holders, i + 1)
  {
    var m := holders[i];
    assert m in holders[i..] && holders[i..] == [m] + holders[i + 1..];
    forall a | a in t && a !in holders[i + 1..]
      ensures LessAt(t, cover, now', x, a)
    {
      if a != m {
        assert LessAt(t, cover, now, x, a);
      }
    }
    assert m !in holders[i + 1..];
  }

  lemma {:induction false} AllLetGo(t: Shape, cover: Cover, now: Cover, x: Hash, holders: seq<Hash>)
    requires x in t && LettingGo(t, cover, now, x, holders, |holders|)
    ensures now.Keys == t.Keys && forall a {:trigger LessAt(t, cover, now, x, a)} :: a in t ==>
      LessAt(t, cover, now, x, a)
  {
  }

  /** The binary search finds a listed block at its own place. */
  lemma {:induction false} FindsItself(t: Shape, iv: Labels, root: Hash, items: seq<Hash>, x: Hash, k: nat,
                                       found: bool, i: nat)
    requires TreeOk(t, iv, root) && x in t && Ordered(iv, items) && SearchResult(iv, items, x, found, i) &&
      k < |items| && items[k] == x
    ensures found && i == k
  {
    TreeContains(t, iv, root, x, x);
    assert Anc(t, x, x);
    SearchHit(iv, items, x, k, found, i);
  }

  lemma {:induction false} SlotOf(t: Shape, iv: Labels, root: Hash, x: Hash) returns (p: Hash, k: nat)
    requires TreeOk(t, iv, root) && x in t && x != root
    ensures p == t[x].parent && Slot(t, x, p, k) && Ordered(iv, t[p].children) && p != x
  {
    p := t[x].parent;
    assert HangsOn(t, x, p);
    k :| 0 <= k < |t[p].children| && t[p].children[k] == x;
    assert NodeOk(t, iv, p);
    RowOrdered(iv, t[p].children);
    ChildAnc(t, root, p, k);
  }

  /** The children of `x` become children of its parent, in its place. */
  method Adopt(store: ReachabilityStore, x: Hash, p: Hash, k: nat, ghost root: Hash)
    requires WellFormed(store.tree, root) && Slot(store.tree, x, p, k) && x != root
    modifies store`tree
    ensures store.tree == Emptied(old(store.tree), x, p, k)
  {
    ghost var t := store.tree;
    var children := store.tree[x].children;
    KidsInTree(t, root, x);
    hide WellFormed;
    store.ReplaceChild(p, k, children);
    ghost var mid := store.tree;
    assert mid.Keys == t.Keys;
    assert children[..0] == [] && store.tree == Adopted(mid, Listed(children[..0]), p);
    for i := 0 to |children|
      invariant store.tree == Adopted(mid, Listed(children[..i]), p)
    {
      assert children[..i + 1] == children[..i] + [children[i]];
      assert children[i] in children;
      store.SetParent(children[i], p);
      AdoptedOne(mid, Listed(children[..i]), children[i], p);
      assert Listed(children[..i + 1]) == Listed(children[..i]) + {children[i]};
    }
    assert children[..|children|] == children;
  }

  lemma {:induction false} AdoptedOne(t: Shape, kids: set<Hash>, c: Hash, p: Hash)
    requires c in t
    ensures Adopted(t, kids, p)[c := Adopted(t, kids, p)[c].(parent := p)] == Adopted(t, kids + {c}, p)
  {
  }

  lemma {:induction false} KidsInTree(t: Shape, root: Hash, x: Hash)
    requires WellFormed(t, root) && x in t
    ensures forall c :: c in t[x].children ==> c in t
  {
    forall c | c in t[x].children
      ensures c in t
    {
      var i :| 0 <= i < |t[x].children| && t[x].children[i] == c;
      ChildAnc(t, root, x, i);
    }
  }

  lemma {:induction false} ParentKnown(t: Shape, root: Hash, x: Hash)
    requires WellFormed(t, root) && x in t
    ensures t[x].parent in t <==> x != root
  {
    if x != root {
      assert HangsOn(t, x, t[x].parent);
    }
  }

  /** Once `p` has the children of `x`, its children before the place of `x` are where they were. */
  lemma {:induction false} EmptiedAt(t: Shape, root: Hash, x: Hash, p: Hash, k: nat)
    requires WellFormed(t, root) && Slot(t, x, p, k) && x != root
    ensures p in Emptied(t, x, p, k) && Emptied(t, x, p, k)[p].children == Spliced(t[p].children, k, t[x].children)
    ensures k > 0 ==> Emptied(t, x, p, k)[p].children[k - 1] == t[p].children[k - 1]
    ensures Emptied(t, x, p, k).Keys == t.Keys
    ensures |t[x].children| > 1 ==> t[x].children[0] != t[x].children[|t[x].children| - 1]
  {
    KidsElsewhere(t, root, x, p, k);
    SiblingsDiffer(t, root, x);
    OtherParentSelf(t, root, p);
  }

  lemma {:induction false} WithoutIs(t: Shape, x: Hash, p: Hash, k: nat)
    requires Slot(t, x, p, k)
    ensures Without(t, x, p, k) == Emptied(t, x, p, k) - {x}
  {
  }

  lemma {:induction false} PivotAfter(t: Shape, root: Hash, x: Hash, p: Hash, k: nat, pivot: Hash)
    requires WellFormed(t, root) && Slot(t, x, p, k) && x != root && PivotOk(t, root, pivot) && pivot != x
    ensures Without(t, x, p, k).Keys == t.Keys - {x}
    ensures PivotOk(Without(t, x, p, k), root, pivot) <==>
      pivot == root || t[x].children != [] || t[pivot].children != [x]
  {
    WithoutAt(t, root, x, p, k, pivot);
    if pivot == p {
      if |t[x].children| == 0 && |t[p].children| == 1 {
        assert t[p].children == [x];
      }
    } else if t[pivot].children == [x] {
      ChildAnc(t, root, pivot, 0);
    }
  }

  /** Hands the labels of a deleted block on. */
  method HandOn(store: ReachabilityStore, interval: Interval, children: seq<Hash>, p: Hash, k: nat, ghost t: Shape,
                ghost x: Hash)
    requires Slot(t, x, p, k) && children == t[x].children && x in store.labels && interval == store.labels[x]
    requires (forall c :: c in t[x].children ==> c in store.labels) &&
      (forall c :: c in t[p].children ==> c in store.labels)
    requires p in store.tree && k > 0 ==>
      k - 1 < |store.tree[p].children| && store.tree[p].children[k - 1] == t[p].children[k - 1]
    requires p in store.tree
    requires |children| > 1 ==> children[0] != children[|children| - 1]
    modifies store`labels
    ensures store.labels == Inherited(t, old(store.labels), x, p, k)
  {
    if |children| == 0 {
      if k > 0 {
        var sibling := store.tree[p].children[k - 1];
        store.SetInterval(sibling, Interval(store.labels[sibling].start, interval.end));
      }
    } else if |children| == 1 {
      store.SetInterval(children[0], interval);
    } else {
      var first, last := children[0], children[|children| - 1];
      store.SetInterval(first, Interval(interval.start, store.labels[first].end));
      store.SetInterval(last, Interval(store.labels[last].start, interval.end));
    }
  }

  /** In every covering set that holds `x`, its children take its place. */
  method LetGoEverywhere(store: ReachabilityStore, x: Hash, holders: seq<Hash>, children: seq<Hash>, ghost t: Shape,
                         ghost past: Pasts, ghost root: Hash)
    requires IndexOk(t, store.labels, store.cover, past, root) && x in t && children == t[x].children &&
      Holders(t, store.cover, x, holders)
    modifies store`cover
    ensures store.cover.Keys == t.Keys
    ensures forall a {:trigger LessAt(t, old(store.cover), store.cover, x, a)} :: a in t ==>
      LessAt(t, old(store.cover), store.cover, x, a)
  {
    ghost var iv, cover := store.labels, store.cover;
    IndexParts(t, iv, cover, past, root);
    hide IndexOk, TreeOk, WellFormed, Ordered, SearchResult, Holders, LettingGo, CoverLess, LessAt;
    LettingGoStarts(t, cover, x, holders);
    for j := 0 to |holders|
      invariant LettingGo(t, cover, store.cover, x, holders, j)
    {
      var m := holders[j];
      HolderNext(t, iv, cover, past, root, store.cover, x, holders, j);
      ghost var l :| 0 <= l < |store.cover[m]| && store.cover[m][l] == x;
      var hit, i := BinarySearchDescendant(store, store.cover[m], x);
      FindsItself(t, iv, root, store.cover[m], x, l, hit, i);
      ghost var now := store.cover;
      store.ReplaceFutureCoveringItem(m, i, children);
      LetGo(t, cover, now, x, holders, j, i, store.cover);
    }
    AllLetGo(t, cover, store.cover, x, holders);
  }

  lemma {:induction false} IndexedIff(store: ReachabilityStore, past: Pasts, root: Hash)
    requires IndexOk(store.tree, store.labels, store.cover, past, root)
    ensures Indexes(store, past, root) <==> PivotOk(store.tree, root, store.reindexRoot)
  {
  }

  /** Takes `x`, the child of `p` at place `k`, out of the tree, the covering sets and the labels. */
  method Detach(store: ReachabilityStore, x: Hash, p: Hash, k: nat, interval: Interval, children: seq<Hash>,
                holders: seq<Hash>, ghost past: Pasts, ghost root: Hash)
    requires IndexOk(store.tree, store.labels, store.cover, past, root) && Slot(store.tree, x, p, k) && x != root
    requires x in store.labels && interval == store.labels[x] && children == store.tree[x].children
    requires Holders(store.tree, store.cover, x, holders)
    modifies store`tree, store`labels, store`cover
    ensures Slot(old(store.tree), x, p, k) && store.tree == Without(old(store.tree), x, p, k)
    ensures IndexOk(store.tree, store.labels, store.cover, PastLess(past, x), root)
  {
    ghost var t, iv, cover := store.tree, store.labels, store.cover;
    IndexParts(t, iv, cover, past, root);
    SlotLabels(t, iv, root, x, p, k);
    SlotBlocks(t, x, p, k);
    EmptiedAt(t, root, x, p, k);
    WithoutIs(t, x, p, k);
    hide IndexOk, TreeOk, WellFormed, Without, Inherited, Holders, PastLess, Emptied, LessAt, RowInside, Slot;
    Adopt(store, x, p, k, root);
    LetGoEverywhere(store, x, holders, children, t, past, root);
    HandOn(store, interval, children, p, k, t, x);
    IndexLess(t, iv, cover, past, root, x, p, k, store.cover);
    store.Delete(x);
  }

  lemma {:induction false} SlotBlocks(t: Shape, x: Hash, p: Hash, k: nat)
    requires Slot(t, x, p, k)
    ensures x in t && p in t && k < |t[p].children| && t[p].children[k] == x
  {
  }

  /** Deletes a block that is not the reindex root. All answers between the other blocks stay.
      The reindex root keeps its guarantee unless the block was a leaf and its only child. */
  method DeleteBlock(store: ReachabilityStore, x: Hash, holders: seq<Hash>, ghost past: Pasts, ghost root: Hash)
      returns (r: Status)
    requires Indexes(store, past, root) && x != store.reindexRoot
    requires x in store.tree ==> Holders(store.tree, store.cover, x, holders)
    modifies store
    ensures r == if x in old(store.tree) && x != root then Ok else KeyNotFound
    ensures r != Ok ==> unchanged(store)
    ensures r == Ok ==> store.tree.Keys == old(store.tree.Keys) - {x} && store.reindexRoot == old(store.reindexRoot)
    ensures r == Ok ==> IndexOk(store.tree, store.labels, store.cover, PastLess(past, x), root)
    ensures r == Ok ==> (Indexes(store, PastLess(past, x), root) <==>
      store.reindexRoot == root || old(store.tree)[x].children != [] ||
        old(store.tree)[store.reindexRoot].children != [x])
  {
    ghost var t, iv, cover := store.tree, store.labels, store.cover;
    IndexedTree(store, past, root);
    IndexedIff(store, past, root);
    IndexParts(t, iv, cover, past, root);
    hide IndexOk, TreeOk, WellFormed, Indexes, TreeValid, PivotOk, Ordered, SearchResult, Without, Holders, PastLess,
      Slot;
    if x !in store.tree {
      return KeyNotFound;
    }
    ParentKnown(t, root, x);
    if store.tree[x].parent !in store.tree {
      return KeyNotFound;
    }
    ghost var p', k := SlotOf(t, iv, root, x);
    SlotLabels(t, iv, root, x, p', k);
    var interval, p, children := store.labels[x], store.tree[x].parent, store.tree[x].children;
    var found, index := BinarySearchDescendant(store, store.tree[p].children, x);
    FindsItself(t, iv, root, t[p].children, x, k, found, index);
    Detach(store, x, p, index, interval, children, holders, past, root);
    PivotAfter(t, root, x, p, k, store.reindexRoot);
    IndexedIff(store, PastLess(past, x), root);
    return Ok;
  }
}
