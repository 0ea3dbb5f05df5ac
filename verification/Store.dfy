/** The in-memory reachability store, and the queries that only read it. */
module Store {
  import opened Types
  import opened Intervals
  import opened Tree
  import opened Labels

  type Cover = map<Hash, seq<Hash>>

  /** Tree data, labels and future covering sets, one map each. */
  class ReachabilityStore {
    var tree: Shape
    var labels: Labels
    var cover: Cover
    var reindexRoot: Hash

    constructor ()
      ensures tree == map[] && labels == map[] && cover == map[]
    {
      tree, labels, cover, reindexRoot := map[], map[], map[], NONE;
    }

    method Insert(hash: Hash, parent: Hash, interval: Interval, height: nat) returns (r: Status)
      modifies this`tree, this`labels, this`cover
      ensures r == if hash in old(tree) then AlreadyExists else Ok
      ensures r == Ok ==> tree == old(tree)[hash := TreeNode(parent, [], height)]
      ensures r == Ok ==> labels == old(labels)[hash := interval] && cover == old(cover)[hash := []]
      ensures r != Ok ==> unchanged(this)
    {
      if hash in tree {
        return AlreadyExists;
      }
      tree := tree[hash := TreeNode(parent, [], height)];
      labels := labels[hash := interval];
      cover := cover[hash := []];
      return Ok;
    }

    method SetInterval(hash: Hash, interval: Interval)
      requires hash in labels
      modifies this`labels
      ensures labels == old(labels)[hash := interval]
    {
      labels := labels[hash := interval];
    }

    method AppendChild(hash: Hash, child: Hash)
      requires hash in tree
      modifies this`tree
      ensures tree == old(tree)[hash := old(tree)[hash].(children := old(tree)[hash].children + [child])]
    {
      tree := tree[hash := tree[hash].(children := tree[hash].children + [child])];
    }

    method SetParent(hash: Hash, newParent: Hash)
      requires hash in tree
      modifies this`tree
      ensures tree == old(tree)[hash := old(tree)[hash].(parent := newParent)]
    {
      tree := tree[hash := tree[hash].(parent := newParent)];
    }

    method ReplaceChild(hash: Hash, index: nat, with: seq<Hash>)
      requires hash in tree && index < |tree[hash].children|
      modifies this`tree
      ensures tree == old(tree)[hash := old(tree)[hash].(children := Spliced(old(tree)[hash].children, index, with))]
    {
      tree := tree[hash := tree[hash].(children := Spliced(tree[hash].children, index, with))];
    }

    method InsertFutureCoveringItem(hash: Hash, item: Hash, index: nat)
      requires hash in cover && index <= |cover[hash]|
      modifies this`cover
      ensures cover == old(cover)[hash := old(cover)[hash][..index] + [item] + old(cover)[hash][index..]]
    {
      cover := cover[hash := cover[hash][..index] + [item] + cover[hash][index..]];
    }

    method ReplaceFutureCoveringItem(hash: Hash, index: nat, with: seq<Hash>)
      requires hash in cover && index < |cover[hash]|
      modifies this`cover
      ensures cover == old(cover)[hash := Spliced(old(cover)[hash], index, with)]
    {
      cover := cover[hash := Spliced(cover[hash], index, with)];
    }

    method Delete(hash: Hash)
      modifies this`tree, this`labels, this`cover
      ensures tree == old(tree) - {hash} && labels == old(labels) - {hash} && cover == old(cover) - {hash}
    {
      tree, labels, cover := tree - {hash}, labels - {hash}, cover - {hash};
    }

    method SetReindexRoot(root: Hash)
      modifies this`reindexRoot
      ensures reindexRoot == root
    {
      reindexRoot := root;
    }
  }

  /** `s` with the element at `index` replaced by the list `with`. */
  function Spliced<T>(s: seq<T>, index: nat, with: seq<T>): seq<T>
    requires index < |s|
  {
    s[..index] + with + s[index + 1..]
  }

  // ---------- searching an ordered list of blocks ----------

  /** Intervals in left-to-right order without overlap. */
  ghost predicate Ordered(iv: Labels, items: seq<Hash>) {
    && (forall i :: 0 <= i < |items| ==> items[i] in iv)
    && (forall i, j :: 0 <= i < j < |items| ==> iv[items[i]].end < iv[items[j]].start)
    && (forall i, j :: 0 <= i < j < |items| ==> iv[items[i]].start < iv[items[j]].start)
  }

  /** What the search for `d` among `items` answers: the item that starts where `d` ends, else
      the last item starting earlier if it contains `d`, else the place where `d` belongs. */
  ghost predicate SearchResult(iv: Labels, items: seq<Hash>, d: Hash, found: bool, i: nat)
    requires d in iv && forall j :: 0 <= j < |items| ==> items[j] in iv
  {
    var point := iv[d].end;
    if found then
      && i < |items|
      && (iv[items[i]].start == point || (iv[items[i]].start < point && iv[items[i]].Contains(iv[d])))
    else
      && i <= |items|
      && (forall j :: 0 <= j < i ==> iv[items[j]].start < point)
      && (forall j :: i <= j < |items| ==> point < iv[items[j]].start)
      && (i > 0 ==> !iv[items[i - 1]].Contains(iv[d]))
  }

  method BinarySearchDescendant(store: ReachabilityStore, items: seq<Hash>, d: Hash) returns (found: bool, i: nat)
    requires d in store.labels && Ordered(store.labels, items)
    ensures SearchResult(store.labels, items, d, found, i)
  {
    var point := store.labels[d].end;
    var lo, hi := 0, |items|;
    while lo < hi
      invariant 0 <= lo <= hi <= |items|
      invariant forall j :: 0 <= j < lo ==> store.labels[items[j]].start < point
      invariant forall j :: hi <= j < |items| ==> point < store.labels[items[j]].start
    {
      var mid := (lo + hi) / 2;
      var start := store.labels[items[mid]].start;
      if start == point {
        return true, mid;
      } else if start < point {
        lo := mid + 1;
      } else {
        hi := mid;
      }
    }
    if lo > 0 && IsChainAncestorOf(store, items[lo - 1], d) {
      return true, lo - 1;
    }
    return false, lo;
  }

  /** The item that contains `d` is the one that is found. */
  lemma {:induction false} SearchHit(iv: Labels, items: seq<Hash>, d: Hash, k: nat, found: bool, i: nat)
    requires d in iv && Ordered(iv, items) && SearchResult(iv, items, d, found, i)
    requires k < |items| && iv[items[k]].Contains(iv[d]) && iv[d].start <= iv[d].end
    ensures found && i == k
  {
  }

  /** In a well-labelled tree the search answers exactly whether some item is an ancestor of `d`;
      a start label equal to `d`'s last label is never a coincidence. */
  lemma {:induction false} SearchIsAncestry(t: Shape, iv: Labels, root: Hash, items: seq<Hash>, d: Hash, found: bool,
                                            i: nat)
    requires TreeOk(t, iv, root) && d in t && Ordered(iv, items) && SearchResult(iv, items, d, found, i)
    ensures found ==> i < |items| && Anc(t, items[i], d)
    ensures !found ==> forall k :: 0 <= k < |items| ==> !Anc(t, items[k], d)
  {
    TreeContains(t, iv, root, d, d);
    if found {
      TreeContains(t, iv, root, items[i], d);
      TreeContains(t, iv, root, d, items[i]);
      if !Anc(t, items[i], d) && !Anc(t, d, items[i]) {
        TreeApart(t, iv, root, items[i], d);
      }
    } else {
      forall k | 0 <= k < |items|
        ensures !Anc(t, items[k], d)
      {
        TreeContains(t, iv, root, items[k], d);
        if Anc(t, items[k], d) {
          SearchHit(iv, items, d, k, found, i);
        }
      }
    }
  }

  // ---------- ancestor queries on the tree ----------

  predicate IsChainAncestorOf(store: ReachabilityStore, a: Hash, b: Hash)
    requires a in store.labels && b in store.labels
    reads store
  {
    store.labels[a].Contains(store.labels[b])
  }

  predicate IsStrictChainAncestorOf(store: ReachabilityStore, a: Hash, b: Hash)
    requires a in store.labels && b in store.labels
    reads store
  {
    store.labels[a].StrictlyContains(store.labels[b])
  }

  lemma {:induction false} RowOrdered(iv: Labels, cs: seq<Hash>)
    requires Row(iv, cs)
    ensures Ordered(iv, cs)
  {
    forall i, j | 0 <= i < j < |cs|
      ensures iv[cs[i]].end < iv[cs[j]].start && iv[cs[i]].start < iv[cs[j]].start
    {
      RowSorted(iv, cs, i, j);
      assert Labelled(iv, cs[i]);
    }
    assert forall i :: 0 <= i < |cs| ==> Labelled(iv, cs[i]);
  }

  /** The child of `ancestor` through which its labels reach `descendant`; callers guarantee that
      the children of `ancestor` are in order, not that `ancestor`'s own interval is current. */
  method NextChainAncestorUnchecked(store: ReachabilityStore, descendant: Hash, ancestor: Hash)
      returns (r: Status, child: Hash, i: nat)
    requires ancestor in store.tree && descendant in store.labels
    requires Ordered(store.labels, store.tree[ancestor].children)
    ensures r == Ok || r == BadQuery
    ensures SearchResult(store.labels, store.tree[ancestor].children, descendant, r == Ok, i)
    ensures r == Ok ==> child == store.tree[ancestor].children[i]
  {
    var found;
    var cs := store.tree[ancestor].children;
    found, i := BinarySearchDescendant(store, cs, descendant);
    if found {
      return Ok, cs[i], i;
    }
    return BadQuery, NONE, i;
  }

  // ---------- free labels around the children ----------

  /** Labels a block may hand to its children: all but its last. */
  function ChildrenCapacity(store: ReachabilityStore, block: Hash): Interval
    requires block in store.labels
    reads store
  {
    Interval(store.labels[block].start, store.labels[block].end - 1)
  }

  function RemainingBefore(store: ReachabilityStore, block: Hash): Interval
    requires block in store.labels && block in store.tree
    requires forall c :: c in store.tree[block].children ==> c in store.labels
    reads store
  {
    var capacity := ChildrenCapacity(store, block);
    var cs := store.tree[block].children;
    if |cs| == 0 then capacity else Interval(capacity.start, store.labels[cs[0]].start - 1)
  }

  function RemainingAfter(store: ReachabilityStore, block: Hash): Interval
    requires block in store.labels && block in store.tree
    requires forall c :: c in store.tree[block].children ==> c in store.labels
    reads store
  {
    var capacity := ChildrenCapacity(store, block);
    var cs := store.tree[block].children;
    if |cs| == 0 then capacity else Interval(store.labels[cs[|cs| - 1]].end + 1, capacity.end)
  }
}
