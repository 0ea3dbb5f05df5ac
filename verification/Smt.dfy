/** The sparse Merkle tree over account keys: built from scratch, kept in a store of nodes, and proofs
    against its root. The two hash functions are parameters. */
module Smt {
  import opened KeyBits
  import Types

  type Digest = nat

  type Hash2 = (Digest, Digest) -> Digest

  /** The leaf of an absent key. */
  const EMPTY_LEAF: Digest := 0

  /** The leaf hashes of the keys that are present. */
  type Leaves = map<Key, Digest>

  function LeafAt(m: Leaves, key: Key): Digest {
    if key in m then m[key] else EMPTY_LEAF
  }

  function WithBit(key: Key, depth: nat, bit: Byte): Key
    requires depth < HEIGHT
  {
    if Bit(key, depth) == bit then key else FlipBit(key, depth)
  }

  /** The hash of the node at `depth` on the path of `key`, in the full tree of all keys. */
  ghost function Node(h: Hash2, m: Leaves, key: Key, depth: nat): Digest
    requires depth <= HEIGHT
    decreases HEIGHT - depth
  {
    if depth == HEIGHT then LeafAt(m, key) else
      h(Node(h, m, WithBit(key, depth, 0), depth + 1), Node(h, m, WithBit(key, depth, 1), depth + 1))
  }

  /** The hash of a node with nothing below it. */
  function Default(h: Hash2, depth: nat): Digest
    requires depth <= HEIGHT
    decreases HEIGHT - depth
  {
    if depth == HEIGHT then EMPTY_LEAF else h(Default(h, depth + 1), Default(h, depth + 1))
  }

  method Defaults(h: Hash2) returns (d: seq<Digest>)
    ensures |d| == HEIGHT + 1 && forall i :: 0 <= i <= HEIGHT ==> d[i] == Default(h, i)
  {
    d := [EMPTY_LEAF];
    var i := HEIGHT;
    while i > 0
      invariant 0 <= i <= HEIGHT && |d| == HEIGHT + 1 - i
      invariant forall j :: i <= j <= HEIGHT ==> d[j - i] == Default(h, j)
    {
      d := [h(d[0], d[0])] + d;
      i := i - 1;
    }
  }

  // ---------- prefixes ----------

  lemma {:induction false} WithBitPrefix(key: Key, depth: nat, bit: Byte)
    requires depth < HEIGHT && (bit == 0 || bit == 1)
    ensures SamePrefix(WithBit(key, depth, bit), key, depth) && Bit(WithBit(key, depth, bit), depth) == bit
  {
    hide BitOf;
    ZeroOrOne(key, depth);
    forall i | 0 <= i <= depth
      ensures i < depth ==> Bit(WithBit(key, depth, bit), i) == Bit(key, i)
      ensures i == depth ==> Bit(WithBit(key, depth, bit), i) == bit
    {
      FlipBits(key, depth, i);
    }
  }

  lemma {:induction false} LongerPrefix(a: Key, b: Key, depth: nat)
    requires depth < HEIGHT
    ensures SamePrefix(a, b, depth + 1) <==> SamePrefix(a, b, depth) && Bit(a, depth) == Bit(b, depth)
  {
    hide BitOf, Bit;
  }

  lemma {:induction false} PrefixTrans(a: Key, b: Key, c: Key, depth: nat)
    requires depth <= HEIGHT && SamePrefix(a, b, depth) && SamePrefix(b, c, depth)
    ensures SamePrefix(a, c, depth) && SamePrefix(c, a, depth)
  {
    hide Bit;
    forall i | 0 <= i < depth
      ensures Bit(a, i) == Bit(c, i)
    {
      assert Bit(b, i) == Bit(c, i);
    }
  }

  ghost predicate SameLeaf(m: Leaves, m': Leaves, k: Key) {
    LeafAt(m, k) == LeafAt(m', k)
  }

  /** A node depends only on the prefix and on the leaves below it. */
  lemma {:induction false} NodeLocal(h: Hash2, m: Leaves, m': Leaves, a: Key, b: Key, depth: nat)
    requires depth <= HEIGHT && SamePrefix(a, b, depth)
    requires forall k: Key {:trigger SameLeaf(m, m', k)} :: SamePrefix(k, a, depth) ==> SameLeaf(m, m', k)
    ensures Node(h, m, a, depth) == Node(h, m', b, depth)
    decreases HEIGHT - depth
  {
    if depth == HEIGHT {
      SameKey(a, b);
      assert SameLeaf(m, m', a);
    } else {
      NodeLocalSide(h, m, m', a, b, depth, 0);
      NodeLocalSide(h, m, m', a, b, depth, 1);
    }
  }

  lemma {:induction false} NodeLocalSide(h: Hash2, m: Leaves, m': Leaves, a: Key, b: Key, depth: nat, bit: Byte)
    requires depth < HEIGHT && SamePrefix(a, b, depth) && (bit == 0 || bit == 1)
    requires forall k: Key {:trigger SameLeaf(m, m', k)} :: SamePrefix(k, a, depth) ==> SameLeaf(m, m', k)
    ensures Node(h, m, WithBit(a, depth, bit), depth + 1) == Node(h, m', WithBit(b, depth, bit), depth + 1)
    decreases HEIGHT - depth, 0
  {
    hide BitOf, Bit, WithBit, Node, SamePrefix;
    var a', b' := WithBit(a, depth, bit), WithBit(b, depth, bit);
    WithBitPrefix(a, depth, bit);
    WithBitPrefix(b, depth, bit);
    PrefixBack(b', b, depth);
    PrefixTrans(a', a, b, depth);
    PrefixTrans(a', b, b', depth);
    LongerPrefix(a', b', depth);
    forall k: Key | SamePrefix(k, a', depth + 1)
      ensures SameLeaf(m, m', k)
    {
      LongerPrefix(k, a', depth);
      PrefixTrans(k, a', a, depth);
    }
    NodeLocal(h, m, m', a', b', depth + 1);
  }

  lemma {:induction false} PrefixBack(a: Key, b: Key, depth: nat)
    requires depth <= HEIGHT && SamePrefix(a, b, depth)
    ensures SamePrefix(b, a, depth)
  {
    hide Bit;
    forall i | 0 <= i < depth
      ensures Bit(b, i) == Bit(a, i)
    {
    }
  }

  /** Without leaves below it, a node has the default hash. */
  lemma {:induction false} NodeEmpty(h: Hash2, m: Leaves, key: Key, depth: nat)
    requires depth <= HEIGHT && forall k: Key {:trigger SameLeaf(m, map[], k)} :: SamePrefix(k, key, depth) ==>
      SameLeaf(m, map[], k)
    ensures Node(h, m, key, depth) == Default(h, depth)
  {
    PrefixSelf(key, depth);
    NodeLocal(h, m, map[], key, key, depth);
    NothingBelow(h, key, depth);
  }

  lemma {:induction false} PrefixSelf(key: Key, depth: nat)
    requires depth <= HEIGHT
    ensures SamePrefix(key, key, depth)
  {
  }

  lemma {:induction false} NothingBelow(h: Hash2, key: Key, depth: nat)
    requires depth <= HEIGHT
    ensures Node(h, map[], key, depth) == Default(h, depth)
    decreases HEIGHT - depth
  {
    hide Bit, BitOf, WithBit;
    if depth < HEIGHT {
      NothingBelow(h, WithBit(key, depth, 0), depth + 1);
      NothingBelow(h, WithBit(key, depth, 1), depth + 1);
    }
  }

  /** A node from the hash on the path and the one beside it. */
  lemma {:induction false} NodeSplit(h: Hash2, m: Leaves, key: Key, depth: nat)
    requires depth < HEIGHT
    ensures var on, beside := Node(h, m, key, depth + 1), Node(h, m, FlipBit(key, depth), depth + 1);
      Node(h, m, key, depth) == if Bit(key, depth) == 0 then h(on, beside) else h(beside, on)
  {
    ZeroOrOne(key, depth);
    hide BitOf, FlipBit;
  }

  // ---------- the tree from scratch ----------

  datatype Leaf = Leaf(key: Key, hash: Digest)

  ghost predicate Ascending(leaves: seq<Leaf>) {
    forall i, j :: 0 <= i < j < |leaves| ==> Precedes(leaves[i].key, leaves[j].key)
  }

  /** How many leaves at the front have bit 0. */
  function PartitionPoint(leaves: seq<Leaf>, depth: nat): (n: nat)
    requires depth < HEIGHT
    ensures n <= |leaves|
  {
    if |leaves| == 0 || Bit(leaves[0].key, depth) != 0 then 0 else 1 + PartitionPoint(leaves[1..], depth)
  }

  function SubtreeRoot(h: Hash2, leaves: seq<Leaf>, depth: nat): Digest
    requires depth <= HEIGHT
    decreases HEIGHT - depth
  {
    if |leaves| == 0 then Default(h, depth)
    else if depth == HEIGHT then leaves[0].hash
    else
      var n := PartitionPoint(leaves, depth);
      h(SubtreeRoot(h, leaves[..n], depth + 1), SubtreeRoot(h, leaves[n..], depth + 1))
  }

  function CollectSiblings(h: Hash2, leaves: seq<Leaf>, key: Key, depth: nat): seq<Digest>
    requires depth <= HEIGHT
    decreases HEIGHT - depth
  {
    if depth == HEIGHT then [] else
      var n := PartitionPoint(leaves, depth);
      if Bit(key, depth) == 0 then
        [SubtreeRoot(h, leaves[n..], depth + 1)] + CollectSiblings(h, leaves[..n], key, depth + 1)
      else [SubtreeRoot(h, leaves[..n], depth + 1)] + CollectSiblings(h, leaves[n..], key, depth + 1)
  }

  ghost predicate Listing(leaves: seq<Leaf>, m: Leaves, key: Key, depth: nat, i: nat)
    requires depth <= HEIGHT && i < |leaves|
  {
    var l := leaves[i];
    l.key in m && m[l.key] == l.hash && SamePrefix(l.key, key, depth)
  }

  ghost predicate HasKey(leaves: seq<Leaf>, k: Key) {
    exists i :: 0 <= i < |leaves| && leaves[i].key == k
  }

  /** The leaves are those of `m` whose keys begin like `key`. */
  ghost predicate Lists(leaves: seq<Leaf>, m: Leaves, key: Key, depth: nat)
    requires depth <= HEIGHT
  {
    && (forall i: nat {:trigger Listing(leaves, m, key, depth, i)} :: i < |leaves| ==>
          Listing(leaves, m, key, depth, i))
    && (forall k: Key {:trigger HasKey(leaves, k)} :: k in m && SamePrefix(k, key, depth) ==> HasKey(leaves, k))
  }

  /** In byte order, leaves with bit 0 come before leaves with bit 1. */
  lemma {:induction false} Partitioned(leaves: seq<Leaf>, m: Leaves, key: Key, depth: nat, i: nat)
    requires depth < HEIGHT && Ascending(leaves) && Lists(leaves, m, key, depth) && i < |leaves|
    ensures Bit(leaves[i].key, depth) == if i < PartitionPoint(leaves, depth) then 0 else 1
  {
    hide BitOf, Bit;
    var n := PartitionPoint(leaves, depth);
    PartitionEdge(leaves, depth);
    ZeroOrOne(leaves[i].key, depth);
    if n < i {
      assert Listing(leaves, m, key, depth, n) && Listing(leaves, m, key, depth, i);
      PrefixBack(leaves[i].key, key, depth);
      PrefixTrans(leaves[n].key, key, leaves[i].key, depth);
      OrderOfBits(leaves[n].key, leaves[i].key, depth);
      ZeroOrOne(leaves[n].key, depth);
    }
  }

  lemma {:induction false} PartitionEdge(leaves: seq<Leaf>, depth: nat)
    requires depth < HEIGHT
    ensures var n := PartitionPoint(leaves, depth);
      (forall i :: 0 <= i < n ==> Bit(leaves[i].key, depth) == 0) && (n < |leaves| ==> Bit(leaves[n].key, depth) != 0)
  {
    hide BitOf, Bit;
    if |leaves| > 0 && Bit(leaves[0].key, depth) == 0 {
      PartitionEdge(leaves[1..], depth);
      var n := PartitionPoint(leaves, depth);
      forall i | 0 <= i < n
        ensures Bit(leaves[i].key, depth) == 0
      {
        assert i > 0 ==> leaves[i] == leaves[1..][i - 1];
      }
    }
  }

  /** Each half of the slice lists the leaves on its side. */
  lemma {:induction false} HalfLists(leaves: seq<Leaf>, m: Leaves, key: Key, depth: nat, bit: Byte)
    requires depth < HEIGHT && Ascending(leaves) && Lists(leaves, m, key, depth) && (bit == 0 || bit == 1)
    ensures var n := PartitionPoint(leaves, depth); var half := if bit == 0 then leaves[..n] else leaves[n..];
      Ascending(half) && Lists(half, m, WithBit(key, depth, bit), depth + 1)
  {
    hide BitOf, Bit, WithBit, SamePrefix, Precedes, PartitionPoint;
    var n := PartitionPoint(leaves, depth);
    var half := if bit == 0 then leaves[..n] else leaves[n..];
    var at, below := if bit == 0 then 0 else n, depth + 1;
    var side := WithBit(key, depth, bit);
    WithBitPrefix(key, depth, bit);
    PrefixBack(side, key, depth);
    forall i: nat | i < |half|
      ensures Listing(half, m, side, below, i)
    {
      assert half[i] == leaves[at + i];
      assert Listing(leaves, m, key, depth, at + i);
      Partitioned(leaves, m, key, depth, at + i);
      PrefixTrans(half[i].key, key, side, depth);
      LongerPrefix(half[i].key, side, depth);
    }
    forall k: Key | k in m && SamePrefix(k, side, depth + 1)
      ensures HasKey(half, k)
    {
      LongerPrefix(k, side, depth);
      PrefixTrans(k, side, key, depth);
      assert HasKey(leaves, k);
      var i :| 0 <= i < |leaves| && leaves[i].key == k;
      Partitioned(leaves, m, key, depth, i);
      assert half[i - at].key == k;
    }
  }

  /** The slice-by-slice computation gives the hash of the full tree. */
  lemma {:induction false} SubtreeRootIsNode(h: Hash2, leaves: seq<Leaf>, m: Leaves, key: Key, depth: nat)
    requires depth <= HEIGHT && Ascending(leaves) && Lists(leaves, m, key, depth)
    ensures SubtreeRoot(h, leaves, depth) == Node(h, m, key, depth)
    decreases HEIGHT - depth
  {
    hide BitOf, Bit, WithBit, Precedes, PartitionPoint, Ascending;
    if |leaves| == 0 {
      forall k: Key | SamePrefix(k, key, depth)
        ensures SameLeaf(m, map[], k)
      {
        assert k in m ==> HasKey(leaves, k);
      }
      NodeEmpty(h, m, key, depth);
    } else if depth == HEIGHT {
      assert Listing(leaves, m, key, depth, 0);
      SameKey(leaves[0].key, key);
    } else {
      HalfLists(leaves, m, key, depth, 0);
      HalfLists(leaves, m, key, depth, 1);
      var n := PartitionPoint(leaves, depth);
      SubtreeRootIsNode(h, leaves[..n], m, WithBit(key, depth, 0), depth + 1);
      SubtreeRootIsNode(h, leaves[n..], m, WithBit(key, depth, 1), depth + 1);
    }
  }

  // ---------- entries in any order ----------

  /** The leaf of every key in a list of entries; of entries with the same key the first counts. */
  ghost function FirstOf(leafHash: (Key, Digest) -> Digest, entries: seq<(Key, Digest)>): Leaves {
    if |entries| == 0 then map[] else
      var before, e := FirstOf(leafHash, entries[..|entries| - 1]), entries[|entries| - 1];
      if e.0 in before then before else before[e.0 := leafHash(e.0, e.1)]
  }

  /** The same with the last of equal keys counting, as the original documents it. */
  ghost function LastOf(leafHash: (Key, Digest) -> Digest, entries: seq<(Key, Digest)>): Leaves {
    if |entries| == 0 then map[] else
      var e := entries[|entries| - 1];
      LastOf(leafHash, entries[..|entries| - 1])[e.0 := leafHash(e.0, e.1)]
  }

  /** The first and the last entry of one key. */
  ghost predicate Ends(entries: seq<(Key, Digest)>, i: int, j: int) {
    && 0 <= i <= j < |entries| && entries[i].0 == entries[j].0
    && (forall l :: 0 <= l < i ==> entries[l].0 != entries[i].0)
    && forall l :: j < l < |entries| ==> entries[l].0 != entries[i].0
  }

  lemma {:induction false} EndsOf(leafHash: (Key, Digest) -> Digest, entries: seq<(Key, Digest)>, k: Key)
      returns (i: nat, j: nat)
    ensures k in FirstOf(leafHash, entries) <==> k in LastOf(leafHash, entries)
    ensures k in FirstOf(leafHash, entries) ==>
      && Ends(entries, i, j) && entries[i].0 == k
      && FirstOf(leafHash, entries)[k] == leafHash(k, entries[i].1) &&
        LastOf(leafHash, entries)[k] == leafHash(k, entries[j].1)
  {
    i, j := 0, 0;
    if |entries| > 0 {
      var n := |entries| - 1;
      i, j := EndsOf(leafHash, entries[..n], k);
      if entries[n].0 == k {
        if k !in FirstOf(leafHash, entries[..n]) {
          AbsentKey(leafHash, entries[..n], k);
          i := n;
        }
        j := n;
      }
    }
  }

  lemma {:induction false} AbsentKey(leafHash: (Key, Digest) -> Digest, entries: seq<(Key, Digest)>, k: Key)
    requires k !in FirstOf(leafHash, entries)
    ensures forall l :: 0 <= l < |entries| ==> entries[l].0 != k
  {
    if |entries| > 0 {
      AbsentKey(leafHash, entries[..|entries| - 1], k);
    }
  }

  /** The documented rule and the code agree exactly if every key has the same leaf in its first and
      its last entry. */
  lemma {:induction false} DuplicatesMatter(leafHash: (Key, Digest) -> Digest, entries: seq<(Key, Digest)>)
    ensures FirstOf(leafHash, entries) == LastOf(leafHash, entries) <==>
      forall i, j :: Ends(entries, i, j)
        ==> leafHash(entries[i].0, entries[i].1) == leafHash(entries[j].0, entries[j].1)
  {
    var first, last := FirstOf(leafHash, entries), LastOf(leafHash, entries);
    forall i, j | Ends(entries, i, j)
      ensures entries[i].0 in first && entries[i].0 in last
      ensures first[entries[i].0] == leafHash(entries[i].0, entries[i].1) &&
        last[entries[j].0] == leafHash(entries[j].0, entries[j].1)
    {
      var k := entries[i].0;
      if k !in first {
        AbsentKey(leafHash, entries, k);
      }
      var i', j' := EndsOf(leafHash, entries, k);
      assert i' == i && j' == j;
    }
    if forall i, j :: Ends(entries, i, j)
        ==> leafHash(entries[i].0, entries[i].1) == leafHash(entries[j].0, entries[j].1) {
      forall k: Key
        ensures k in first <==> k in last
        ensures k in first ==> first[k] == last[k]
      {
        var i, j := EndsOf(leafHash, entries, k);
      }
      assert first.Keys == last.Keys;
    }
  }

  /** Two values for one key: the first is kept. */
  lemma {:induction false} FirstIsKept(leafHash: (Key, Digest) -> Digest, key: Key, v: Digest, w: Digest)
    requires leafHash(key, v) != leafHash(key, w)
    ensures var entries := [(key, v), (key, w)];
      FirstOf(leafHash, entries) == map[key := leafHash(key, v)] &&
        LastOf(leafHash, entries) == map[key := leafHash(key, w)]
      && FirstOf(leafHash, entries) != LastOf(leafHash, entries)
  {
    var entries := [(key, v), (key, w)];
    var front := entries[..1];
    assert front == [(key, v)];
    assert |front[..0]| == 0;
    var first, last := map[key := leafHash(key, v)], map[key := leafHash(key, w)];
    assert FirstOf(leafHash, front) == LastOf(leafHash, front) == first;
    assert first[key] != last[key];
  }

  method Compare(a: Key, b: Key) returns (less: bool)
    ensures less <==> Precedes(a, b)
  {
    for i := 0 to 32
      invariant forall j {:trigger a[j]} {:trigger b[j]} :: 0 <= j < i ==> a[j] == b[j]
    {
      if a[i] != b[i] {
        assert a[i] < b[i] ==> SmallerAt(a, b, i);
        assert b[i] < a[i] ==> SmallerAt(b, a, i);
        OneFirst(b, a);
        return a[i] < b[i];
      }
    }
    assert a == b;
    OneFirst(a, b);
    return false;
  }

  /** The leaves are those of `m`, all of them. */
  ghost predicate Holds(leaves: seq<Leaf>, m: Leaves) {
    && (forall i {:trigger leaves[i]} :: 0 <= i < |leaves| ==> leaves[i].key in m && m[leaves[i].key] == leaves[i].hash)
    && (forall k: Key {:trigger HasKey(leaves, k)} :: k in m ==> HasKey(leaves, k))
  }

  lemma {:induction false} AllListed(leaves: seq<Leaf>, m: Leaves, key: Key)
    requires Holds(leaves, m)
    ensures Lists(leaves, m, key, 0)
  {
    forall i: nat | i < |leaves|
      ensures Listing(leaves, m, key, 0, i)
    {
      assert leaves[i].key in m;
    }
  }

  /** The leaves of the entries in the order of their keys, the first of equal keys counting. */
  ghost predicate BuiltFrom(leafHash: (Key, Digest) -> Digest, entries: seq<(Key, Digest)>, leaves: seq<Leaf>) {
    Ascending(leaves) && Holds(leaves, FirstOf(leafHash, entries))
  }

  /** Sorts the entries and drops later ones with the key of an earlier one. */
  method FromEntries(leafHash: (Key, Digest) -> Digest, entries: seq<(Key, Digest)>) returns (leaves: seq<Leaf>)
    ensures BuiltFrom(leafHash, entries, leaves)
  {
    leaves := [];
    for i := 0 to |entries|
      invariant Ascending(leaves) && Holds(leaves, FirstOf(leafHash, entries[..i]))
    {
      assert entries[..i + 1][..i] == entries[..i];
      var key, leaf := entries[i].0, Leaf(entries[i].0, leafHash(entries[i].0, entries[i].1));
      leaves := Insert(leaves, leaf, FirstOf(leafHash, entries[..i]));
    }
    assert entries[..|entries|] == entries;
  }

  method Insert(leaves: seq<Leaf>, leaf: Leaf, ghost m: Leaves) returns (r: seq<Leaf>)
    requires Ascending(leaves) && Holds(leaves, m)
    ensures Ascending(r) && Holds(r, if leaf.key in m then m else m[leaf.key := leaf.hash])
  {
    var n := 0;
    hide Precedes;
    while n < |leaves|
      invariant 0 <= n <= |leaves| && forall j :: 0 <= j < n ==> Precedes(leaves[j].key, leaf.key)
    {
      var before := Compare(leaves[n].key, leaf.key);
      if !before {
        break;
      }
      n := n + 1;
    }
    if n < |leaves| && leaves[n].key == leaf.key {
      return leaves;
    }
    if n < |leaves| {
      OneFirst(leaves[n].key, leaf.key);
      AllAfter(leaves, leaf, n);
    }
    InsertedLeaf(leaves, leaf, n, m);
    return leaves[..n] + [leaf] + leaves[n..];
  }

  lemma {:induction false} AllAfter(leaves: seq<Leaf>, leaf: Leaf, n: nat)
    requires Ascending(leaves) && n < |leaves| && Precedes(leaf.key, leaves[n].key)
    ensures forall j :: n <= j < |leaves| ==> Precedes(leaf.key, leaves[j].key)
  {
    hide Precedes;
    forall j | n <= j < |leaves|
      ensures Precedes(leaf.key, leaves[j].key)
    {
      if j > n {
        PrecedesTrans(leaf.key, leaves[n].key, leaves[j].key);
      }
    }
  }

  lemma {:induction false} InsertedLeaf(leaves: seq<Leaf>, leaf: Leaf, n: nat, m: Leaves)
    requires Ascending(leaves) && Holds(leaves, m) && n <= |leaves|
    requires (forall j :: 0 <= j < n ==> Precedes(leaves[j].key, leaf.key)) &&
      (forall j :: n <= j < |leaves| ==> Precedes(leaf.key, leaves[j].key))
    ensures leaf.key !in m && Ascending(leaves[..n] + [leaf] + leaves[n..]) &&
      Holds(leaves[..n] + [leaf] + leaves[n..], m[leaf.key := leaf.hash])
  {
    hide Precedes;
    var r := leaves[..n] + [leaf] + leaves[n..];
    forall i, j | 0 <= i < j < |r|
      ensures Precedes(r[i].key, r[j].key)
    {
      assert i != n ==> r[i] == leaves[if i < n then i else i - 1];
      assert j != n ==> r[j] == leaves[if j < n then j else j - 1];
    }
    forall j | 0 <= j < |leaves|
      ensures leaves[j].key != leaf.key
    {
      OneFirst(leaves[j].key, leaf.key);
      OneFirst(leaf.key, leaves[j].key);
    }
    assert leaf.key !in m by {
      assert leaf.key in m ==> HasKey(leaves, leaf.key);
    }
    forall k: Key | k in m[leaf.key := leaf.hash]
      ensures HasKey(r, k)
    {
      if k == leaf.key {
        assert r[n].key == k;
      } else {
        assert HasKey(leaves, k);
        var j :| 0 <= j < |leaves| && leaves[j].key == k;
        assert r[if j < n then j else j + 1].key == k;
      }
    }
    forall i | 0 <= i < |r|
      ensures r[i].key in m[leaf.key := leaf.hash] && m[leaf.key := leaf.hash][r[i].key] == r[i].hash
    {
      assert i != n ==> r[i] == leaves[if i < n then i else i - 1];
    }
  }

  // ---------- proofs ----------

  /** The hashes beside the path of `key`, from `depth` down. */
  ghost function Siblings(h: Hash2, m: Leaves, key: Key, depth: nat): (s: seq<Digest>)
    requires depth <= HEIGHT
    ensures |s| == HEIGHT - depth
    decreases HEIGHT - depth
  {
    if depth == HEIGHT then [] else [Node(h, m, FlipBit(key, depth), depth + 1)] + Siblings(h, m, key, depth + 1)
  }

  /** The proof collected from the slices is the list of siblings. */
  lemma {:induction false} CollectedAreSiblings(h: Hash2, leaves: seq<Leaf>, m: Leaves, key: Key, depth: nat)
    requires depth <= HEIGHT && Ascending(leaves) && Lists(leaves, m, key, depth)
    ensures CollectSiblings(h, leaves, key, depth) == Siblings(h, m, key, depth)
    decreases HEIGHT - depth
  {
    hide BitOf, Bit, Precedes, PartitionPoint, Ascending, SamePrefix, FlipBit, Lists;
    if depth < HEIGHT {
      HalfLists(leaves, m, key, depth, 0);
      HalfLists(leaves, m, key, depth, 1);
      ZeroOrOne(key, depth);
      var n := PartitionPoint(leaves, depth);
      SubtreeRootIsNode(h, leaves[..n], m, WithBit(key, depth, 0), depth + 1);
      SubtreeRootIsNode(h, leaves[n..], m, WithBit(key, depth, 1), depth + 1);
      CollectedAreSiblings(h, if Bit(key, depth) == 0 then leaves[..n] else leaves[n..], m, key, depth + 1);
    }
  }

  /** Hashing the leaf up along the siblings. */
  function FoldUp(h: Hash2, key: Key, leaf: Digest, siblings: seq<Digest>, depth: nat): Digest
    requires |siblings| == HEIGHT && depth <= HEIGHT
    decreases HEIGHT - depth
  {
    if depth == HEIGHT then leaf else
      var below := FoldUp(h, key, leaf, siblings, depth + 1);
      if Bit(key, depth) == 0 then h(below, siblings[depth]) else h(siblings[depth], below)
  }

  method Verify(h: Hash2, root: Digest, key: Key, leaf: Digest, siblings: seq<Digest>) returns (ok: bool)
    ensures ok <==> |siblings| == HEIGHT && FoldUp(h, key, leaf, siblings, 0) == root
  {
    if |siblings| != HEIGHT {
      return false;
    }
    var cur := leaf;
    var depth := HEIGHT;
    while depth > 0
      invariant 0 <= depth <= HEIGHT && cur == FoldUp(h, key, leaf, siblings, depth)
    {
      depth := depth - 1;
      cur := if Bit(key, depth) == 0 then h(cur, siblings[depth]) else h(siblings[depth], cur);
    }
    return cur == root;
  }

  lemma {:induction false} SiblingAt(h: Hash2, m: Leaves, key: Key, depth: nat, i: nat)
    requires depth <= i < HEIGHT
    ensures Siblings(h, m, key, depth)[i - depth] == Node(h, m, FlipBit(key, i), i + 1)
    decreases i - depth
  {
    hide FlipBit, Node, Bit, BitOf;
    if depth < i {
      SiblingAt(h, m, key, depth + 1, i);
      SecondOn(Node(h, m, FlipBit(key, depth), depth + 1), Siblings(h, m, key, depth + 1), i - depth);
    }
  }

  lemma {:induction false} SecondOn(first: Digest, rest: seq<Digest>, j: nat)
    requires 0 < j <= |rest|
    ensures ([first] + rest)[j] == rest[j - 1]
  {
  }

  /** The siblings and the true leaf always lead to the root. */
  lemma {:induction false} ProofFolds(h: Hash2, m: Leaves, key: Key, depth: nat)
    requires depth <= HEIGHT
    ensures FoldUp(h, key, LeafAt(m, key), Siblings(h, m, key, 0), depth) == Node(h, m, key, depth)
    decreases HEIGHT - depth
  {
    hide BitOf, Bit, FlipBit, Siblings;
    if depth < HEIGHT {
      ProofFolds(h, m, key, depth + 1);
      NodeSplit(h, m, key, depth);
      SiblingAt(h, m, key, 0, depth);
    }
  }

  /** Two accepted proofs of different leaves for one key and root contain a collision of the hash. */
  lemma {:induction false} Binding(h: Hash2, key: Key, leaf: Digest, leaf': Digest, s: seq<Digest>, s': seq<Digest>,
                                   depth: nat)
      returns (a: Digest, b: Digest, c: Digest, d: Digest)
    requires |s| == |s'| == HEIGHT && depth <= HEIGHT && leaf != leaf'
    requires FoldUp(h, key, leaf, s, depth) == FoldUp(h, key, leaf', s', depth)
    ensures (a, b) != (c, d) && h(a, b) == h(c, d)
    decreases HEIGHT - depth
  {
    hide BitOf, Bit;
    a, b, c, d := leaf, leaf, leaf, leaf;
    if depth < HEIGHT {
      var x, x' := FoldUp(h, key, leaf, s, depth + 1), FoldUp(h, key, leaf', s', depth + 1);
      if x == x' {
        a, b, c, d := Binding(h, key, leaf, leaf', s, s', depth + 1);
      } else if Bit(key, depth) == 0 {
        a, b, c, d := x, s[depth], x', s'[depth];
      } else {
        a, b, c, d := s[depth], x, s'[depth], x';
      }
    }
  }

  // ---------- the tree in a store of nodes ----------

  type Nodes = map<NodeKey, Digest>

  /** The hash of a node; absent nodes have the default of their depth. */
  function NodeAt(nodes: Nodes, id: NodeKey, default': Digest): Digest {
    if id in nodes then nodes[id] else default'
  }

  ghost predicate NodeOk(h: Hash2, nodes: Nodes, m: Leaves, key: Key, depth: nat)
    requires depth <= HEIGHT
  {
    NodeAt(nodes, NodeId(key, depth), Default(h, depth)) == Node(h, m, key, depth)
  }

  ghost predicate MixedAt(h: Hash2, nodes: Nodes, m: Leaves, m': Leaves, from: nat, key: Key, depth: nat) {
    depth <= HEIGHT ==> NodeOk(h, nodes, if depth >= from then m' else m, key, depth)
  }

  /** Nodes from depth `from` down are those of `m'`, nodes above are those of `m`. */
  ghost predicate Mixed(h: Hash2, nodes: Nodes, m: Leaves, m': Leaves, from: nat) {
    forall key: Key, depth: nat {:trigger MixedAt(h, nodes, m, m', from, key, depth)} ::
      MixedAt(h, nodes, m, m', from, key, depth)
  }

  /** Every node, stored or default, is the hash of the leaves below it. */
  ghost predicate StoreOk(h: Hash2, nodes: Nodes, m: Leaves) {
    forall key: Key, depth: nat {:trigger NodeOk(h, nodes, m, key, depth)} :: depth <= HEIGHT ==>
      NodeOk(h, nodes, m, key, depth)
  }

  /** The store after writing one node: defaults are not stored. */
  function Written(nodes: Nodes, id: NodeKey, hash: Digest, default': Digest): Nodes {
    if hash == default' then nodes - {id} else nodes[id := hash]
  }

  lemma {:induction false} MixedStarts(h: Hash2, nodes: Nodes, m: Leaves, m': Leaves)
    requires StoreOk(h, nodes, m)
    ensures Mixed(h, nodes, m, m', HEIGHT + 1)
  {
    hide NodeId, Node, Default;
    var below := HEIGHT + 1;
    forall key: Key, depth: nat
      ensures MixedAt(h, nodes, m, m', below, key, depth)
    {
      if depth <= HEIGHT {
        assert NodeOk(h, nodes, m, key, depth);
      }
    }
  }

  lemma {:induction false} MixedEnds(h: Hash2, nodes: Nodes, m: Leaves, m': Leaves)
    requires Mixed(h, nodes, m, m', 0)
    ensures StoreOk(h, nodes, m')
  {
    hide NodeId, Node, Default, NodeOk;
    forall key: Key, depth: nat | depth <= HEIGHT
      ensures NodeOk(h, nodes, m', key, depth)
    {
      assert MixedAt(h, nodes, m, m', 0, key, depth);
    }
  }

  /** Off the path of `key` nothing changed. */
  lemma {:induction false} OffPath(h: Hash2, m: Leaves, key: Key, leaf: Digest, k: Key, depth: nat)
    requires depth <= HEIGHT && !SamePrefix(k, key, depth)
    ensures Node(h, m[key := leaf], k, depth) == Node(h, m, k, depth)
  {
    hide Bit, Node;
    PrefixSelf(k, depth);
    forall x: Key | SamePrefix(x, k, depth)
      ensures SameLeaf(m[key := leaf], m, x)
    {
      if x == key {
        PrefixBack(x, k, depth);
      }
    }
    NodeLocal(h, m[key := leaf], m, k, k, depth);
  }

  /** Writing the new hash of the node on the path moves the boundary up by one. */
  lemma {:induction false} PathWritten(h: Hash2, nodes: Nodes, m: Leaves, key: Key, leaf: Digest, d: nat)
    requires d <= HEIGHT && Mixed(h, nodes, m, m[key := leaf], d + 1)
    ensures Mixed(h, Written(nodes, NodeId(key, d), Node(h, m[key := leaf], key, d), Default(h, d)), m, m[key := leaf],
      d)
  {
    hide NodeId, Node, Default, SamePrefix;
    var m' := m[key := leaf];
    var nodes' := Written(nodes, NodeId(key, d), Node(h, m', key, d), Default(h, d));
    forall k: Key, e: nat
      ensures MixedAt(h, nodes', m, m', d, k, e)
    {
      var after := d + 1;
      assert MixedAt(h, nodes, m, m', after, k, e);
      if e <= HEIGHT {
        NodeIdExact(k, e, key, d);
        if e == d {
          if SamePrefix(k, key, d) {
            SamePathNode(h, m', k, key, d);
          } else {
            OffPath(h, m, key, leaf, k, d);
          }
        }
      }
    }
  }

  lemma {:induction false} SamePathNode(h: Hash2, m: Leaves, a: Key, b: Key, depth: nat)
    requires depth <= HEIGHT && SamePrefix(a, b, depth)
    ensures Node(h, m, a, depth) == Node(h, m, b, depth)
  {
    hide Bit, Node;
    forall k: Key | SamePrefix(k, a, depth)
      ensures SameLeaf(m, m, k)
    {
    }
    NodeLocal(h, m, m, a, b, depth);
  }

  /** The sibling on the way up is a node that the update has left alone and that is right already. */
  lemma {:induction false} SiblingRight(h: Hash2, nodes: Nodes, m: Leaves, m': Leaves, key: Key, d: nat)
    requires 0 < d <= HEIGHT && Mixed(h, nodes, m, m', d)
    ensures var on, beside := Node(h, m', key, d), NodeAt(nodes, NodeId(FlipBit(key, d - 1), d), Default(h, d));
      Node(h, m', key, d - 1) == if Bit(key, d - 1) == 0 then h(on, beside) else h(beside, on)
  {
    hide NodeId, Node, Default, SamePrefix, Bit, FlipBit;
    assert MixedAt(h, nodes, m, m', d, FlipBit(key, d - 1), d);
    NodeSplit(h, m', key, d - 1);
  }

  /** Leaves that read the same give the same store. */
  lemma {:induction false} StoreSame(h: Hash2, nodes: Nodes, m: Leaves, m': Leaves)
    requires StoreOk(h, nodes, m) && forall k: Key {:trigger SameLeaf(m, m', k)} :: SameLeaf(m, m', k)
    ensures StoreOk(h, nodes, m')
  {
    hide NodeId, Node, Default, Bit;
    forall key: Key, depth: nat | depth <= HEIGHT
      ensures NodeOk(h, nodes, m', key, depth)
    {
      assert NodeOk(h, nodes, m, key, depth);
      PrefixSelf(key, depth);
      NodeLocal(h, m, m', key, key, depth);
    }
  }

  lemma {:induction false} EmptyStore(h: Hash2)
    ensures StoreOk(h, map[], map[])
  {
    hide NodeId, Node, Default;
    forall key: Key, depth: nat | depth <= HEIGHT
      ensures NodeOk(h, map[], map[], key, depth)
    {
      NothingBelow(h, key, depth);
    }
  }

  lemma {:induction false} RootRight(h: Hash2, nodes: Nodes, m: Leaves, key: Key, depth: nat)
    requires StoreOk(h, nodes, m) && depth <= HEIGHT
    ensures NodeAt(nodes, NodeId(key, depth), Default(h, depth)) == Node(h, m, key, depth)
  {
    hide NodeId, Node, Default;
    assert NodeOk(h, nodes, m, key, depth);
  }
}
