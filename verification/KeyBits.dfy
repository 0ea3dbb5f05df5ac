/** Account keys as bytes and as paths of bits, the identifiers of tree nodes, and why both agree. */
module KeyBits {

  type Byte = bv8

  type Key = k: seq<Byte> | |k| == 32 witness seq(32, i => 0)

  /** Height of the tree: the number of bits of a key. */
  const HEIGHT: nat := 256

  // ---------- one byte ----------

  /** Bit `j` of a byte, the highest bit first. */
  function BitOf(b: Byte, j: nat): Byte
    requires j < 8
  {
    (match j
     case 0 => b >> 7 case 1 => b >> 6 case 2 => b >> 5 case 3 => b >> 4
     case 4 => b >> 3 case 5 => b >> 2 case 6 => b >> 1 case _ => b) & 1
  }

  /** The byte with bit `j` alone. */
  function Single(j: nat): Byte
    requires j < 8
  {
    match j case 0 => 128 case 1 => 64 case 2 => 32 case 3 => 16 case 4 => 8 case 5 => 4 case 6 => 2 case _ => 1
  }

  /** The first `used` bits, the others cleared. */
  function Masked(b: Byte, used: nat): Byte
    requires 1 <= used <= 8
  {
    if used < 8 then b & !(Single(used - 1) - 1) else b
  }

  function Flipped(b: Byte, j: nat): Byte
    requires j < 8
  {
    b ^ Single(j)
  }

  lemma {:induction false} BitRange(b: Byte, j: nat)
    requires j < 8
    ensures BitOf(b, j) == 0 || BitOf(b, j) == 1
  {
  }

  lemma {:induction false} FlipOne(b: Byte, j: nat, i: nat)
    requires j < 8 && i < 8
    ensures BitOf(Flipped(b, j), i) == if i == j then 1 - BitOf(b, i) else BitOf(b, i)
  {
    if j < 4 {
      FlipHigh(b, j, i);
    } else {
      FlipLow(b, j, i);
    }
  }

  lemma {:induction false} FlipHigh(b: Byte, j: nat, i: nat)
    requires j < 4 && i < 8
    ensures BitOf(Flipped(b, j), i) == if i == j then 1 - BitOf(b, i) else BitOf(b, i)
  {
  }

  lemma {:induction false} FlipLow(b: Byte, j: nat, i: nat)
    requires 4 <= j < 8 && i < 8
    ensures BitOf(Flipped(b, j), i) == if i == j then 1 - BitOf(b, i) else BitOf(b, i)
  {
  }

  /** Masked bytes are equal exactly when the bits that were kept are. */
  lemma {:induction false} MaskedSame(a: Byte, b: Byte, used: nat)
    requires 1 <= used <= 8
    ensures Masked(a, used) == Masked(b, used) <==>
      forall i {:trigger BitOf(a, i)} :: 0 <= i < used ==> BitOf(a, i) == BitOf(b, i)
  {
    MaskedBits(a, b, used);
    if forall i {:trigger BitOf(a, i)} :: 0 <= i < used ==> BitOf(a, i) == BitOf(b, i) {
      assert BitOf(a, 0) == BitOf(b, 0);
      assert used > 1 ==> BitOf(a, 1) == BitOf(b, 1);
      assert used > 2 ==> BitOf(a, 2) == BitOf(b, 2);
      assert used > 3 ==> BitOf(a, 3) == BitOf(b, 3);
      assert used > 4 ==> BitOf(a, 4) == BitOf(b, 4);
      assert used > 5 ==> BitOf(a, 5) == BitOf(b, 5);
      assert used > 6 ==> BitOf(a, 6) == BitOf(b, 6);
      assert used > 7 ==> BitOf(a, 7) == BitOf(b, 7);
    }
  }

  lemma {:induction false} MaskedBits(a: Byte, b: Byte, used: nat)
    requires 1 <= used <= 8
    ensures Masked(a, used) == Masked(b, used) <==> (BitOf(a, 0) == BitOf(b, 0)
      && (used > 1 ==> BitOf(a, 1) == BitOf(b, 1)) && (used > 2 ==> BitOf(a, 2) == BitOf(b, 2)) &&
        (used > 3 ==> BitOf(a, 3) == BitOf(b, 3))
      && (used > 4 ==> BitOf(a, 4) == BitOf(b, 4)) && (used > 5 ==> BitOf(a, 5) == BitOf(b, 5)) &&
        (used > 6 ==> BitOf(a, 6) == BitOf(b, 6))
      && (used > 7 ==> BitOf(a, 7) == BitOf(b, 7)))
  {
    if used <= 4 {
      MaskedFew(a, b, used);
    } else {
      MaskedMany(a, b, used);
    }
  }

  lemma {:induction false} MaskedFew(a: Byte, b: Byte, used: nat)
    requires 1 <= used <= 4
    ensures Masked(a, used) == Masked(b, used) <==> (BitOf(a, 0) == BitOf(b, 0)
      && (used > 1 ==> BitOf(a, 1) == BitOf(b, 1)) && (used > 2 ==> BitOf(a, 2) == BitOf(b, 2)) &&
        (used > 3 ==> BitOf(a, 3) == BitOf(b, 3)))
  {
  }

  lemma {:induction false} MaskedMany(a: Byte, b: Byte, used: nat)
    requires 5 <= used <= 8
    ensures Masked(a, used) == Masked(b, used) <==>
      (BitOf(a, 0) == BitOf(b, 0) && BitOf(a, 1) == BitOf(b, 1) && BitOf(a, 2) == BitOf(b, 2)
      && BitOf(a, 3) == BitOf(b, 3) && BitOf(a, 4) == BitOf(b, 4) && (used > 5 ==> BitOf(a, 5) == BitOf(b, 5))
      && (used > 6 ==> BitOf(a, 6) == BitOf(b, 6)) && (used > 7 ==> BitOf(a, 7) == BitOf(b, 7)))
  {
  }

  /** Of two bytes that agree on the first `j` bits, the smaller one does not have the larger bit `j`. */
  lemma {:induction false} BitOrder(a: Byte, b: Byte, j: nat)
    requires j < 8 && a < b && forall i {:trigger BitOf(a, i)} :: 0 <= i < j ==> BitOf(a, i) == BitOf(b, i)
    ensures BitOf(a, j) <= BitOf(b, j)
  {
    assert j > 0 ==> BitOf(a, 0) == BitOf(b, 0);
    assert j > 1 ==> BitOf(a, 1) == BitOf(b, 1);
    assert j > 2 ==> BitOf(a, 2) == BitOf(b, 2);
    assert j > 3 ==> BitOf(a, 3) == BitOf(b, 3);
    assert j > 4 ==> BitOf(a, 4) == BitOf(b, 4);
    assert j > 5 ==> BitOf(a, 5) == BitOf(b, 5);
    assert j > 6 ==> BitOf(a, 6) == BitOf(b, 6);
  }

  // ---------- keys ----------

  function Bit(key: Key, depth: nat): Byte
    requires depth < HEIGHT
  {
    BitOf(key[depth / 8], depth % 8)
  }

  function FlipBit(key: Key, depth: nat): Key
    requires depth < HEIGHT
  {
    key[depth / 8 := Flipped(key[depth / 8], depth % 8)]
  }

  /** The keys have the same first `depth` bits. */
  ghost predicate SamePrefix(a: Key, b: Key, depth: nat)
    requires depth <= HEIGHT
  {
    forall i {:trigger Bit(a, i)} {:trigger Bit(b, i)} :: 0 <= i < depth ==> Bit(a, i) == Bit(b, i)
  }

  lemma {:induction false} FlipBits(key: Key, depth: nat, i: nat)
    requires depth < HEIGHT && i < HEIGHT
    ensures Bit(FlipBit(key, depth), i) == if i == depth then 1 - Bit(key, i) else Bit(key, i)
  {
    if i / 8 == depth / 8 {
      FlipOne(key[depth / 8], depth % 8, i % 8);
    }
  }

  lemma {:induction false} ZeroOrOne(key: Key, depth: nat)
    requires depth < HEIGHT
    ensures Bit(key, depth) == 0 || Bit(key, depth) == 1
  {
    BitRange(key[depth / 8], depth % 8);
  }

  /** Keys with the same bits are the same. */
  lemma {:induction false} SameKey(a: Key, b: Key)
    requires SamePrefix(a, b, HEIGHT)
    ensures a == b
  {
    forall n | 0 <= n < 32
      ensures a[n] == b[n]
    {
      WholeByte(a, b, n);
    }
  }

  lemma {:induction false} WholeByte(a: Key, b: Key, n: nat)
    requires n < 32
    ensures a[n] == b[n] <==> forall j {:trigger BitOf(a[n], j)} :: 0 <= j < 8 ==> BitOf(a[n], j) == BitOf(b[n], j)
    ensures SamePrefix(a, b, HEIGHT) ==> a[n] == b[n]
  {
    MaskedSame(a[n], b[n], 8);
    if SamePrefix(a, b, HEIGHT) {
      forall j | 0 <= j < 8
        ensures BitOf(a[n], j) == BitOf(b[n], j)
      {
        assert Bit(a, 8 * n + j) == Bit(b, 8 * n + j);
      }
    }
  }

  // ---------- node ids ----------

  /** The id of a node: its depth as two big-endian bytes, then the bytes of its prefix. */
  datatype NodeKey = NodeKey(high: nat, low: nat, prefix: seq<Byte>)

  /** The bytes that the first `depth` bits reach into, the last of them masked. */
  function PrefixBytes(key: Key, depth: nat): (p: seq<Byte>)
    requires depth <= HEIGHT
    ensures |p| == (depth + 7) / 8
  {
    seq((depth + 7) / 8, i requires 0 <= i < (depth + 7) / 8 => if depth - 8 * i < 8 then Masked(key[i], depth - 8 * i)
      else key[i])
  }

  /** The id of the node at `depth` on the path of `key`. */
  function NodeId(key: Key, depth: nat): NodeKey
    requires depth <= HEIGHT
  {
    NodeKey(depth / 256, depth % 256, PrefixBytes(key, depth))
  }

  lemma {:induction false} PrefixByte(a: Key, b: Key, depth: nat, n: nat)
    requires depth <= HEIGHT && n < (depth + 7) / 8
    ensures PrefixBytes(a, depth)[n] == PrefixBytes(b, depth)[n]
      <==> forall j {:trigger BitOf(a[n], j)} :: 0 <= j < 8 && 8 * n + j < depth ==> BitOf(a[n], j) == BitOf(b[n], j)
  {
    var used := if depth - 8 * n < 8 then depth - 8 * n else 8;
    MaskedSame(a[n], b[n], used);
    hide BitOf, Masked;
    if forall j {:trigger BitOf(a[n], j)} :: 0 <= j < used ==> BitOf(a[n], j) == BitOf(b[n], j) {
      assert forall j {:trigger BitOf(a[n], j)} :: 0 <= j < 8 && 8 * n + j < depth ==> BitOf(a[n], j) == BitOf(b[n], j);
    }
  }

  lemma {:induction false} PrefixExact(a: Key, b: Key, depth: nat)
    requires depth <= HEIGHT
    ensures PrefixBytes(a, depth) == PrefixBytes(b, depth) <==> SamePrefix(a, b, depth)
  {
    hide BitOf, Masked;
    if PrefixBytes(a, depth) == PrefixBytes(b, depth) {
      forall i | 0 <= i < depth
        ensures Bit(a, i) == Bit(b, i)
      {
        PrefixByte(a, b, depth, i / 8);
        assert BitOf(a[i / 8], i % 8) == BitOf(b[i / 8], i % 8);
      }
    }
    if SamePrefix(a, b, depth) {
      forall n | 0 <= n < (depth + 7) / 8
        ensures PrefixBytes(a, depth)[n] == PrefixBytes(b, depth)[n]
      {
        PrefixByte(a, b, depth, n);
        forall j | 0 <= j < 8 && 8 * n + j < depth
          ensures BitOf(a[n], j) == BitOf(b[n], j)
        {
          assert Bit(a, 8 * n + j) == Bit(b, 8 * n + j);
        }
      }
    }
  }

  /** An id stands for one depth and one prefix of that many bits. */
  lemma {:induction false} NodeIdExact(a: Key, d: nat, b: Key, e: nat)
    requires d <= HEIGHT && e <= HEIGHT
    ensures NodeId(a, d) == NodeId(b, e) <==> d == e && SamePrefix(a, b, d)
  {
    hide PrefixBytes;
    if d == e {
      PrefixExact(a, b, d);
    }
  }

  // ---------- byte order ----------

  /** Byte `i` is the first in which the keys differ, and `a` has the smaller one. */
  ghost predicate SmallerAt(a: Key, b: Key, i: nat) {
    i < 32 && (forall j {:trigger a[j]} {:trigger b[j]} :: 0 <= j < i ==> a[j] == b[j]) && a[i] < b[i]
  }

  /** The order of keys as byte strings. */
  ghost predicate Precedes(a: Key, b: Key) {
    exists i: nat :: SmallerAt(a, b, i)
  }

  /** Byte order is the order of the bits: after a common prefix, the smaller key has the smaller bit. */
  lemma {:induction false} OrderOfBits(a: Key, b: Key, depth: nat)
    requires Precedes(a, b) && depth < HEIGHT && SamePrefix(a, b, depth)
    ensures Bit(a, depth) <= Bit(b, depth)
  {
    var i: nat :| SmallerAt(a, b, i);
    var n := depth / 8;
    hide BitOf;
    if i < n {
      EarlierByte(a, b, depth, i);
    } else if n == i {
      SameSoFar(a, b, depth);
      BitOrder(a[n], b[n], depth % 8);
    }
  }

  lemma {:induction false} SameSoFar(a: Key, b: Key, depth: nat)
    requires depth < HEIGHT && SamePrefix(a, b, depth)
    ensures var n := depth / 8;
      forall j {:trigger BitOf(a[n], j)} :: 0 <= j < depth % 8 ==> BitOf(a[n], j) == BitOf(b[n], j)
  {
    hide BitOf;
    var n := depth / 8;
    forall j | 0 <= j < depth % 8
      ensures BitOf(a[n], j) == BitOf(b[n], j)
    {
      assert Bit(a, 8 * n + j) == Bit(b, 8 * n + j);
    }
  }

  lemma {:induction false} EarlierByte(a: Key, b: Key, depth: nat, i: nat)
    requires depth < HEIGHT && SamePrefix(a, b, depth) && i < depth / 8
    ensures a[i] == b[i]
  {
    MaskedSame(a[i], b[i], 8);
    hide BitOf;
    forall j | 0 <= j < 8
      ensures BitOf(a[i], j) == BitOf(b[i], j)
    {
      assert Bit(a, 8 * i + j) == Bit(b, 8 * i + j);
    }
  }

  /** Different keys come one before the other, and not both ways. */
  lemma {:induction false} OneFirst(a: Key, b: Key)
    ensures a == b || Precedes(a, b) || Precedes(b, a)
    ensures Precedes(a, b) ==> !Precedes(b, a) && a != b
  {
    if a != b {
      var i := FirstDifference(a, b);
      assert SmallerAt(a, b, i) || SmallerAt(b, a, i);
    }
    if Precedes(a, b) {
      var i: nat :| SmallerAt(a, b, i);
      forall j: nat
        ensures !SmallerAt(b, a, j)
      {
        assert a[i] != b[i];
        assert j < i ==> a[j] == b[j];
      }
    }
  }

  lemma {:induction false} FirstDifference(a: Key, b: Key) returns (i: nat)
    requires a != b
    ensures i < 32 && (forall j {:trigger a[j]} {:trigger b[j]} :: 0 <= j < i ==> a[j] == b[j]) && a[i] != b[i]
  {
    i := 0;
    while i < 31 && a[i] == b[i]
      invariant i < 32 && forall j {:trigger a[j]} {:trigger b[j]} :: 0 <= j < i ==> a[j] == b[j]
    {
      i := i + 1;
    }
  }

  lemma {:induction false} PrecedesTrans(a: Key, b: Key, c: Key)
    requires Precedes(a, b) && Precedes(b, c)
    ensures Precedes(a, c)
  {
    var i: nat :| SmallerAt(a, b, i);
    var j: nat :| SmallerAt(b, c, j);
    var k := if i < j then i else j;
    assert SmallerAt(a, c, k);
  }
}
