/** Vocabulary shared by every layer: block ids, their sentinels, and small result types. */
module Types {

  /** A 32-byte block id, read as the big-endian number it spells; ids are ordered as numbers. */
  type Hash = nat

  /** The id of "no block": the parent of the tree root. */
  const NONE: Hash := 0

  /** The virtual block above genesis, all bytes 0xff. */
  const ORIGIN: Hash := 0xFFFF_FFFF_FFFF_FFFF_FFFF_FFFF_FFFF_FFFF_FFFF_FFFF_FFFF_FFFF_FFFF_FFFF_FFFF_FFFF

  datatype Option<+T> = None | Some(value: T)

  /** How an operation of the reachability index ends. `Panic` is a failed assertion of the
      original: a checked subtraction, a malformed interval, or a split without enough labels. */
  datatype Status = Ok | KeyNotFound | AlreadyExists | DataOverflow | DataInconsistency | BadQuery | Panic

  /** The blocks of a list, as a set. */
  ghost function Listed(blocks: seq<Hash>): set<Hash> {
    set b | b in blocks
  }

  /** The last `n` elements, or all if there are fewer. */
  function Last<T>(s: seq<T>, n: nat): seq<T> {
    if |s| <= n then s else s[|s| - n..]
  }

  /** The sum of a list of sizes. */
  function Sum(sizes: seq<int>): int {
    if |sizes| == 0 then 0 else Sum(sizes[..|sizes| - 1]) + sizes[|sizes| - 1]
  }

  lemma {:induction false} SumSnoc(sizes: seq<int>, x: int)
    ensures Sum(sizes + [x]) == Sum(sizes) + x
  {
    assert (sizes + [x])[..|sizes|] == sizes;
  }

  lemma {:induction false} SumConcat(a: seq<int>, b: seq<int>)
    ensures Sum(a + b) == Sum(a) + Sum(b)
  {
    if |b| == 0 {
      assert a + b == a;
    } else {
      assert (a + b)[..|a + b| - 1] == a + b[..|b| - 1];
      SumConcat(a, b[..|b| - 1]);
    }
  }

  lemma {:induction false} SubsetCount<T>(a: set<T>, b: set<T>)
    requires a <= b
    ensures |a| <= |b|
  {
    if a != {} {
      var x :| x in a;
      SubsetCount(a - {x}, b - {x});
    }
  }
}
