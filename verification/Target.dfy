/** Proof-of-work targets: the work they stand for, and the level of a solution. Targets and hashes
    are 32 big-endian bytes, read as the number they spell. */
module Target {

  const U256_MAX: int := 0xFFFF_FFFF_FFFF_FFFF_FFFF_FFFF_FFFF_FFFF_FFFF_FFFF_FFFF_FFFF_FFFF_FFFF_FFFF_FFFF

  const TWO_256: int := U256_MAX + 1

  type U256 = x: int | 0 <= x <= U256_MAX

  predicate MeetsTarget(hash: U256, target: U256) {
    hash <= target
  }

  /** Work within 256 bits: the complement of the target over the target plus one, plus one. */
  function WorkForTarget(target: U256): U256 {
    if target == 0 then U256_MAX else
      var denom: int := if target == U256_MAX then U256_MAX else target + 1;
      WorkFits(target, denom);
      (U256_MAX - target) / denom + 1
  }

  lemma {:induction false} WorkFits(target: int, denom: int)
    requires 0 < target <= U256_MAX && 0 < denom && denom >= target
    ensures 0 <= (U256_MAX - target) / denom && (U256_MAX - target) / denom + 1 <= U256_MAX
  {
    var q := (U256_MAX - target) / denom;
    DivBounds(U256_MAX - target, denom);
    assert q * denom >= q by {
      Mul(q, denom);
    }
  }

  lemma {:induction false} Mul(q: int, d: int)
    requires q >= 0 && d >= 1
    ensures q * d >= q
  {
    var e := d - 1;
    assert q * d == q * e + q;
    MulNat(q, e);
  }

  lemma {:induction false} MulNat(q: int, e: int)
    requires q >= 0 && e >= 0
    ensures q * e >= 0
  {
  }

  lemma {:induction false} DivBounds(a: int, b: int)
    requires a >= 0 && b > 0
    ensures a / b >= 0 && (a / b) * b <= a < (a / b) * b + b
  {
  }

  /** `q` is the quotient if it leaves a remainder smaller than the divisor. */
  lemma {:induction false} DivUnique(a: int, b: int, q: int)
    requires b > 0 && q * b <= a < q * b + b
    ensures a / b == q
  {
    var r := a / b;
    assert r * b <= a < r * b + b;
    if r < q {
      MulLe(r + 1, q, b);
    } else if q < r {
      MulLe(q + 1, r, b);
    }
  }

  lemma {:induction false} DivAtLeast(a: int, b: int, q: int)
    requires b > 0 && q * b <= a
    ensures q <= a / b
  {
    var r := a / b;
    assert r * b <= a < r * b + b;
    if r < q {
      MulLe(r + 1, q, b);
    }
  }

  lemma {:induction false} MulLe(x: int, y: int, b: int)
    requires x <= y && b >= 0
    ensures x * b <= y * b
  {
    MulNat(y - x, b);
    assert (y - x) * b == y * b - x * b;
  }

  /** The work is the expected number of hashes, `2^256 / (target + 1)`, rounded down. */
  lemma {:induction false} WorkIsExpectation(target: U256)
    requires target > 0
    ensures WorkForTarget(target) == TWO_256 / (target + 1)
  {
    var d := target + 1;
    if target == U256_MAX {
      DivUnique(TWO_256, d, 1);
      DivUnique(0, U256_MAX, 0);
    } else {
      var q := (U256_MAX - target) / d;
      DivBounds(U256_MAX - target, d);
      assert (q + 1) * d == q * d + d;
      DivUnique(TWO_256, d, q + 1);
    }
  }

  /** An easier target stands for no more work. */
  lemma {:induction false} WorkAntitone(t: U256, u: U256)
    requires t <= u
    ensures WorkForTarget(t) >= WorkForTarget(u) >= 1
  {
    if t > 0 {
      WorkIsExpectation(t);
      WorkIsExpectation(u);
      var b := TWO_256 / (u + 1);
      DivBounds(TWO_256, u + 1);
      MulNat(b, u - t);
      assert b * (u + 1) == b * (t + 1) + b * (u - t);
      DivAtLeast(TWO_256, t + 1, b);
    } else {
      WorkBound(u);
    }
    WorkPositive(u);
  }

  lemma {:induction false} WorkBound(u: U256)
    ensures WorkForTarget(u) <= U256_MAX
  {
  }

  lemma {:induction false} WorkPositive(u: U256)
    ensures WorkForTarget(u) >= 1
  {
  }

  // ---------- levels ----------

  function Pow2(n: nat): (p: int)
    ensures p >= 1
  {
    if n == 0 then 1 else 2 * Pow2(n - 1)
  }

  lemma {:induction false} Pow2Sum(m: nat, n: nat)
    ensures Pow2(m + n) == Pow2(m) * Pow2(n)
  {
    if n > 0 {
      Pow2Sum(m, n - 1);
      assert Pow2(m) * (2 * Pow2(n - 1)) == 2 * (Pow2(m) * Pow2(n - 1));
    }
  }

  lemma {:induction false} Pow2Grows(m: nat, n: nat)
    requires m <= n
    ensures Pow2(m) <= Pow2(n)
    ensures m < n ==> 2 * Pow2(m) <= Pow2(n)
    decreases n - m
  {
    if m < n {
      Pow2Grows(m, n - 1);
    }
  }

  /** The number of bits of `x`. */
  function BitLength(x: int): (n: nat)
    requires x >= 0
    ensures x < Pow2(n)
    ensures x > 0 ==> n > 0 && Pow2(n - 1) <= x
    ensures x == 0 ==> n == 0
  {
    if x == 0 then 0 else BitLength(x / 2) + 1
  }

  lemma {:induction false} BitLengthUnique(x: int, n: nat)
    requires x > 0 && n > 0 && Pow2(n - 1) <= x < Pow2(n)
    ensures BitLength(x) == n
  {
    var m := BitLength(x);
    if m < n {
      Pow2Grows(m, n - 1);
    } else if n < m {
      Pow2Grows(n, m - 1);
    }
  }

  lemma {:induction false} BitLengthGrows(x: int, y: int)
    requires 0 <= x <= y
    ensures BitLength(x) <= BitLength(y)
  {
    if BitLength(y) < BitLength(x) {
      Pow2Grows(BitLength(y), BitLength(x) - 1);
    }
  }

  /** The value of big-endian bytes. */
  function Value(bytes: seq<int>): (v: int)
    requires forall i :: 0 <= i < |bytes| ==> 0 <= bytes[i] < 256
    ensures 0 <= v < Pow2(8 * |bytes|)
  {
    if |bytes| == 0 then 0 else
      Pow2Sum(8 * (|bytes| - 1), 8);
      assert Pow2(8) == 256;
      256 * Value(bytes[..|bytes| - 1]) + bytes[|bytes| - 1]
  }

  /** The zero bits in front of the highest one, as the loop over the bytes counts them. */
  method LeadingZeroBits(bytes: seq<int>) returns (z: nat)
    requires forall i :: 0 <= i < |bytes| ==> 0 <= bytes[i] < 256
    ensures z == 8 * |bytes| - BitLength(Value(bytes))
  {
    z := 0;
    for i := 0 to |bytes|
      invariant z == 8 * i && Value(bytes[..i]) == 0
    {
      assert bytes[..i + 1][..i] == bytes[..i];
      if bytes[i] == 0 {
        z := z + 8;
      } else {
        HighByte(bytes, i);
        z := z + (8 - BitLength(bytes[i]));
        return;
      }
    }
    assert bytes[..|bytes|] == bytes;
  }

  lemma {:induction false} ByteBits(b: int)
    requires 0 < b < 256
    ensures 1 <= BitLength(b) <= 8
  {
    BitLengthGrows(b, 255);
    BitLengthUnique(255, 8);
  }

  lemma {:induction false} LastByte(bytes: seq<int>)
    requires (forall j :: 0 <= j < |bytes| ==> 0 <= bytes[j] < 256) && |bytes| > 0
    ensures Value(bytes) == 256 * Value(bytes[..|bytes| - 1]) + bytes[|bytes| - 1]
  {
  }

  /** Once byte `i` is the first that is not zero, each later byte adds eight bits. */
  lemma {:induction false} HighByte(bytes: seq<int>, i: nat)
    requires (forall j :: 0 <= j < |bytes| ==> 0 <= bytes[j] < 256) && i < |bytes| && bytes[i] != 0 &&
      Value(bytes[..i]) == 0
    ensures Value(bytes) > 0
    ensures BitLength(Value(bytes)) == BitLength(bytes[i]) + 8 * (|bytes| - 1 - i)
    ensures 1 <= BitLength(bytes[i]) <= 8
    decreases |bytes|
  {
    hide BitLength, Pow2, Value;
    var n := |bytes|;
    var init := bytes[..n - 1];
    ByteBits(bytes[i]);
    LastByte(bytes);
    if i < n - 1 {
      assert init[..i] == bytes[..i];
      HighByte(init, i);
      ShiftBits(Value(init), bytes[n - 1]);
    }
  }

  lemma {:induction false} ShiftBits(x: int, b: int)
    requires x > 0 && 0 <= b < 256
    ensures BitLength(256 * x + b) == BitLength(x) + 8
  {
    var n := BitLength(x);
    Pow2Sum(n, 8);
    Pow2Sum(n - 1, 8);
    assert Pow2(8) == 256;
    BitLengthUnique(256 * x + b, n + 8);
  }

  /** How many more leading zero bits the hash has than its target asks for. */
  function PowLevel(hash: U256, target: U256): nat {
    if !MeetsTarget(hash, target) then 0 else
      BitLengthGrows(hash, target);
      BitLength(target) - BitLength(hash)
  }

  /** A solution of level `k` is below twice the target over `2^k`. */
  lemma {:induction false} LevelBound(hash: U256, target: U256)
    requires MeetsTarget(hash, target) && target > 0
    ensures hash * Pow2(PowLevel(hash, target)) < 2 * target
  {
    BitLengthGrows(hash, target);
    var j, m := BitLength(hash), BitLength(target);
    Pow2Sum(j, m - j);
    MulStrict(hash, Pow2(j), Pow2(m - j));
    assert Pow2(m) == 2 * Pow2(m - 1);
  }

  lemma {:induction false} MulStrict(x: int, y: int, b: int)
    requires x < y && b > 0
    ensures x * b < y * b
  {
    MulLe(x + 1, y, b);
    assert (x + 1) * b == x * b + b;
  }

  /** The tighter bound that the source comments claim, the target over `2^k`, holds for all solutions
      exactly when the target is one or two below a power of two. */
  lemma {:induction false} LevelClaim(target: U256)
    requires target > 0
    ensures (forall h: U256 {:trigger PowLevel(h, target)} :: MeetsTarget(h, target) ==>
      h * Pow2(PowLevel(h, target)) <= target)
      <==> target + 2 >= Pow2(BitLength(target))
  {
    var m := BitLength(target);
    if target + 2 >= Pow2(m) {
      forall h: U256 | MeetsTarget(h, target)
        ensures h * Pow2(PowLevel(h, target)) <= target
      {
        LevelFits(h, target);
      }
    } else {
      LevelMisses(target);
      var h := Pow2(m - 1) - 1;
      Pow2Grows(m - 1, m);
      assert h * Pow2(PowLevel(h, target)) > target;
    }
  }

  lemma {:induction false} LevelFits(h: U256, target: U256)
    requires MeetsTarget(h, target) && target > 0 && target + 2 >= Pow2(BitLength(target))
    ensures h * Pow2(PowLevel(h, target)) <= target
  {
    BitLengthGrows(h, target);
    var j, m := BitLength(h), BitLength(target);
    Pow2Sum(j, m - j);
    if j < m {
      Pow2Grows(1, m - j);
      assert Pow2(1) == 2;
      hide BitLength, Pow2;
      LessOne(h, Pow2(j), Pow2(m - j));
    }
  }

  lemma {:induction false} LessOne(h: int, p: int, q: int)
    requires 0 <= h < p && q >= 1
    ensures h * q <= p * q - q
  {
    MulLe(h, p - 1, q);
    assert (p - 1) * q == p * q - q;
  }

  lemma {:induction false} LevelMisses(target: U256)
    requires target > 0 && target + 2 < Pow2(BitLength(target))
    ensures var h := Pow2(BitLength(target) - 1) - 1;
      0 <= h <= target && h <= U256_MAX && MeetsTarget(h, target) && h * Pow2(PowLevel(h, target)) > target
  {
    var m := BitLength(target);
    assert m == 1 ==> Pow2(m) == 2;
    var h := Pow2(m - 1) - 1;
    assert Pow2(m - 1) == 2 * Pow2(m - 2);
    assert m >= 3 || h == 1;
    BitLengthUnique(h, m - 1);
    assert Pow2(1) == 2;
    assert h * 2 == Pow2(m) - 2;
  }
}
