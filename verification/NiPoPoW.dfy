/** Succinct proofs of work: interlinks that point to the last block of each level, the walk along
    the highest pointers, and its verifier. */
module NiPoPoW {
  import opened Types
  import opened Target

  datatype DagHeader = DagHeader(parents: seq<Hash>, timestamp: int, target: U256, interlink: seq<Hash>, nonce: nat,
                                 miner: Hash)

  type Headers = map<Hash, DagHeader>

  function Level(id: Hash, h: DagHeader): nat {
    if id <= U256_MAX then PowLevel(id, h.target) else 0
  }

  // ---------- interlinks ----------

  /** The pointers of a block on top of `sp`: those of `sp`, with levels up to its own pointing to it. */
  function Interlink(il: seq<Hash>, level: nat, sp: Hash): seq<Hash> {
    seq(if |il| <= level then level + 1 else |il|, k requires k >= 0 => if k <= level || k >= |il| then sp else il[k])
  }

  method InterlinkForParent(headers: Headers, sp: Hash) returns (il: seq<Hash>)
    ensures il == if sp in headers then Interlink(headers[sp].interlink, Level(sp, headers[sp]), sp) else []
    ensures sp in headers ==>
      var h := headers[sp];
      var level := if sp <= h.target then BitLength(h.target) - BitLength(sp) else 0;
      && |il| == (if |h.interlink| > level then |h.interlink| else level + 1)
      && forall k {:trigger il[k]} :: 0 <= k < |il| ==> il[k] == if k <= level then sp else h.interlink[k]
  {
    if sp !in headers {
      return [];
    }
    var level := Level(sp, headers[sp]);
    ghost var old' := headers[sp].interlink;
    il := headers[sp].interlink;
    for k := 0 to level + 1
      invariant |il| == if |old'| <= k then k else |old'|
      invariant forall j :: 0 <= j < |il| ==> il[j] == if j < k then sp else old'[j]
    {
      if k < |il| {
        il := il[k := sp];
      } else {
        il := il + [sp];
      }
    }
  }

  // ---------- a chain of selected parents ----------

  /** Block `i` of the chain has a header that commits to its interlink. */
  ghost predicate LinkOk(all: Headers, chain: seq<Hash>, i: nat)
    requires i < |chain|
  {
    && chain[i] in all
    && (i == 0 ==> all[chain[0]].interlink == [])
    && (i > 0 ==>
      chain[i - 1] in all &&
      all[chain[i]].interlink ==
      Interlink(all[chain[i - 1]].interlink, Level(chain[i - 1], all[chain[i - 1]]), chain[i - 1]))
  }

  ghost predicate Chained(all: Headers, chain: seq<Hash>) {
    && |chain| > 0
    && (forall i {:trigger LinkOk(all, chain, i)} :: 0 <= i < |chain| ==> LinkOk(all, chain, i))
    && forall i, j :: 0 <= i < j < |chain| ==> chain[i] != chain[j]
  }

  ghost function LevelAt(all: Headers, chain: seq<Hash>, i: nat): nat
    requires i < |chain|
  {
    if chain[i] in all then Level(chain[i], all[chain[i]]) else 0
  }

  /** No earlier block of the chain has a higher level. */
  ghost predicate IsMaximum(all: Headers, chain: seq<Hash>, i: nat)
    requires i < |chain|
  {
    forall j :: 0 <= j < i ==> LevelAt(all, chain, j) <= LevelAt(all, chain, i)
  }

  /** The weak left-to-right maxima of the levels of the first `n` blocks. */
  ghost function Maxima(all: Headers, chain: seq<Hash>, n: nat): seq<nat>
    requires n <= |chain|
  {
    if n == 0 then [] else Maxima(all, chain, n - 1) + if IsMaximum(all, chain, n - 1) then [n - 1] else []
  }

  /** The last block of the highest level among the first `n`. */
  ghost predicate LastTop(all: Headers, chain: seq<Hash>, n: nat, m: nat)
    requires n <= |chain|
  {
    && m < n
    && (forall j :: 0 <= j < n ==> LevelAt(all, chain, j) <= LevelAt(all, chain, m))
    && (forall j :: m < j < n ==> LevelAt(all, chain, j) < LevelAt(all, chain, m))
  }

  /** Pointer `k` of a block leads to the last earlier block of level `k` or more. */
  ghost predicate Points(all: Headers, chain: seq<Hash>, n: nat, k: nat, m: nat)
    requires n <= |chain|
  {
    m < n && LevelAt(all, chain, m) >= k && forall j :: m < j < n ==> LevelAt(all, chain, j) < k
  }

  ghost predicate PointersOk(all: Headers, chain: seq<Hash>, n: nat)
    requires n < |chain|
  {
    chain[n] in all && forall k: nat {:trigger PointerOk(all, chain, n, k)} :: k < |all[chain[n]].interlink| ==>
      PointerOk(all, chain, n, k)
  }

  ghost predicate PointerOk(all: Headers, chain: seq<Hash>, n: nat, k: nat)
    requires n < |chain| && chain[n] in all && k < |all[chain[n]].interlink|
  {
    exists m: nat :: Points(all, chain, n, k, m) && all[chain[n]].interlink[k] == chain[m]
  }

  lemma {:induction false} Pointers(all: Headers, chain: seq<Hash>, n: nat)
    requires Chained(all, chain) && n < |chain|
    ensures PointersOk(all, chain, n)
    ensures forall j :: 0 <= j < n ==> LevelAt(all, chain, j) < |all[chain[n]].interlink|
    ensures n > 0 ==> |all[chain[n]].interlink| > 0
  {
    assert LinkOk(all, chain, n);
    if n > 0 {
      Pointers(all, chain, n - 1);
      var il, before := all[chain[n]].interlink, all[chain[n - 1]].interlink;
      var level := LevelAt(all, chain, n - 1);
      hide Level;
      assert il == Interlink(before, level, chain[n - 1]);
      assert |before| <= |il| && level < |il|;
      forall k: nat | k < |il|
        ensures PointerOk(all, chain, n, k)
      {
        if k <= level {
          assert Points(all, chain, n, k, n - 1);
        } else {
          assert k < |before| && il[k] == before[k];
          assert PointerOk(all, chain, n - 1, k);
          var m: nat :| Points(all, chain, n - 1, k, m) && before[k] == chain[m];
          assert Points(all, chain, n, k, m);
        }
      }
    }
  }

  /** The highest pointer leads to the last block of the highest level so far. */
  lemma {:induction false} TopPointer(all: Headers, chain: seq<Hash>, n: nat) returns (m: nat)
    requires Chained(all, chain) && 0 < n < |chain|
    ensures chain[n] in all && |all[chain[n]].interlink| > 0
    ensures LastTop(all, chain, n, m) && all[chain[n]].interlink[|all[chain[n]].interlink| - 1] == chain[m]
  {
    Pointers(all, chain, n);
    var il := all[chain[n]].interlink;
    assert PointerOk(all, chain, n, |il| - 1);
    m :| Points(all, chain, n, |il| - 1, m) && il[|il| - 1] == chain[m];
  }

  /** The maxima are those up to the last top and then the top itself. */
  lemma {:induction false} MaximaTop(all: Headers, chain: seq<Hash>, n: nat, m: nat)
    requires n <= |chain| && LastTop(all, chain, n, m)
    ensures Maxima(all, chain, n) == Maxima(all, chain, m) + [m]
    decreases n
  {
    if m < n - 1 {
      assert LevelAt(all, chain, n - 1) < LevelAt(all, chain, m);
      assert !IsMaximum(all, chain, n - 1);
      MaximaTop(all, chain, n - 1, m);
    } else {
      assert IsMaximum(all, chain, m);
    }
  }

  lemma {:induction false} MaximaExact(all: Headers, chain: seq<Hash>, n: nat, i: nat)
    requires n <= |chain|
    ensures i in Maxima(all, chain, n) <==> i < n && IsMaximum(all, chain, i)
  {
    if n > 0 {
      MaximaExact(all, chain, n - 1, i);
    }
  }

  /** The headers at the given places of the chain. */
  ghost function HeadersAt(all: Headers, chain: seq<Hash>, places: seq<nat>): seq<DagHeader>
    requires forall k :: 0 <= k < |places| ==> places[k] < |chain| && chain[places[k]] in all
  {
    seq(|places|, k requires 0 <= k < |places| => all[chain[places[k]]])
  }

  /** The proof for block `n` of the chain: the maxima before it, then the block itself. */
  ghost function ProofOf(all: Headers, chain: seq<Hash>, n: nat): seq<DagHeader>
    requires Chained(all, chain) && n < |chain|
  {
    MaximaInChain(all, chain, n);
    HeadersAt(all, chain, Places(all, chain, n))
  }

  /** The places of the proof for block `n`. */
  ghost function Places(all: Headers, chain: seq<Hash>, n: nat): seq<nat>
    requires n < |chain|
  {
    Maxima(all, chain, n) + [n]
  }

  lemma {:induction false} MaximaInChain(all: Headers, chain: seq<Hash>, n: nat)
    requires Chained(all, chain) && n < |chain|
    ensures forall k :: 0 <= k < |Places(all, chain, n)| ==>
      Places(all, chain, n)[k] < |chain| && chain[Places(all, chain, n)[k]] in all
  {
    var places := Places(all, chain, n);
    forall k | 0 <= k < |places|
      ensures places[k] < |chain| && chain[places[k]] in all
    {
      var i := places[k];
      assert k < |places| - 1 ==> i in Maxima(all, chain, n);
      MaximaExact(all, chain, n, i);
      assert LinkOk(all, chain, i);
    }
  }

  lemma {:induction false} ProofStep(all: Headers, chain: seq<Hash>, n: nat, m: nat)
    requires Chained(all, chain) && n < |chain| && LastTop(all, chain, n, m)
    ensures chain[n] in all && ProofOf(all, chain, n) == ProofOf(all, chain, m) + [all[chain[n]]]
  {
    MaximaInChain(all, chain, n);
    MaximaInChain(all, chain, m);
    MaximaTop(all, chain, n, m);
    assert LinkOk(all, chain, n);
    assert Places(all, chain, n) == Places(all, chain, m) + [n];
  }

  lemma {:induction false} ProofStart(all: Headers, chain: seq<Hash>)
    requires Chained(all, chain)
    ensures chain[0] in all && ProofOf(all, chain, 0) == [all[chain[0]]]
  {
    MaximaInChain(all, chain, 0);
    assert LinkOk(all, chain, 0);
    assert Places(all, chain, 0) == [0];
  }

  // ---------- building a proof from what is retained ----------

  const GUARD := 1_000_000

  /** The full chain is `chain` with headers `all`. Kept are the headers from place `o` on and, if
      anything was dropped, the proof for place `o`. */
  ghost predicate Retained(headers: Headers, pruned: bool, proof: seq<DagHeader>, all: Headers, chain: seq<Hash>,
                           o: nat, identify: DagHeader -> Hash) {
    && Chained(all, chain) && o < |chain|
    && (forall i {:trigger chain[i]} :: 0 <= i < |chain| ==> chain[i] in all && identify(all[chain[i]]) == chain[i])
    && (forall i {:trigger chain[i]} :: o <= i < |chain| ==> chain[i] in headers && headers[chain[i]] == all[chain[i]])
    && (forall i {:trigger chain[i]} :: 0 <= i < o ==> chain[i] !in headers)
    && (o > 0 ==> pruned && proof == ProofOf(all, chain, o))
  }

  /** Block `i` can still be looked up. */
  ghost predicate Found(all: Headers, chain: seq<Hash>, o: nat, i: nat)
    requires o < |chain|
  {
    i < |chain| && (i >= o || i in Places(all, chain, o))
  }

  method FindHeader(headers: Headers, pruned: bool, proof: seq<DagHeader>, cur: Hash, identify: DagHeader -> Hash,
                    ghost all: Headers, ghost chain: seq<Hash>, ghost o: nat, ghost i: nat)
      returns (h: Option<DagHeader>)
    requires Retained(headers, pruned, proof, all, chain, o, identify) && Found(all, chain, o, i) && cur == chain[i]
    ensures chain[i] in all && h == Some(all[chain[i]])
  {
    assert chain[i] in all;
    if cur in headers {
      return Some(headers[cur]);
    } else if pruned {
      InProof(all, chain, o, i, identify);
      for k := 0 to |proof|
        invariant forall l :: 0 <= l < k ==> identify(proof[l]) != cur
      {
        ProofAt(all, chain, o, k);
        if identify(proof[k]) == cur {
          assert proof[k] == all[chain[Places(all, chain, o)[k]]];
          return Some(proof[k]);
        }
      }
      return None;
    } else {
      return None;
    }
  }

  lemma {:induction false} ProofAt(all: Headers, chain: seq<Hash>, o: nat, k: nat)
    requires Chained(all, chain) && o < |chain| && k < |ProofOf(all, chain, o)|
    ensures k < |Places(all, chain, o)| && Places(all, chain, o)[k] < |chain|
    ensures chain[Places(all, chain, o)[k]] in all && ProofOf(all, chain, o)[k] == all[chain[Places(all, chain, o)[k]]]
  {
    MaximaInChain(all, chain, o);
  }

  lemma {:induction false} InProof(all: Headers, chain: seq<Hash>, o: nat, i: nat, identify: DagHeader -> Hash)
    requires Chained(all, chain) && o < |chain| && i < |chain| && i in Places(all, chain, o) && chain[i] in all &&
      identify(all[chain[i]]) == chain[i]
    ensures exists k :: 0 <= k < |ProofOf(all, chain, o)| && identify(ProofOf(all, chain, o)[k]) == chain[i]
  {
    MaximaInChain(all, chain, o);
    var k :| 0 <= k < |Places(all, chain, o)| && Places(all, chain, o)[k] == i;
    ProofAt(all, chain, o, k);
  }

  /** A top so far is a maximum, and if it was pruned it is in the retained proof. */
  lemma {:induction false} TopFound(all: Headers, chain: seq<Hash>, n: nat, m: nat, o: nat)
    requires Chained(all, chain) && n < |chain| && o < |chain| && LastTop(all, chain, n, m)
    ensures Found(all, chain, o, m)
  {
    assert IsMaximum(all, chain, m);
    if m < o {
      MaximaExact(all, chain, o, m);
    }
  }

  lemma {:induction false} RetainedChain(headers: Headers, pruned: bool, proof: seq<DagHeader>, all: Headers,
                                         chain: seq<Hash>, o: nat, identify: DagHeader -> Hash)
    requires Retained(headers, pruned, proof, all, chain, o, identify)
    ensures Chained(all, chain) && forall i, j :: 0 <= i < j < |chain| ==> chain[i] != chain[j]
  {
  }

  lemma {:induction false} FoundLate(all: Headers, chain: seq<Hash>, o: nat, n: nat)
    requires o <= n < |chain|
    ensures Found(all, chain, o, n)
  {
  }

  lemma {:induction false} IdentityAt(headers: Headers, pruned: bool, proof: seq<DagHeader>, all: Headers,
                                      chain: seq<Hash>, o: nat, identify: DagHeader -> Hash, i: nat)
    requires Retained(headers, pruned, proof, all, chain, o, identify) && i < |chain|
    ensures chain[i] in all && identify(all[chain[i]]) == chain[i]
  {
    assert chain[i] in all;
  }

  lemma {:induction false} ProofLength(all: Headers, chain: seq<Hash>, n: nat)
    requires Chained(all, chain) && n < |chain|
    ensures |ProofOf(all, chain, n)| == |Places(all, chain, n)| >= 1
  {
    MaximaInChain(all, chain, n);
  }

  lemma {:induction false} TopSmaller(all: Headers, chain: seq<Hash>, n: nat, m: nat)
    requires n <= |chain| && LastTop(all, chain, n, m)
    ensures m < n
  {
  }

  lemma {:induction false} NoInterlink(all: Headers, chain: seq<Hash>)
    requires Chained(all, chain)
    ensures chain[0] in all && all[chain[0]].interlink == []
  {
    assert LinkOk(all, chain, 0);
  }

  /** The proof for block `n`, built from the retained headers and the retained proof, is the one that
      the full history would give. */
  method BuildProofFor(headers: Headers, pruned: bool, retained: seq<DagHeader>, p: Hash, identify: DagHeader -> Hash,
                       ghost all: Headers, ghost chain: seq<Hash>, ghost o: nat, ghost n: nat)
      returns (proof: seq<DagHeader>)
    requires Retained(headers, pruned, retained, all, chain, o, identify) && o <= n < |chain| && p == chain[n]
    requires |Places(all, chain, n)| <= GUARD + 1
    ensures proof == ProofOf(all, chain, n)
  {
    proof := [];
    var cur, guard, seen: set<Hash> := p, 0, {};
    ghost var i: nat := n;
    hide Retained, LastTop, Found, Maxima;
    RetainedChain(headers, pruned, retained, all, chain, o, identify);
    FoundLate(all, chain, o, n);
    while true
      invariant i <= n && cur == chain[i] && Found(all, chain, o, i)
      invariant ProofOf(all, chain, n) == ProofOf(all, chain, i) + proof
      invariant guard == |proof| <= GUARD
      invariant forall x :: x in seen ==> exists j :: i < j <= n && x == chain[j]
      decreases i
    {
      var found := FindHeader(headers, pruned, retained, cur, identify, all, chain, o, i);
      if found.None? {
        break;
      }
      var h := found.value;
      IdentityAt(headers, pruned, retained, all, chain, o, identify, i);
      ProofLength(all, chain, n);
      ProofLength(all, chain, i);
      if identify(h) in seen {
        break;
      }
      seen := seen + {identify(h)};
      proof := [h] + proof;
      if i > 0 {
        ghost var m := TopPointer(all, chain, i);
        ProofStep(all, chain, i, m);
        TopFound(all, chain, i, m, o);
        TopSmaller(all, chain, i, m);
        ProofLength(all, chain, m);
        i := m;
      } else {
        ProofStart(all, chain);
        NoInterlink(all, chain);
      }
      if |h.interlink| == 0 {
        break;
      }
      var next := h.interlink[|h.interlink| - 1];
      if next == cur {
        break;
      }
      cur := next;
      guard := guard + 1;
      if guard > GUARD {
        break;
      }
    }
  }

  /** Two chains carry the same headers up to place `n`. */
  ghost predicate SameUpTo(all: Headers, chain: seq<Hash>, all': Headers, chain': seq<Hash>, n: nat) {
    && n <= |chain| && n <= |chain'|
    && forall i {:trigger chain[i]} {:trigger chain'[i]} :: 0 <= i < n ==>
      chain[i] == chain'[i] && chain[i] in all && chain[i] in all' && all[chain[i]] == all'[chain[i]]
  }

  lemma {:induction false} MaximaPrefix(all: Headers, chain: seq<Hash>, all': Headers, chain': seq<Hash>, n: nat)
    requires SameUpTo(all, chain, all', chain', n)
    ensures Maxima(all, chain, n) == Maxima(all', chain', n)
  {
    if n > 0 {
      MaximaPrefix(all, chain, all', chain', n - 1);
      MaximumSame(all, chain, all', chain', n - 1);
      hide IsMaximum;
    }
  }

  lemma {:induction false} MaximumSame(all: Headers, chain: seq<Hash>, all': Headers, chain': seq<Hash>, n: nat)
    requires SameUpTo(all, chain, all', chain', n + 1)
    ensures IsMaximum(all, chain, n) <==> IsMaximum(all', chain', n)
  {
    forall j: nat | j <= n
      ensures LevelAt(all, chain, j) == LevelAt(all', chain', j)
    {
      assert chain[j] == chain'[j];
    }
  }

  /** The proof depends on the chain up to the block only. */
  lemma {:induction false} ProofPrefix(all: Headers, chain: seq<Hash>, all': Headers, chain': seq<Hash>, n: nat)
    requires Chained(all, chain) && Chained(all', chain') && SameUpTo(all, chain, all', chain', n + 1)
    ensures ProofOf(all, chain, n) == ProofOf(all', chain', n)
  {
    hide Chained;
    MaximaPrefix(all, chain, all', chain', n);
    MaximaInChain(all, chain, n);
    MaximaInChain(all', chain', n);
    forall k | 0 <= k < |Places(all, chain, n)|
      ensures Places(all, chain, n)[k] <= n
    {
      assert k < |Maxima(all, chain, n)| ==> Places(all, chain, n)[k] in Maxima(all, chain, n);
      MaximaExact(all, chain, n, Places(all, chain, n)[k]);
    }
  }

  /** Dropping the headers before a later place `n` and keeping the proof for it loses nothing. */
  lemma {:induction false} RetainedLater(headers: Headers, pruned: bool, proof: seq<DagHeader>, all: Headers,
                                         chain: seq<Hash>, o: nat, identify: DagHeader -> Hash,
                                         n: nat, headers': Headers)
    requires Retained(headers, pruned, proof, all, chain, o, identify) && o <= n < |chain|
    requires forall i {:trigger chain[i]} :: n <= i < |chain| ==>
      chain[i] in headers' && headers'[chain[i]] == headers[chain[i]]
    requires forall i {:trigger chain[i]} :: 0 <= i < n ==> chain[i] !in headers'
    ensures Chained(all, chain) && Retained(headers', true, ProofOf(all, chain, n), all, chain, n, identify)
  {
  }

  // ---------- verifying ----------

  function SaturatingAdd(a: int, b: int): int {
    if a + b > U256_MAX then U256_MAX else a + b
  }

  function TotalWork(proof: seq<DagHeader>): int {
    if |proof| == 0 then 0 else SaturatingAdd(TotalWork(proof[..|proof| - 1]), WorkForTarget(proof[|proof| - 1].target))
  }

  function WorkList(proof: seq<DagHeader>): seq<int> {
    seq(|proof|, i requires 0 <= i < |proof| => WorkForTarget(proof[i].target))
  }

  /** The total is the plain sum of the works, capped at 256 bits. */
  lemma {:induction false} TotalIsSum(proof: seq<DagHeader>)
    ensures TotalWork(proof) == if Sum(WorkList(proof)) > U256_MAX then U256_MAX else Sum(WorkList(proof))
    ensures Sum(WorkList(proof)) >= 0
  {
    if |proof| > 0 {
      var init := proof[..|proof| - 1];
      TotalIsSum(init);
      assert WorkList(proof)[..|proof| - 1] == WorkList(init);
      WorkPositive(proof[|proof| - 1].target);
    }
  }

  /** Header `k` has a valid proof of work and its highest pointer leads to header `k - 1`. */
  ghost predicate Step(proof: seq<DagHeader>, k: nat, identify: DagHeader -> Hash)
    requires 0 < k < |proof|
  {
    var h := proof[k];
    identify(h) <= h.target && |h.interlink| > 0 && h.interlink[|h.interlink| - 1] == identify(proof[k - 1])
  }

  ghost predicate Certified(proof: seq<DagHeader>, origin: Hash, genesis: Hash, identify: DagHeader -> Hash) {
    && |proof| > 0 && identify(proof[0]) == genesis && identify(proof[|proof| - 1]) == origin
    && forall k {:trigger Step(proof, k, identify)} :: 0 < k < |proof| ==> Step(proof, k, identify)
  }

  lemma {:induction false} SolvedHops(proof: seq<DagHeader>, origin: Hash, genesis: Hash, identify: DagHeader -> Hash)
    ensures Certified(proof, origin, genesis, identify) <==>
      && |proof| > 0 && identify(proof[0]) == genesis && identify(proof[|proof| - 1]) == origin
      && forall k {:trigger proof[k]} :: 0 < k < |proof| ==>
        && identify(proof[k]) <= proof[k].target
        && |proof[k].interlink| > 0 && proof[k].interlink[|proof[k].interlink| - 1] == identify(proof[k - 1])
  {
    if forall k {:trigger proof[k]} :: 0 < k < |proof| ==>
        && identify(proof[k]) <= proof[k].target
        && |proof[k].interlink| > 0 && proof[k].interlink[|proof[k].interlink| - 1] == identify(proof[k - 1]) {
      forall k | 0 < k < |proof|
        ensures Step(proof, k, identify)
      {
        assert proof[k] == proof[k];
      }
    }
    if Certified(proof, origin, genesis, identify) {
      forall k | 0 < k < |proof|
        ensures identify(proof[k]) <= proof[k].target && |proof[k].interlink| > 0 &&
          proof[k].interlink[|proof[k].interlink| - 1] == identify(proof[k - 1])
      {
        assert Step(proof, k, identify);
      }
    }
  }

  /** Accepts exactly the proofs from `genesis` to `origin` whose headers all meet their targets and
      point at the header before, and returns their work. */
  method VerifyProof(proof: seq<DagHeader>, origin: Hash, genesis: Hash, identify: DagHeader -> Hash)
      returns (r: Option<int>)
    ensures r == if Certified(proof, origin, genesis, identify) then Some(TotalWork(proof)) else None
    ensures r.Some? <==>
      && |proof| > 0 && identify(proof[0]) == genesis && identify(proof[|proof| - 1]) == origin
      && forall k {:trigger proof[k]} :: 0 < k < |proof| ==>
        && identify(proof[k]) <= proof[k].target
        && |proof[k].interlink| > 0 && proof[k].interlink[|proof[k].interlink| - 1] == identify(proof[k - 1])
    ensures r.Some? ==>
      var total := Sum(seq(|proof|, i requires 0 <= i < |proof| => WorkForTarget(proof[i].target)));
      r.value == if total > U256_MAX then U256_MAX else total
  {
    SolvedHops(proof, origin, genesis, identify);
    TotalIsSum(proof);
    if |proof| == 0 {
      return None;
    }
    if identify(proof[0]) != genesis {
      return None;
    }
    if identify(proof[|proof| - 1]) != origin {
      return None;
    }
    var prev := identify(proof[0]);
    var work := WorkForTarget(proof[0].target);
    assert proof[..1][..0] == [] && proof[..1][0] == proof[0];
    for k := 1 to |proof|
      invariant prev == identify(proof[k - 1]) && work == TotalWork(proof[..k])
      invariant forall j {:trigger Step(proof, j, identify)} :: 0 < j < k ==> Step(proof, j, identify)
    {
      var h := proof[k];
      if !(identify(h) <= h.target) {
        assert !Step(proof, k, identify);
        return None;
      }
      if |h.interlink| == 0 || h.interlink[|h.interlink| - 1] != prev {
        assert !Step(proof, k, identify);
        return None;
      }
      assert proof[..k + 1][..k] == proof[..k];
      work := SaturatingAdd(work, WorkForTarget(h.target));
      prev := identify(h);
      assert Step(proof, k, identify);
    }
    assert proof[..|proof|] == proof;
    return Some(work);
  }

  /** Every block of the chain but the first met its target. */
  ghost predicate Solved(all: Headers, chain: seq<Hash>, identify: DagHeader -> Hash) {
    forall i {:trigger chain[i]} :: 0 <= i < |chain| ==>
      chain[i] in all && identify(all[chain[i]]) == chain[i] && (i > 0 ==> chain[i] <= all[chain[i]].target)
  }

  /** The proof of a chain block is always accepted. */
  lemma {:induction false} ProofAccepted(all: Headers, chain: seq<Hash>, n: nat, identify: DagHeader -> Hash)
    requires Chained(all, chain) && n < |chain| && Solved(all, chain, identify)
    ensures Certified(ProofOf(all, chain, n), chain[n], chain[0], identify)
  {
    ProofLength(all, chain, n);
    if n == 0 {
      ProofStart(all, chain);
      assert chain[0] in all;
    } else {
      var m := TopPointer(all, chain, n);
      ProofStep(all, chain, n, m);
      TopSmaller(all, chain, n, m);
      ProofAccepted(all, chain, m, identify);
      assert chain[n] in all;
      hide ProofOf, Chained, LastTop, Certified, Level;
      CertifiedMore(ProofOf(all, chain, m), all[chain[n]], chain[m], chain[n], chain[0], identify);
    }
  }

  lemma {:induction false} CertifiedMore(proof: seq<DagHeader>, h: DagHeader, last: Hash, id: Hash, genesis: Hash,
                                         identify: DagHeader -> Hash)
    requires Certified(proof, last, genesis, identify) && identify(h) == id <= h.target
    requires |h.interlink| > 0 && h.interlink[|h.interlink| - 1] == last
    ensures Certified(proof + [h], id, genesis, identify)
  {
    var longer := proof + [h];
    forall k | 0 < k < |longer|
      ensures Step(longer, k, identify)
    {
      assert k < |proof| ==> Step(proof, k, identify);
    }
  }
}
