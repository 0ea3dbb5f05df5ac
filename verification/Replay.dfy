/** Executing blocks in order. Execution of one block is an unknown function of the state, the
    block's miner and its transactions. */
module Replay {
  import opened Types
  import opened NiPoPoW

  type Txs = map<Hash, seq<nat>>

  type Step<!S> = (S, Hash, seq<nat>) -> S

  function TxsOf(txs: Txs, b: Hash): seq<nat> {
    if b in txs then txs[b] else []
  }

  function MinerOf(headers: Headers, b: Hash): Hash {
    if b in headers then headers[b].miner else NONE
  }

  /** One block: genesis does nothing, every other block pays its miner and runs its transactions. */
  function Exec<S>(step: Step<S>, headers: Headers, txs: Txs, genesis: Hash, s: S, b: Hash): S {
    if b == genesis then s else step(s, MinerOf(headers, b), TxsOf(txs, b))
  }

  function Run<S>(step: Step<S>, headers: Headers, txs: Txs, genesis: Hash, s: S, blocks: seq<Hash>): S {
    if |blocks| == 0 then s else
      Exec(step, headers, txs, genesis, Run(step, headers, txs, genesis, s, blocks[..|blocks| - 1]),
        blocks[|blocks| - 1])
  }

  /** `states` are the states before, between and after the blocks: each pays the miner that its header
      names and runs its own transactions, on top of the state before. */
  ghost predicate Paid<S>(step: Step<S>, headers: Headers, txs: Txs, genesis: Hash, blocks: seq<Hash>,
                          states: seq<S>) {
    && |states| == |blocks| + 1
    && forall i {:trigger states[i + 1]} :: 0 <= i < |blocks| ==> var b := blocks[i];
      if b == genesis then states[i + 1] == states[i]
      else b in headers && states[i + 1] == step(states[i], headers[b].miner, if b in txs then txs[b] else [])
  }

  /** Replaying blocks with known headers passes through such states. */
  lemma {:induction false} RunPays<S>(step: Step<S>, headers: Headers, txs: Txs, genesis: Hash, s: S,
                                      blocks: seq<Hash>) returns (states: seq<S>)
    requires forall b :: b in blocks && b != genesis ==> b in headers
    ensures Paid(step, headers, txs, genesis, blocks, states) && states[0] == s
    ensures states[|blocks|] == Run(step, headers, txs, genesis, s, blocks)
  {
    states := [s];
    if |blocks| > 0 {
      var n := |blocks| - 1;
      assert forall b :: b in blocks[..n] ==> b in blocks;
      states := RunPays(step, headers, txs, genesis, s, blocks[..n]);
      forall i {:trigger blocks[i]} | 0 <= i < n
        ensures blocks[i] == blocks[..n][i]
      {
      }
      states := states + [Run(step, headers, txs, genesis, s, blocks)];
    }
  }

  /** The loop; it fails only if there is a reward and the header of a block to pay for is missing.
      Without a reward the miner plays no part, and the step is one that ignores it. */
  method ReplayBlocks<S>(step: Step<S>, reward: nat, headers: Headers, txs: Txs, genesis: Hash, s: S,
                         blocks: seq<Hash>) returns (ok: bool, r: S)
    ensures ok <==> reward == 0 || forall b :: b in blocks && b != genesis ==> b in headers
    ensures ok ==> r == Run(step, headers, txs, genesis, s, blocks)
    ensures ok && (forall b :: b in blocks && b != genesis ==> b in headers) ==>
      exists states :: Paid(step, headers, txs, genesis, blocks, states) && states[0] == s && states[|blocks|] == r
  {
    r := s;
    for i := 0 to |blocks|
      invariant reward == 0 || forall b :: b in blocks[..i] && b != genesis ==> b in headers
      invariant r == Run(step, headers, txs, genesis, s, blocks[..i])
    {
      var b := blocks[i];
      assert blocks[..i + 1] == blocks[..i] + [b];
      assert blocks[..i + 1][..i] == blocks[..i];
      if b == genesis {
        continue;
      }
      if reward > 0 && b !in headers {
        return false, r;
      }
      r := step(r, MinerOf(headers, b), TxsOf(txs, b));
    }
    assert blocks[..|blocks|] == blocks;
    if forall b :: b in blocks && b != genesis ==> b in headers {
      ghost var states := RunPays(step, headers, txs, genesis, s, blocks);
    }
    return true, r;
  }

  /** Replaying one list after another is replaying both. */
  lemma {:induction false} RunConcat<S>(step: Step<S>, headers: Headers, txs: Txs, genesis: Hash, s: S, a: seq<Hash>,
                                        b: seq<Hash>)
    ensures Run(step, headers, txs, genesis, s, a + b) ==
      Run(step, headers, txs, genesis, Run(step, headers, txs, genesis, s, a), b)
  {
    if |b| == 0 {
      assert a + b == a;
    } else {
      assert (a + b)[..|a + b| - 1] == a + b[..|b| - 1];
      RunConcat(step, headers, txs, genesis, s, a, b[..|b| - 1]);
    }
  }

  /** A block runs alike under two sets of headers and transactions. */
  ghost predicate SameBlock(headers: Headers, txs: Txs, genesis: Hash, headers': Headers, txs': Txs, genesis': Hash,
                            b: Hash) {
    if b == genesis then b == genesis'
      else b != genesis' && MinerOf(headers, b) == MinerOf(headers', b) && TxsOf(txs, b) == TxsOf(txs', b)
  }

  lemma {:induction false} RunSame<S>(step: Step<S>, headers: Headers, txs: Txs, genesis: Hash, headers': Headers,
                                      txs': Txs, genesis': Hash, s: S, blocks: seq<Hash>)
    requires forall b {:trigger SameBlock(headers, txs, genesis, headers', txs', genesis', b)} :: b in blocks ==>
      SameBlock(headers, txs, genesis, headers', txs', genesis', b)
    ensures Run(step, headers, txs, genesis, s, blocks) == Run(step, headers', txs', genesis', s, blocks)
  {
    if |blocks| > 0 {
      var init := blocks[..|blocks| - 1];
      assert SameBlock(headers, txs, genesis, headers', txs', genesis', blocks[|blocks| - 1]);
      assert forall b :: b in init ==> b in blocks;
      RunSame(step, headers, txs, genesis, headers', txs', genesis', s, init);
    }
  }

  /** Starting over at block `p` with the state after it: `p` itself is not run again. */
  lemma {:induction false} RunFrom<S>(step: Step<S>, headers: Headers, txs: Txs, genesis: Hash, headers': Headers,
                                      txs': Txs, p: Hash, s: S, before: seq<Hash>, after: seq<Hash>)
    requires forall b :: b in after ==>
      b != p && b != genesis && MinerOf(headers, b) == MinerOf(headers', b) && TxsOf(txs, b) == TxsOf(txs', b)
    ensures Run(step, headers', txs', p, Run(step, headers, txs, genesis, s, before + [p]), [p] + after)
      == Run(step, headers, txs, genesis, s, before + [p] + after)
  {
    var mid := Run(step, headers, txs, genesis, s, before + [p]);
    RunConcat(step, headers, txs, genesis, s, before + [p], after);
    RunConcat(step, headers', txs', p, mid, [p], after);
    assert [p][..0] == [];
    assert Run(step, headers', txs', p, mid, [p]) == mid;
    forall b | b in after
      ensures SameBlock(headers, txs, genesis, headers', txs', p, b)
    {
    }
    RunSame(step, headers, txs, genesis, headers', txs', p, mid, after);
  }

  // ---------- who is paid ----------

  /** A step that writes down whom it pays and what it runs. */
  function Diary(): Step<seq<(Hash, seq<nat>)>> {
    (s: seq<(Hash, seq<nat>)>, miner: Hash, txs: seq<nat>) => s + [(miner, txs)]
  }

  /** A replay pays the miners that the headers name and runs the blocks' own transactions, for every
      block but genesis, in order. */
  lemma {:induction false} DiaryIs(headers: Headers, txs: Txs, genesis: Hash, s: seq<(Hash, seq<nat>)>,
                                   blocks: seq<Hash>)
    requires genesis !in blocks && forall b :: b in blocks ==> b in headers
    ensures Run(Diary(), headers, txs, genesis, s, blocks) ==
      s + seq(|blocks|, i requires 0 <= i < |blocks| =>
        (headers[blocks[i]].miner, if blocks[i] in txs then txs[blocks[i]] else []))
    ensures Run(Diary(), headers, txs, genesis, s, [genesis] + blocks) ==
      Run(Diary(), headers, txs, genesis, s, blocks)
  {
    RunConcat(Diary(), headers, txs, genesis, s, [genesis], blocks);
    assert [genesis][..0] == [];
    assert Run(Diary(), headers, txs, genesis, s, [genesis]) == s;
    if |blocks| > 0 {
      var init := blocks[..|blocks| - 1];
      assert forall b :: b in init ==> b in blocks;
      DiaryIs(headers, txs, genesis, s, init);
    }
  }

  // ---------- how good the checkpoint test is ----------

  /** A step that only writes down which transactions ran. */
  function Trace(): Step<seq<seq<nat>>> {
    (s: seq<seq<nat>>, miner: Hash, txs: seq<nat>) => s + [txs]
  }

  /** Every block carries one transaction: its own id. */
  ghost predicate SelfNamed(txs: Txs, blocks: seq<Hash>) {
    forall b :: b in blocks ==> b in txs && txs[b] == [b]
  }

  lemma {:induction false} TraceIs(headers: Headers, txs: Txs, genesis: Hash, s: seq<seq<nat>>, blocks: seq<Hash>)
    requires SelfNamed(txs, blocks) && genesis !in blocks
    ensures var r := Run(Trace(), headers, txs, genesis, s, blocks);
      |r| == |s| + |blocks| && r[..|s|] == s && forall i :: 0 <= i < |blocks| ==> r[|s| + i] == [blocks[i]]
  {
    if |blocks| > 0 {
      TraceIs(headers, txs, genesis, s, blocks[..|blocks| - 1]);
    }
  }

  /** Continuing from a checkpoint whose blocks are the beginning of the order gives the state of the
      whole order, for every way of executing blocks. */
  lemma {:induction false} PrefixSuffices<S>(step: Step<S>, headers: Headers, txs: Txs, genesis: Hash, s: S,
                                             frozen: seq<Hash>, order: seq<Hash>)
    requires frozen <= order
    ensures Run(step, headers, txs, genesis, Run(step, headers, txs, genesis, s, frozen), order[|frozen|..]) ==
      Run(step, headers, txs, genesis, s, order)
  {
    RunConcat(step, headers, txs, genesis, s, frozen, order[|frozen|..]);
    assert frozen + order[|frozen|..] == order;
  }

  /** And only then: of two orders that begin with genesis, a checkpoint of the first leads to the state
      of the second, with a step that writes down what it ran, exactly when it is its beginning. */
  lemma {:induction false} PrefixExactly(headers: Headers, txs: Txs, genesis: Hash, frozen: seq<Hash>, order: seq<Hash>)
    requires 0 < |frozen| <= |order| && frozen[0] == order[0] == genesis && genesis !in frozen[1..] &&
      genesis !in order[1..]
    requires SelfNamed(txs, frozen[1..]) && SelfNamed(txs, order[1..])
    ensures Run(Trace(), headers, txs, genesis, Run(Trace(), headers, txs, genesis, [], frozen), order[|frozen|..]) ==
      Run(Trace(), headers, txs, genesis, [], order)
      <==> frozen <= order
  {
    var f, o := frozen[1..], order[1..];
    assert frozen == [genesis] + f && order == [genesis] + o && order[|frozen|..] == o[|f|..];
    GenesisIdle(headers, txs, genesis, f);
    GenesisIdle(headers, txs, genesis, o);
    if Run(Trace(), headers, txs, genesis, Run(Trace(), headers, txs, genesis, [], frozen), order[|frozen|..]) ==
      Run(Trace(), headers, txs, genesis, [], order) {
      PrefixNeeded(headers, txs, genesis, f, o);
    }
    if frozen <= order {
      PrefixSuffices(Trace(), headers, txs, genesis, [], frozen, order);
    }
  }

  lemma {:induction false} GenesisIdle(headers: Headers, txs: Txs, genesis: Hash, rest: seq<Hash>)
    ensures Run(Trace(), headers, txs, genesis, [], [genesis] + rest) == Run(Trace(), headers, txs, genesis, [], rest)
  {
    RunConcat(Trace(), headers, txs, genesis, [], [genesis], rest);
    var none := [genesis][..0];
    assert |none| == 0;
    assert Run(Trace(), headers, txs, genesis, [], none) == [];
  }

  lemma {:induction false} PrefixNeeded(headers: Headers, txs: Txs, genesis: Hash, frozen: seq<Hash>, order: seq<Hash>)
    requires |frozen| <= |order| && SelfNamed(txs, frozen) && SelfNamed(txs, order) && genesis !in frozen &&
      genesis !in order
    requires Run(Trace(), headers, txs, genesis, Run(Trace(), headers, txs, genesis, [], frozen), order[|frozen|..]) ==
      Run(Trace(), headers, txs, genesis, [], order)
    ensures frozen <= order
  {
    var n := |frozen|;
    TraceIs(headers, txs, genesis, [], frozen);
    TraceIs(headers, txs, genesis, [], order);
    var mid := Run(Trace(), headers, txs, genesis, [], frozen);
    assert forall b :: b in order[n..] ==> b in order;
    TraceIs(headers, txs, genesis, mid, order[n..]);
    var r := Run(Trace(), headers, txs, genesis, mid, order[n..]);
    forall i | 0 <= i < n
      ensures frozen[i] == order[i]
    {
      assert r[..n][i] == mid[i] && mid[0 + i] == [frozen[i]] && r[0 + i] == [order[i]];
    }
  }
}
