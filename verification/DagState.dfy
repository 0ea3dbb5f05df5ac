/** What the DAG node keeps beside its engine, and how its parts must fit together. */
module DagState {
  import opened Types
  import opened Dag
  import opened Ghostdag
  import opened Colouring
  import opened Agreement
  import opened Linearization
  import opened Anchor
  import opened NiPoPoW
  import opened Replay
  import opened Target
  import opened Difficulty

  // ---------- headers ----------

  ghost predicate HeaderOk(headers: Headers, g: Graph, gd: Ghosts, identify: DagHeader -> Hash, b: Hash) {
    && b in headers && identify(headers[b]) == b
    && (b != g.genesis ==>
      && b in gd && b in g.parents && Listed(headers[b].parents) == Listed(g.parents[b]) && b <= headers[b].target
      && var sp := gd[b].selectedParent;
        sp in headers && headers[b].interlink == Interlink(headers[sp].interlink, Level(sp, headers[sp]), sp))
  }

  /** A header for every block of the engine: its parents, its solved target, its committed interlink. */
  ghost predicate HeadersOk(headers: Headers, g: Graph, gd: Ghosts, identify: DagHeader -> Hash) {
    && headers.Keys == Suffix(g)
    && forall b {:trigger HeaderOk(headers, g, gd, identify, b)} :: b in headers ==>
      HeaderOk(headers, g, gd, identify, b)
  }

  lemma {:induction false} HeaderKeys(headers: Headers, g: Graph, gd: Ghosts, identify: DagHeader -> Hash)
    requires HeadersOk(headers, g, gd, identify)
    ensures headers.Keys == Suffix(g)
  {
  }

  // ---------- tips ----------

  ghost predicate Childless(g: Graph, b: Hash) {
    forall c :: c in g.parents ==> b !in g.parents[c]
  }

  /** The tips are the blocks without children. */
  ghost predicate TipsOk(g: Graph, tips: seq<Hash>) {
    Distinct(tips) && forall b :: b in tips <==> b in Suffix(g) && Childless(g, b)
  }

  /** Tips are pairwise unrelated, so a block on top of any of them has no redundant parent. */
  lemma {:induction false} TipsUnrelated(g: Graph, tips: seq<Hash>, p: Hash, q: Hash)
    requires PastOk(g.parents, g.past) && TipsOk(g, tips) && p in tips && q in tips
    ensures q in g.past && p !in g.past[q]
  {
    if p in g.past[q] {
      HasChild(g, p, q);
    }
  }

  lemma {:induction false} HasChild(g: Graph, p: Hash, q: Hash)
    requires PastOk(g.parents, g.past) && q in g.past && p in g.past[q]
    ensures !Childless(g, p)
    decreases g.past[q]
  {
    assert PastStep(g.parents, g.past, q);
    var r :| r in g.parents[q] && Below(g.past, p, r);
    PastSmaller(g.parents, g.past, r, q);
    if p != r {
      HasChild(g, p, r);
    }
  }

  /** The heaviest block is a tip. */
  lemma {:induction false} HeaviestIsTip(g: Graph, gd: Ghosts, tips: seq<Hash>, tip: Hash)
    requires GdOk(g, gd) && TipsOk(g, tips) && Heaviest(gd, gd.Keys - {ORIGIN}, tip)
    ensures tip in tips
  {
    forall c | c in g.parents
      ensures tip !in g.parents[c]
    {
      if tip in g.parents[c] {
        PastSmaller(g.parents, g.past, tip, c);
        RootPasts(g);
        assert c in gd.Keys - {ORIGIN};
        WorkGrows(g, gd, tip, c);
      }
    }
  }

  /** A new block takes the place of its parents among the tips. */
  lemma {:induction false} TipsAfter(g: Graph, tips: seq<Hash>, n: Hash, ps: seq<Hash>, whole: set<Hash>,
                                     tips': seq<Hash>)
    requires TipsOk(g, tips) && n !in g.parents && n != ORIGIN && (forall p :: p in ps ==> p in g.parents) &&
      (forall b, q :: b in g.parents && q in g.parents[b] ==> q in g.parents)
    requires Distinct(tips') && forall b :: b in tips' <==> b == n || (b in tips && b !in ps)
    ensures TipsOk(Extended(g, n, ps, whole), tips')
  {
    var g' := Extended(g, n, ps, whole);
    forall b
      ensures b in tips' <==> b in Suffix(g') && Childless(g', b)
    {
      if b in Suffix(g') {
        assert Childless(g', b) <==> b !in ps && Childless(g, b) by {
          if Childless(g', b) {
            assert b !in g'.parents[n];
            forall c | c in g.parents
              ensures b !in g.parents[c]
            {
              assert b !in g'.parents[c];
            }
          }
        }
      }
    }
  }

  // ---------- the cached state ----------

  datatype Checkpoint<S> = Checkpoint(len: nat, lastId: Hash, accounts: S)

  /** Everything that replaying depends on, with the transactions of all blocks, dropped or not. */
  datatype Ledger<!S> = Ledger(step: Step<S>, genesis: Hash, headers: Headers, full: Txs, base: S)

  /** The state after the given blocks. */
  ghost function StateAfter<S>(l: Ledger<S>, blocks: seq<Hash>): S {
    Run(l.step, l.headers, l.full, l.genesis, l.base, blocks)
  }

  datatype Cache<S> = Cache(state: Option<S>, executed: seq<Hash>, checkpoint: Option<Checkpoint<S>>)

  /** The transactions at hand: all, but for checkpointed blocks whose bodies were dropped. */
  ghost predicate TxsKept(full: Txs, txs: Txs, frozen: seq<Hash>) {
    forall b :: (b in txs ==> b in full && txs[b] == full[b]) && (b in full && b !in txs ==> b in frozen)
  }

  /** The cache is the replay of what it says it executed; the checkpoint is the replay of the prefix
      `frozen`. Only blocks with transactions have bodies, and they are dropped only below a checkpoint. */
  ghost predicate CacheOk<S>(l: Ledger<S>, txs: Txs, pruned: bool, based: bool, c: Cache<S>, frozen: seq<Hash>) {
    && TxsKept(l.full, txs, frozen)
    && (c.state.Some? ==> c.state.value == StateAfter(l, c.executed))
    && (match c.checkpoint
        case None => frozen == [] && (pruned ==> based)
        case Some(cp) =>
          |frozen| == cp.len > 0 && frozen[cp.len - 1] == cp.lastId && cp.accounts == StateAfter(l, frozen))
    && (if c.state.Some? then frozen <= c.executed else c.executed == [])
    && (forall b :: b in c.executed || b in frozen ==> b in l.headers)
    && (forall b :: b in l.full ==> b in l.headers && l.full[b] != [])
    && (!pruned ==> forall b :: b in l.full ==> b in txs)
  }

  /** The transactions at hand suffice to run the listed blocks. */
  ghost predicate AtHand(full: Txs, txs: Txs, genesis: Hash, order: seq<Hash>) {
    forall b :: b in order && b != genesis ==> TxsOf(txs, b) == TxsOf(full, b)
  }

  lemma {:induction false} AtHandRuns<S>(l: Ledger<S>, txs: Txs, s: S, order: seq<Hash>)
    requires AtHand(l.full, txs, l.genesis, order)
    ensures Run(l.step, l.headers, txs, l.genesis, s, order) == Run(l.step, l.headers, l.full, l.genesis, s, order)
  {
    forall b | b in order
      ensures SameBlock(l.headers, txs, l.genesis, l.headers, l.full, l.genesis, b)
    {
    }
    RunSame(l.step, l.headers, txs, l.genesis, l.headers, l.full, l.genesis, s, order);
  }

  /** Bodies are needed: with a step that writes down what it ran, a replay with other transactions
      shows, so it is right for all steps exactly when the transactions at hand suffice. */
  lemma {:induction false} BodiesNeeded(headers: Headers, full: Txs, txs: Txs, genesis: Hash, order: seq<Hash>)
    ensures Run(Trace(), headers, txs, genesis, [], order) == Run(Trace(), headers, full, genesis, [], order) <==>
      AtHand(full, txs, genesis, order)
  {
    TraceLength(headers, txs, genesis, order);
    TraceLength(headers, full, genesis, order);
    if |order| > 0 {
      var init, b := order[..|order| - 1], order[|order| - 1];
      BodiesNeeded(headers, full, txs, genesis, init);
      TraceLength(headers, txs, genesis, init);
      TraceLength(headers, full, genesis, init);
      assert order == init + [b];
      var u, v := Run(Trace(), headers, txs, genesis, [], init), Run(Trace(), headers, full, genesis, [], init);
      if b != genesis && u + [TxsOf(txs, b)] == v + [TxsOf(full, b)] {
        assert u == (u + [TxsOf(txs, b)])[..|u|] && v == (v + [TxsOf(full, b)])[..|v|];
        assert (u + [TxsOf(txs, b)])[|u|] == (v + [TxsOf(full, b)])[|v|];
      }
    }
  }

  lemma {:induction false} TraceLength(headers: Headers, txs: Txs, genesis: Hash, order: seq<Hash>)
    ensures |Run(Trace(), headers, txs, genesis, [], order)| == Ran(genesis, order)
  {
    if |order| > 0 {
      TraceLength(headers, txs, genesis, order[..|order| - 1]);
    }
  }

  ghost function Ran(genesis: Hash, order: seq<Hash>): nat {
    if |order| == 0 then 0 else Ran(genesis, order[..|order| - 1]) + if order[|order| - 1] == genesis then 0 else 1
  }

  /** What comes after the dropped bodies runs as it would with all of them. */
  lemma {:induction false} TailRuns<S>(l: Ledger<S>, txs: Txs, frozen: seq<Hash>, order: seq<Hash>, n: nat)
    requires TxsKept(l.full, txs, frozen) && frozen <= order && |frozen| <= n <= |order| && Distinct(order)
    ensures Run(l.step, l.headers, txs, l.genesis, StateAfter(l, order[..n]), order[n..]) == StateAfter(l, order)
  {
    forall b | b in order[n..]
      ensures SameBlock(l.headers, txs, l.genesis, l.headers, l.full, l.genesis, b)
    {
      var i :| 0 <= i < |order| - n && order[n..][i] == b;
      assert order[n + i] == b;
      assert forall j :: 0 <= j < |frozen| ==> frozen[j] == order[j] != b;
    }
    RunSame(l.step, l.headers, txs, l.genesis, l.headers, l.full, l.genesis, StateAfter(l, order[..n]), order[n..]);
    RunConcat(l.step, l.headers, l.full, l.genesis, l.base, order[..n], order[n..]);
    assert order[..n] + order[n..] == order;
  }

  /** A checkpoint taken from the last one, after the blocks in between. */
  lemma {:induction false} NextCheckpoint<S>(l: Ledger<S>, txs: Txs, frozen: seq<Hash>, executed: seq<Hash>,
                                             target: nat)
    requires TxsKept(l.full, txs, frozen) && frozen <= executed && |frozen| <= target <= |executed| &&
      Distinct(executed)
    ensures Run(l.step, l.headers, txs, l.genesis, StateAfter(l, frozen), executed[|frozen|..target]) ==
      StateAfter(l, executed[..target])
  {
    var front := executed[..target];
    assert front[|frozen|..] == executed[|frozen|..target] && front[..|frozen|] == frozen;
    TailRuns(l, txs, frozen, front, |frozen|);
  }

  lemma {:induction false} InTurnDistinct(past: Pasts, order: seq<Hash>)
    requires InTurn(past, order)
    ensures Distinct(order)
  {
    forall i, j | 0 <= i < j < |order|
      ensures order[i] != order[j]
    {
      assert !Below(past, order[j], order[i]);
    }
  }

  /** A larger frozen prefix still excuses the dropped bodies. */
  lemma {:induction false} TxsKeptLonger(full: Txs, txs: Txs, frozen: seq<Hash>, frozen': seq<Hash>)
    requires TxsKept(full, txs, frozen) && frozen <= frozen'
    ensures TxsKept(full, txs, frozen')
  {
    forall b | b in frozen
      ensures b in frozen'
    {
      var i :| 0 <= i < |frozen| && frozen[i] == b;
      assert frozen'[i] == b;
    }
  }

  // ---------- the three ways to the current state ----------

  lemma {:induction false} AllAtHand<S>(l: Ledger<S>, txs: Txs, frozen: seq<Hash>, s: S, order: seq<Hash>)
    requires TxsKept(l.full, txs, frozen) && forall b :: b in l.full ==> b in txs
    ensures Run(l.step, l.headers, txs, l.genesis, s, order) == Run(l.step, l.headers, l.full, l.genesis, s, order)
  {
    forall b | b in order
      ensures SameBlock(l.headers, txs, l.genesis, l.headers, l.full, l.genesis, b)
    {
    }
    RunSame(l.step, l.headers, txs, l.genesis, l.headers, l.full, l.genesis, s, order);
  }

  /** Appending what is new, restarting from the checkpoint, and replaying everything all lead to the
      replay of the whole order, as long as the order still begins with the checkpointed blocks. */
  lemma {:induction false} ThreeWays<S>(l: Ledger<S>, txs: Txs, pruned: bool, based: bool, c: Cache<S>,
                                        frozen: seq<Hash>, order: seq<Hash>)
    requires CacheOk(l, txs, pruned, based, c, frozen) && frozen <= order && Distinct(order)
    ensures c.state.Some? && c.executed <= order ==>
      Run(l.step, l.headers, txs, l.genesis, c.state.value, order[|c.executed|..]) == StateAfter(l, order)
    ensures c.checkpoint.Some? ==>
      var cp := c.checkpoint.value;
      |order| >= cp.len > 0 && order[cp.len - 1] == cp.lastId &&
        Run(l.step, l.headers, txs, l.genesis, cp.accounts, order[cp.len..]) == StateAfter(l, order)
    ensures c.checkpoint.None? || !pruned ==>
      Run(l.step, l.headers, txs, l.genesis, l.base, order) == StateAfter(l, order)
    ensures c.checkpoint.None? ==> based || !pruned
  {
    if c.state.Some? && c.executed <= order {
      assert order[..|c.executed|] == c.executed;
      TailRuns(l, txs, frozen, order, |c.executed|);
    }
    if c.checkpoint.Some? {
      assert order[..|frozen|] == frozen;
      TailRuns(l, txs, frozen, order, |frozen|);
    }
    if c.checkpoint.None? || !pruned {
      AllAtHand(l, txs, frozen, l.base, order);
    }
  }

  lemma {:induction false} CacheNow<S>(l: Ledger<S>, txs: Txs, pruned: bool, based: bool, c: Cache<S>,
                                       frozen: seq<Hash>, order: seq<Hash>)
    requires CacheOk(l, txs, pruned, based, c, frozen) && frozen <= order && forall b :: b in order ==> b in l.headers
    ensures CacheOk(l, txs, pruned, based, Cache(Some(StateAfter(l, order)), order, c.checkpoint), frozen)
  {
  }

  lemma {:induction false} CacheAdvanced<S>(l: Ledger<S>, txs: Txs, pruned: bool, based: bool, c: Cache<S>,
                                            frozen: seq<Hash>, target: nat)
    requires CacheOk(l, txs, pruned, based, c, frozen) && c.state.Some? && |frozen| < target <= |c.executed|
    ensures var frozen' := c.executed[..target];
      CacheOk(l, txs, pruned, based,
        c.(checkpoint := Some(Checkpoint(target, c.executed[target - 1], StateAfter(l, frozen')))), frozen')
  {
    TxsKeptLonger(l.full, txs, frozen, c.executed[..target]);
    assert forall b :: b in c.executed[..target] ==> b in c.executed;
  }

  /** The order lists known blocks, once each. */
  lemma {:induction false} OrderFacts(g: Graph, gd: Ghosts, b: Hash)
    requires GdOk(g, gd) && b in gd && b != ORIGIN
    ensures Distinct(Linear(g, gd, b)) && |Linear(g, gd, b)| > 0 && forall x :: x in Linear(g, gd, b) ==> x in Suffix(g)
  {
    hide GdOk, Linear, InTurn, Rooted, PastOk, Distinct;
    GraphParts(g, gd);
    LinearInTurn(g, gd, b);
    InTurnDistinct(g.past, Linear(g, gd, b));
    LinearCovers(g, gd, b);
    LastIsBlock(g, gd, b);
    PastKnownIn(g, b);
    InSuffix(g, Linear(g, gd, b), b);
  }

  lemma {:induction false} InSuffix(g: Graph, order: seq<Hash>, b: Hash)
    requires b in g.past && Listed(order) == g.past[b] - {ORIGIN} + {b} &&
      g.past[b] <= g.past.Keys == g.parents.Keys && b != ORIGIN
    ensures forall x :: x in order ==> x in Suffix(g)
  {
    forall x | x in order
      ensures x in Suffix(g)
    {
      assert x in Listed(order);
    }
  }

  // ---------- the next target ----------

  /** Timestamps and targets of the listed blocks, as far as their headers are known. */
  function SamplesOf(headers: Headers, chain: seq<Hash>): seq<Sample> {
    if |chain| == 0 then [] else
      var b := chain[|chain| - 1];
      SamplesOf(headers, chain[..|chain| - 1]) + if b in headers then [Sample(headers[b].timestamp, headers[b].target)]
        else []
  }

  lemma {:induction false} SamplesSame(headers: Headers, headers': Headers, chain: seq<Hash>)
    requires forall b :: b in chain ==> b in headers && b in headers' && headers[b] == headers'[b]
    ensures SamplesOf(headers, chain) == SamplesOf(headers', chain)
  {
    if |chain| > 0 {
      assert forall b :: b in chain[..|chain| - 1] ==> b in chain;
      SamplesSame(headers, headers', chain[..|chain| - 1]);
    }
  }

  /** One sample for every block, with its own timestamp and target. */
  lemma {:induction false} SamplesAre(headers: Headers, chain: seq<Hash>)
    requires forall b :: b in chain ==> b in headers
    ensures var samples := SamplesOf(headers, chain);
      && |samples| == |chain|
      && forall i {:trigger samples[i]} :: 0 <= i < |chain| ==>
        samples[i].timestamp == headers[chain[i]].timestamp && samples[i].target == headers[chain[i]].target
  {
    if |chain| > 0 {
      assert forall b :: b in chain[..|chain| - 1] ==> b in chain;
      SamplesAre(headers, chain[..|chain| - 1]);
    }
  }

  /** Until the chain has one block more than the window the target of its last block is kept, and for
      good if the window is shorter than two. */
  lemma {:induction false} TargetHeld(headers: Headers, chain: seq<Hash>, window: nat, blockTime: nat,
                                      genesisTarget: U256)
    requires |chain| > 0 && (forall b :: b in chain ==> b in headers) && (window < 2 || |chain| <= window)
    ensures TargetAfter(SamplesOf(headers, Last(chain, window + 1)),
      Params(if blockTime < 1 then 1 else blockTime, if window < 2 then 2 else window), genesisTarget) ==
        headers[chain[|chain| - 1]].target
  {
    assert forall b :: b in Last(chain, window + 1) ==> b in chain;
    SamplesAre(headers, Last(chain, window + 1));
  }

  /** Later on, blocks on time whose targets ask for the same work keep it, but for at most one. */
  lemma {:induction false} TargetSteady(headers: Headers, chain: seq<Hash>, window: nat, blockTime: nat,
                                        genesisTarget: U256, work: int)
    requires window >= 2 && blockTime >= 1 && |chain| > window && forall b :: b in chain ==> b in headers
    requires forall i {:trigger chain[i]} :: |chain| - window <= i < |chain| ==>
      headers[chain[i]].timestamp - headers[chain[i - 1]].timestamp == blockTime &&
      WorkForTarget(headers[chain[i]].target) == work
    requires 1 <= work && work * work <= TWO_256 && work * (blockTime * (window * (window + 1) / 2)) <= U256_MAX
    ensures var next := TargetAfter(SamplesOf(headers, Last(chain, window + 1)), Params(blockTime, window),
        genesisTarget);
      WorkForTarget(next) == work || WorkForTarget(next) == work - 1
  {
    hide TargetAfter, WorkForTarget, SamplesOf;
    var last := Last(chain, window + 1);
    assert forall b :: b in last ==> b in chain;
    SamplesAre(headers, last);
    var recent := SamplesOf(headers, last);
    forall j {:trigger recent[j]} | |recent| - window <= j < |recent|
      ensures recent[j].timestamp - recent[j - 1].timestamp == blockTime && WorkForTarget(recent[j].target) == work
    {
      var i := |chain| - window - 1 + j;
      assert last[j] == chain[i] && last[j - 1] == chain[i - 1];
      assert recent[j].target == headers[last[j]].target && recent[j - 1].timestamp == headers[last[j - 1]].timestamp;
    }
    OnTimeKept(recent, work, Params(blockTime, window), genesisTarget);
  }
}
