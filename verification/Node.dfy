/** A node at work: blocks offered in any order, queries, dropped bodies and prunes. Whatever the
    requests, the state it reports is the replay of everything since the first genesis. */
module Node {
  import opened Types
  import opened Dag
  import opened Ghostdag
  import opened Colouring
  import opened Linearization
  import opened TreeOps
  import opened Engine
  import opened Anchor
  import opened NiPoPoW
  import opened Replay
  import opened DagState
  import opened Pruning
  import D = DagChain

  /** `Offer` is a block from outside, `Ask` a query, `Shorten` drops the bodies below the checkpoint,
      `Shrink` prunes. */
  datatype Request = Offer(header: DagHeader, txs: seq<nat>) | Ask | Shorten | Shrink

  /** The node is sound, its bodies suffice for a full replay from a base, and there is room for
      `n` more blocks. */
  ghost predicate Ready<S>(node: D.DagChain<S>, n: nat)
    reads node, node.engine, node.engine.manager, node.engine.manager.reach
  {
    && node.Sound() && Injective(node.identify) && Full(node.base, node.full, node.blockTxs)
    && |node.blocks| + n <= CAPACITY && node.engine.Room(n)
  }

  ghost predicate Full<S>(base: Option<S>, full: Txs, txs: Txs) {
    base.Some? ==> forall b :: b in full ==> b in txs
  }

  /** The replay of the whole history: what was pruned, then the current order. */
  ghost function History<S>(node: D.DagChain<S>): S
    requires |node.stem| > 0
    reads node, node.engine, node.engine.manager
  {
    Run(node.step, node.history, node.ever, node.stem[0], node.initial, node.dropped + node.Order())
  }

  lemma {:induction false} HistoryIs<S>(node: D.DagChain<S>)
    requires node.Sound()
    ensures |node.stem| > 0 && History(node) == node.TrueState()
  {
    node.OrderKnown();
    GenesisFirst(node.engine.g, node.engine.manager.gd, node.engine.tip);
    WholeReplay(node.Book(), node.initial, node.history, node.ever, node.stem[0], node.dropped, node.gone,
      node.Order());
  }

  /** Since the first genesis every block, pruned or not, paid the miner of its header and ran its own
      transactions. */
  lemma {:induction false} HistoryPays<S>(node: D.DagChain<S>)
    requires node.Sound()
    ensures |node.stem| > 0
    ensures var blocks := node.dropped + node.Order();
      exists states :: Paid(node.step, node.history, node.ever, node.stem[0], blocks, states) &&
        states[0] == node.initial && states[|blocks|] == History(node)
  {
    hide Linear, Run, Paid, Chained, Solved, ProofOf, Barred;
    node.OrderKnown();
    var blocks := node.dropped + node.Order();
    forall b | b in blocks
      ensures b in node.history
    {
      assert b in node.dropped ==> b in Listed(node.dropped);
    }
    var states := RunPays(node.step, node.history, node.ever, node.stem[0], node.initial, blocks);
  }

  /** A new node that holds genesis alone. */
  method Open<S>(k: nat, header: DagHeader, step: Step<S>, initial: S, reward: nat, identify: DagHeader -> Hash,
                 lwmaWindow: nat, blockTime: nat, finalityDepth: nat)
      returns (node: D.DagChain<S>)
    requires Injective(identify) && identify(header) != NONE && identify(header) != ORIGIN && header.parents == [] &&
      header.interlink == []
    ensures fresh(node) && fresh(node.engine) && fresh(node.engine.manager) && fresh(node.engine.manager.reach)
    ensures Ready(node, CAPACITY - 1) && node.Order() == [identify(header)] && node.TrueState() == initial
    ensures node.step == step && node.identify == identify && node.initial == initial &&
      node.stem == [identify(header)] && node.dropped == []
  {
    hide DagEngine.Valid, DagEngine.Room, Injective, D.DagChain<S>.Sound;
    var engine := new DagEngine(k, identify(header));
    D.FirstAccepted(engine);
    var _, _ := engine.AddBlock(identify(header), [ORIGIN]);
    node := new D.DagChain<S>(engine, header, step, initial, reward, identify, lwmaWindow, blockTime, finalityDepth);
    GenesisOnly(node);
  }

  lemma {:induction false} GenesisOnly<S>(node: D.DagChain<S>)
    requires node.Sound() && node.blocks == {node.genesis} && node.base.None?
    ensures node.Order() == [node.genesis] && node.TrueState() == node.initial
  {
    node.OrderKnown();
    OrderInBlocks(node);
    GenesisFirst(node.engine.g, node.engine.manager.gd, node.engine.tip);
    var order := node.Order();
    DistinctSize(order);
    SubsetCount(Listed(order), {node.genesis});
    assert order == [node.genesis];
    GenesisRuns(node.Book());
  }

  lemma {:induction false} GenesisRuns<S>(l: Ledger<S>)
    ensures StateAfter(l, [l.genesis]) == l.base
  {
    var none := [l.genesis][..0];
    assert |none| == 0;
    assert Run(l.step, l.headers, l.full, l.genesis, l.base, none) == l.base;
  }

  /** Serves the requests one after the other and then reports the state. It cannot run out of labels.
      There is no report only if the order below the checkpoint changed after its bodies were dropped. */
  method Serve<S>(node: D.DagChain<S>, requests: seq<Request>) returns (state: Option<S>)
    requires Ready(node, |requests|)
    modifies node, node.engine, node.engine.manager, node.engine.manager.reach
    ensures node.Sound() && |node.stem| > 0
    ensures state.Some? ==> state.value == node.TrueState() == History(node)
    ensures state.None? ==> node.historyPruned && node.base.None? && node.checkpoint.Some?
    ensures state.None? ==>
      !(node.frozen <= node.Order() &&
      node.checkpoint.value.lastId in Chain(node.engine.g, node.engine.manager.gd, node.engine.tip))
  {
    hide Ready, Full, D.DagChain<S>.Sound, D.DagChain<S>.Core, D.DagChain<S>.CacheInv, D.DagChain<S>.PlaceInv,
      D.DagChain<S>.StemInv, D.DagChain<S>.StoryInv,
      D.DagChain<S>.Continues, D.DagChain<S>.BodiesAtHand, D.DagChain<S>.UpToDate, D.DagChain<S>.Order,
        D.DagChain<S>.TrueState, DagEngine.Room, DagEngine.Valid, DagEngine.Started,
      Injective, History, Linear, Chain, Run, StateAfter, GdOk;
    for i := 0 to |requests|
      invariant Ready(node, |requests| - i)
      invariant node.engine == old(node.engine) ||
        (fresh(node.engine) && fresh(node.engine.manager) && fresh(node.engine.manager.reach))
    {
      ReadyLess(node, |requests| - i, |requests| - i - 1);
      match requests[i]
      case Offer(header, txs) => Take(node, header, txs, |requests| - i);
      case Ask => var _ := Report(node, |requests| - i - 1);
      case Shorten => DropBodies(node, |requests| - i - 1);
      case Shrink => PruneIfClean(node, |requests| - i - 1);
    }
    state := Report(node, 0);
    ReadyParts(node, 0);
  }

  lemma {:induction false} ReadyParts<S>(node: D.DagChain<S>, n: nat)
    requires Ready(node, n)
    ensures node.Sound() && node.Core() && node.CacheInv() && node.PlaceInv() && node.StemInv() &&
      Injective(node.identify) && Full(node.base, node.full, node.blockTxs)
    ensures (node.checkpoint.Some? ==> node.checkpoint.value.len > 0) && |node.blocks| + n <= CAPACITY &&
      node.engine.Room(n)
    ensures node.base.Some? || !node.historyPruned ==> node.BodiesAtHand()
    ensures |node.Order()| <= |node.blocks|
    ensures |node.stem| > 0 && History(node) == node.TrueState()
  {
    hide D.DagChain<S>.Sound, D.DagChain<S>.Core, D.DagChain<S>.CacheInv, D.DagChain<S>.PlaceInv,
      D.DagChain<S>.StemInv, D.DagChain<S>.BodiesAtHand, Full, Injective, History,
      D.DagChain<S>.Order, D.DagChain<S>.TrueState, DagEngine.Room, Linear, Run;
    SoundFacts(node);
    FewBlocks(node);
    HistoryIs(node);
  }

  lemma {:induction false} SoundFacts<S>(node: D.DagChain<S>)
    requires node.Sound() && Full(node.base, node.full, node.blockTxs)
    ensures node.Core() && node.CacheInv() && node.PlaceInv() && node.StemInv() &&
      (node.checkpoint.Some? ==> node.checkpoint.value.len > 0)
    ensures node.base.Some? || !node.historyPruned ==> node.BodiesAtHand()
  {
    hide D.DagChain<S>.StoryInv, DagEngine.Valid, DagEngine.Started, Linear, Chain, Run, StateAfter, StemOk,
      PlacesOk, HeadersOk,
      TipsOk, Lean;
  }

  lemma {:induction false} ReadyLess<S>(node: D.DagChain<S>, n: nat, m: nat)
    requires Ready(node, n) && m <= n
    ensures Ready(node, m)
  {
    RoomLess(node.engine, n, m);
  }

  lemma {:induction false} ReadyNow<S>(node: D.DagChain<S>, n: nat)
    requires node.Sound() && Injective(node.identify) && Full(node.base, node.full, node.blockTxs) &&
      |node.blocks| + n <= CAPACITY && node.engine.Room(n)
    ensures Ready(node, n)
  {
  }

  /** A query: the cached way if the checkpoint fits, else a replay of everything. */
  method Report<S>(node: D.DagChain<S>, ghost n: nat) returns (state: Option<S>)
    requires Ready(node, n)
    modifies node`state, node`executed, node`checkpoint, node`frozen, node`stateTip, node`frozenTip
    ensures Ready(node, n) && |node.stem| > 0
    ensures state.Some? ==> state.value == node.TrueState() == History(node)
    ensures state.None? ==> node.historyPruned && node.base.None? && node.checkpoint.Some?
    ensures state.None? ==>
      !(node.frozen <= node.Order() &&
      node.checkpoint.value.lastId in Chain(node.engine.g, node.engine.manager.gd, node.engine.tip))
  {
    hide Ready, Full, D.DagChain<S>.Sound, D.DagChain<S>.Core, D.DagChain<S>.CacheInv, D.DagChain<S>.PlaceInv,
      D.DagChain<S>.StemInv, D.DagChain<S>.StoryInv,
      D.DagChain<S>.Continues, D.DagChain<S>.BodiesAtHand, D.DagChain<S>.UpToDate, D.DagChain<S>.Order,
        D.DagChain<S>.TrueState, DagEngine.Room, DagEngine.Valid, DagEngine.Started,
      Injective, History, Linear, Chain, Run, StateAfter, GdOk;
    ReadyParts(node, n);
    var fits := node.CheckpointFits();
    if fits {
      state := node.VirtualState();
      ReadyNow(node, n);
      ReadyParts(node, n);
    } else {
      state := node.RebuildState();
    }
  }

  lemma {:induction false} RoomLess(engine: DagEngine, n: nat, m: nat)
    requires engine.Room(n) && m <= n
    ensures engine.Room(m)
  {
    LessSpace(engine.manager.reach, DEFAULT_REINDEX_SLACK, n, m);
  }

  /** Offers a block, unless it has related parents or the id of a sentinel. */
  method Take<S>(node: D.DagChain<S>, header: DagHeader, txs: seq<nat>, ghost n: nat)
    requires Ready(node, n) && n > 0
    modifies node, node.engine, node.engine.manager, node.engine.manager.reach
    ensures Ready(node, n - 1) && node.engine == old(node.engine)
  {
    hide Ready, Full, D.DagChain<S>.Sound, D.DagChain<S>.Core, D.DagChain<S>.CacheInv, D.DagChain<S>.PlaceInv,
      D.DagChain<S>.StemInv, D.DagChain<S>.StoryInv,
      D.DagChain<S>.Continues, D.DagChain<S>.BodiesAtHand, D.DagChain<S>.UpToDate, D.DagChain<S>.Order,
        D.DagChain<S>.TrueState, DagEngine.Room, DagEngine.Valid, DagEngine.Started,
      Injective, History, Linear, Chain, Run, StateAfter, GdOk;
    ReadyParts(node, n);
    RoomLess(node.engine, n, n - 1);
    ReadyNow(node, n - 1);
    var id := node.identify(header);
    if id == NONE || id == ORIGIN {
      return;
    }
    var unrelated := ParentsUnrelated(node, header.parents);
    if !unrelated {
      return;
    }
    ghost var blocks0, full0, txs0 := node.blocks, node.full, node.blockTxs;
    assert node.engine.Room(n);
    var v, _ := node.Accept(header, txs);
    if v == D.Stored {
      Counted(blocks0, id);
      GrownParts(node, blocks0, full0, txs0, id, txs, old(node.headers), header);
      ReadyNow(node, n - 1);
    }
  }

  lemma {:induction false} GrownParts<S>(node: D.DagChain<S>, blocks0: set<Hash>, full0: Txs, txs0: Txs, id: Hash,
                                         txs: seq<nat>, headers0: Headers, header: DagHeader)
    requires node.Grown(blocks0, headers0, full0, txs0, id, header, txs) && Full(node.base, full0, txs0)
    ensures node.blocks == blocks0 + {id} && Full(node.base, node.full, node.blockTxs)
  {
  }

  lemma {:induction false} Counted(blocks: set<Hash>, id: Hash)
    ensures |blocks + {id}| <= |blocks| + 1
  {
    if id in blocks {
      assert blocks + {id} == blocks;
    } else {
      OneMore(blocks, id);
    }
  }

  /** Asks the index whether one listed block precedes another. */
  method ParentsUnrelated<S>(node: D.DagChain<S>, parents: seq<Hash>) returns (unrelated: bool)
    requires node.Core()
    ensures unrelated ==>
      forall p, q :: p in parents && q in parents && p in node.blocks && q in node.blocks ==>
      q in node.engine.g.past && p !in node.engine.g.past[q]
  {
    hide D.DagChain<S>.Core, Linear, GdOk, DagEngine.Valid;
    CoreIndex(node);
    for i := 0 to |parents|
      invariant forall k, q :: 0 <= k < i && q in parents && parents[k] in node.blocks && q in node.blocks ==>
        parents[k] !in node.engine.g.past[q]
    {
      for j := 0 to |parents|
        invariant forall l :: 0 <= l < j && parents[i] in node.blocks && parents[l] in node.blocks ==>
          parents[i] !in node.engine.g.past[parents[l]]
      {
        var p, q := parents[i], parents[j];
        if p in node.blocks && q in node.blocks && p != q {
          var below := node.engine.manager.IsAncestor(p, q, node.engine.g);
          if below {
            return false;
          }
        }
      }
    }
    return true;
  }

  lemma {:induction false} CoreIndex<S>(node: D.DagChain<S>)
    requires node.Core()
    ensures node.engine.manager.Serves(node.engine.g)
    ensures forall p :: p in node.blocks ==> p in node.engine.g.past && p !in node.engine.g.past[p]
  {
    node.CoreParts();
    node.engine.ValidIndex();
    forall p | p in node.blocks
      ensures p in node.engine.g.past && p !in node.engine.g.past[p]
    {
      NotOwnPast(node.engine.g.parents, node.engine.g.past, p);
    }
  }

  /** Drops the bodies below the checkpoint, unless a prune has moved the base or nothing was executed. */
  method DropBodies<S>(node: D.DagChain<S>, ghost n: nat)
    requires Ready(node, n)
    modifies node`blockTxs, node`historyPruned, node`state, node`executed
    ensures Ready(node, n)
  {
    hide Ready, Full, D.DagChain<S>.Sound, D.DagChain<S>.Core, D.DagChain<S>.CacheInv, D.DagChain<S>.PlaceInv,
      D.DagChain<S>.StemInv, D.DagChain<S>.StoryInv,
      D.DagChain<S>.Continues, D.DagChain<S>.BodiesAtHand, D.DagChain<S>.UpToDate, D.DagChain<S>.Order,
        D.DagChain<S>.TrueState, DagEngine.Room, DagEngine.Valid, DagEngine.Started,
      Injective, History, Linear, Chain, Run, StateAfter, GdOk;
    ReadyParts(node, n);
    if node.base.Some? || (node.checkpoint.Some? && |node.executed| < node.checkpoint.value.len) {
      return;
    }
    var _ := node.PruneFinalizedTransactions();
    assert Full(node.base, node.full, node.blockTxs) by {
      NoBase(node);
    }
    ReadyNow(node, n);
  }

  lemma {:induction false} NoBase<S>(node: D.DagChain<S>)
    requires node.base.None?
    ensures Full(node.base, node.full, node.blockTxs)
  {
  }

  /** Prunes if the checkpoint fits and everything kept descends from the cut. */
  method PruneIfClean<S>(node: D.DagChain<S>, ghost n: nat)
    requires Ready(node, n)
    modifies node
    ensures Ready(node, n)
    ensures node.engine == old(node.engine) ||
      (fresh(node.engine) && fresh(node.engine.manager) && fresh(node.engine.manager.reach))
  {
    hide Ready, Full, D.DagChain<S>.Sound, D.DagChain<S>.Core, D.DagChain<S>.CacheInv, D.DagChain<S>.PlaceInv,
      D.DagChain<S>.StemInv, D.DagChain<S>.StoryInv,
      D.DagChain<S>.Continues, D.DagChain<S>.BodiesAtHand, D.DagChain<S>.UpToDate, D.DagChain<S>.Order,
        D.DagChain<S>.TrueState, DagEngine.Room, DagEngine.Valid, DagEngine.Started,
      Injective, History, Linear, Chain, Run, StateAfter, GdOk, D.DagChain<S>.CutFits, D.DagChain<S>.Fits,
        D.DagChain<S>.CutPlace, D.DagChain<S>.BaseLost, D.DagChain<S>.Pruned;
    ReadyParts(node, n);
    var fits := node.CheckpointFits();
    if !fits {
      return;
    }
    var clean := CutIsClean(node);
    if !clean {
      return;
    }
    ghost var blocks0 := node.blocks;
    assert node.CutPlace() > 0 ==> node.Fits() by {
      RoomToPrune(node);
    }
    var r := node.Prune();
    if r.Some? && old(node.CutPlace()) > 0 {
      SubsetCount(node.blocks, blocks0);
      FewBlocks(node);
      RoomLess(node.engine, CAPACITY - |node.Order()|, n);
      assert Full(node.base, node.full, node.blockTxs) by {
        PrunedBodies(node, old(node.Order()), old(node.CutPlace()), old(node.engine.tip), old(node.TrueState()));
      }
      ReadyNow(node, n);
    }
  }

  lemma {:induction false} RoomToPrune<S>(node: D.DagChain<S>)
    requires |node.Order()| <= CAPACITY
    ensures node.Fits()
  {
  }

  lemma {:induction false} PrunedBodies<S>(node: D.DagChain<S>, order0: seq<Hash>, i: nat, tip0: Hash, state0: S)
    requires i < |order0| && node.Pruned(order0, i, tip0, state0)
    ensures Full(node.base, node.full, node.blockTxs)
  {
  }

  lemma {:induction false} FewBlocks<S>(node: D.DagChain<S>)
    requires node.Sound()
    ensures |node.Order()| <= |node.blocks|
  {
    node.OrderKnown();
    node.CoreParts();
    DistinctSize(node.Order());
    HeaderKeys(node.headers, node.engine.g, node.engine.manager.gd, node.identify);
    SubsetCount(Listed(node.Order()), node.blocks);
  }

  /** Asks the index whether all blocks after the cut descend from the block there, and bounds the
      length of its proof. */
  method CutIsClean<S>(node: D.DagChain<S>) returns (clean: bool)
    requires node.Core() && node.StemInv()
    ensures clean ==> node.CutFits()
  {
    hide D.DagChain<S>.Core, D.DagChain<S>.StemInv, Linear, Chain, GdOk, DagEngine.Valid, CutOf, CleanAbove;
    node.CoreEngine();
    CoreIndex(node);
    node.OrderKnown();
    OrderInBlocks(node);
    var order := node.engine.TotalOrder();
    var i := node.FindCut(order);
    if i == 0 {
      return true;
    }
    var chain := node.engine.SelectedChain();
    if |node.proof| + |chain| > GUARD {
      return false;
    }
    for j := i + 1 to |order|
      invariant forall k :: i < k < j ==> Below(node.engine.g.past, order[i], order[k])
    {
      var below := node.engine.manager.IsAncestor(order[i], order[j], node.engine.g);
      if !below {
        return false;
      }
    }
    CleanFrom(node.engine.g, node.engine.manager.gd, node.engine.tip, i);
    ShortEnough(node, order[i]);
    return true;
  }

  lemma {:induction false} OrderInBlocks<S>(node: D.DagChain<S>)
    requires node.Core()
    ensures forall b :: b in node.Order() ==> b in node.blocks
  {
    node.OrderKnown();
    node.CoreParts();
    HeaderKeys(node.headers, node.engine.g, node.engine.manager.gd, node.identify);
  }

  lemma {:induction false} CleanFrom(g: Graph, gd: Ghosts, tip: Hash, i: nat)
    requires GdOk(g, gd) && tip in gd && tip != ORIGIN && i < |Linear(g, gd, tip)| &&
      Linear(g, gd, tip)[i] in Chain(g, gd, tip)
    requires forall k :: i < k < |Linear(g, gd, tip)| ==> Below(g.past, Linear(g, gd, tip)[i], Linear(g, gd, tip)[k])
    ensures CleanAbove(g, tip, Linear(g, gd, tip)[i])
  {
    var order := Linear(g, gd, tip);
    var p := order[i];
    PrunePlace(g, gd, tip, i);
    GraphParts(g, gd);
    forall b | Below(g.past, b, tip) && !Below(g.past, b, p) && b != ORIGIN
      ensures Below(g.past, p, b)
    {
      assert b in Listed(order[i..]);
      var k :| 0 <= k < |order| - i && order[i..][k] == b;
      assert order[i + k] == b;
    }
  }

  /** The proof for a chain block is no longer than the retained proof and the chain. */
  lemma {:induction false} ShortEnough<S>(node: D.DagChain<S>, p: Hash)
    requires node.Core() && node.StemInv() && p in Chain(node.engine.g, node.engine.manager.gd, node.engine.tip)
    requires |node.proof| + |Chain(node.engine.g, node.engine.manager.gd, node.engine.tip)| <= GUARD
    ensures node.ShortProof(p)
  {
    hide D.DagChain<S>.Core, Linear, Chain, GdOk, HeadersOk, TipsOk, Lean, DagEngine.Valid, StemOk, WholeChain,
      Retained, Places;
    node.CoreParts();
    node.OrderKnown();
    var g, gd := node.engine.g, node.engine.manager.gd;
    ChainMember(g, gd, p, node.engine.tip);
    ShorterChain(g, gd, p, node.engine.tip);
    StemParts(node.history, node.stem, node.gone, node.headers, node.genesis, node.proof, node.historyPruned,
      node.identify);
    StemRetained(node.history, node.stem, node.gone, node.headers, node.proof, node.historyPruned, node.identify, g,
      gd, p);
    var whole := WholeChain(node.stem, g, gd, p);
    WholeAt(node.stem, g, gd, p);
    LastIsBlock(g, gd, p);
    PlacesBound(node.headers, node.historyPruned, node.proof, node.history, whole, |node.stem| - 1, node.identify,
      |whole| - 1);
  }

  lemma {:induction false} ShorterChain(g: Graph, gd: Ghosts, p: Hash, b: Hash)
    requires GdOk(g, gd) && b in gd && b != ORIGIN && p in Chain(g, gd, b)
    ensures |Chain(g, gd, p)| <= |Chain(g, gd, b)|
    decreases if b in g.past then g.past[b] else {}
  {
    if p != b && b != g.genesis {
      LinearStep(g, gd, b);
      ShorterChain(g, gd, p, gd[b].selectedParent);
    }
  }

  lemma {:induction false} PlacesBound(headers: Headers, pruned: bool, proof: seq<DagHeader>, all: Headers,
                                       chain: seq<Hash>, o: nat, identify: DagHeader -> Hash, n: nat)
    requires Retained(headers, pruned, proof, all, chain, o, identify) && o <= n < |chain|
    ensures |Places(all, chain, n)| <= |proof| + (n - o) + 1
  {
    MaximaBound(all, chain, o, n);
    if o > 0 {
      ProofLength(all, chain, o);
    }
  }

  lemma {:induction false} MaximaBound(all: Headers, chain: seq<Hash>, o: nat, n: nat)
    requires o <= n <= |chain|
    ensures |Maxima(all, chain, n)| <= |Maxima(all, chain, o)| + (n - o)
  {
    if o < n {
      MaximaBound(all, chain, o, n - 1);
    }
  }
}
