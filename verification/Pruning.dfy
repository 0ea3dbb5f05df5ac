/** Pruning: rebuilding the engine at a finalized chain block, block by block, and what the node's
    other parts must become. */
module Pruning {
  import opened Types
  import opened Dag
  import opened Ghostdag
  import opened Colouring
  import opened Agreement
  import opened Linearization
  import opened Anchor
  import opened NiPoPoW
  import opened Replay
  import opened DagState

  /** No block has a parent in the past of another of its parents. */
  ghost predicate Lean(g: Graph) {
    forall b {:trigger Antichain(g, b)} :: b in g.parents && b != ORIGIN && b != g.genesis ==> Antichain(g, b)
  }

  /** What lies below `tip` and not below `p` descends from `p`. */
  ghost predicate CleanAbove(g: Graph, tip: Hash, p: Hash) {
    forall b {:trigger Below(g.past, b, tip)} :: Below(g.past, b, tip) && !Below(g.past, b, p) && b != ORIGIN ==>
      Below(g.past, p, b)
  }

  lemma {:induction false} LeanGrows(g: Graph, n: Hash, ps: seq<Hash>)
    requires PastOk(g.parents, g.past) && Lean(g) && n !in g.parents && forall p, q :: p in ps && q in ps ==>
      q in g.past && p !in g.past[q]
    ensures Lean(Extended(g, n, ps, Merged(ps, g.past)))
  {
    var g' := Extended(g, n, ps, Merged(ps, g.past));
    forall b | b in g'.parents && b != ORIGIN && b != g'.genesis
      ensures Antichain(g', b)
    {
      if b != n {
        assert Antichain(g, b);
      }
    }
  }

  // ---------- a new block ----------

  lemma {:induction false} HeadersGrow(headers: Headers, g: Graph, gd: Ghosts, identify: DagHeader -> Hash, id: Hash,
                                       header: DagHeader, ps: seq<Hash>, whole: set<Hash>, d: GhostdagData)
    requires HeadersOk(headers, g, gd, identify) && id !in g.parents && id !in gd && id != ORIGIN && id != g.genesis &&
      identify(header) == id <= header.target
    requires Listed(header.parents) == Listed(ps) && d.selectedParent in headers
    requires var sp := d.selectedParent;
      header.interlink == Interlink(headers[sp].interlink, Level(sp, headers[sp]), sp)
    ensures HeadersOk(headers[id := header], Extended(g, id, ps, whole), gd[id := d], identify)
  {
    var headers', g', gd' := headers[id := header], Extended(g, id, ps, whole), gd[id := d];
    hide Interlink;
    forall b | b in headers'
      ensures HeaderOk(headers', g', gd', identify, b)
    {
      if b != id {
        assert HeaderOk(headers, g, gd, identify, b);
      }
    }
  }

  /** The data recorded for a new block names the heaviest of its parents. */
  lemma {:induction false} SelectedIs(g: Graph, gd: Ghosts, id: Hash, ps: seq<Hash>, d: GhostdagData, sp: Hash)
    requires GdOk(g, gd) && id !in gd && id != ORIGIN && id != g.genesis && (forall p :: p in ps ==> p in gd) &&
      Heaviest(gd, Listed(ps), sp)
    requires GdOk(Extended(g, id, ps, Merged(ps, g.past)), gd[id := d])
    ensures d.selectedParent == sp
  {
    assert DataOk(Extended(g, id, ps, Merged(ps, g.past)), gd[id := d], id);
    hide GdOk;
    forall a, b | a in Listed(ps) && b in Listed(ps)
      ensures Less(gd, a, b) <==> Less(gd[id := d], a, b)
    {
    }
    HeaviestKept(gd, gd[id := d], Listed(ps), sp);
    SameTip(gd[id := d], Listed(ps), sp, d.selectedParent);
  }

  lemma {:induction false} ParentsClosed(g: Graph)
    requires PastOk(g.parents, g.past)
    ensures forall b, q :: b in g.parents && q in g.parents[b] ==> q in g.parents
  {
    forall b, q | b in g.parents && q in g.parents[b]
      ensures q in g.parents
    {
      assert PastStep(g.parents, g.past, b);
    }
  }

  /** Only a block with transactions has a body. */
  function WithBody(txs: Txs, id: Hash, body: seq<nat>): Txs {
    if body == [] then txs else txs[id := body]
  }

  /** A block that was not known changes nothing for the state cached so far. */
  lemma {:induction false} CacheGrows<S>(l: Ledger<S>, txs: Txs, pruned: bool, based: bool, c: Cache<S>,
                                         frozen: seq<Hash>, id: Hash, header: DagHeader, body: seq<nat>)
    requires CacheOk(l, txs, pruned, based, c, frozen) && id !in l.headers
    ensures CacheOk(l.(headers := l.headers[id := header], full := WithBody(l.full, id, body)),
      WithBody(txs, id, body), pruned, based, c, frozen)
  {
    hide Run;
    var l' := l.(headers := l.headers[id := header], full := WithBody(l.full, id, body));
    RunsAsBefore(l, l', c.executed);
    RunsAsBefore(l, l', frozen);
  }

  lemma {:induction false} RunsAsBefore<S>(l: Ledger<S>, l': Ledger<S>, blocks: seq<Hash>)
    requires l'.step == l.step && l'.genesis == l.genesis && l'.base == l.base
    requires (forall b :: b in blocks ==> b in l.headers)
      ==>
        forall b :: b in blocks ==>
        MinerOf(l.headers, b) == MinerOf(l'.headers, b) && TxsOf(l.full, b) == TxsOf(l'.full, b)
    ensures (forall b :: b in blocks ==> b in l.headers) ==> StateAfter(l, blocks) == StateAfter(l', blocks)
  {
    if forall b :: b in blocks ==> b in l.headers {
      forall b | b in blocks
        ensures SameBlock(l.headers, l.full, l.genesis, l'.headers, l'.full, l'.genesis, b)
      {
      }
      RunSame(l.step, l.headers, l.full, l.genesis, l'.headers, l'.full, l'.genesis, l.base, blocks);
    }
  }

  // ---------- what the cache was made for ----------

  /** What was executed is the order of one tip, and the checkpoint covers the beginning of another's. */
  ghost predicate PlacesOk(g: Graph, gd: Ghosts, executed: seq<Hash>, stateTip: Hash, frozen: seq<Hash>,
                           frozenTip: Hash) {
    && (executed != [] ==> stateTip in gd && stateTip != ORIGIN && executed == Linear(g, gd, stateTip))
    && (frozen != [] ==> frozenTip in gd && frozenTip != ORIGIN && frozen <= Linear(g, gd, frozenTip))
  }

  /** The checkpoint is the old one, or one made from what was executed. */
  ghost predicate CheckpointOf(frozen0: seq<Hash>, frozenTip0: Hash, frozen: seq<Hash>, frozenTip: Hash,
                               executed: seq<Hash>, stateTip: Hash) {
    (frozen == frozen0 && frozenTip == frozenTip0) || (frozen <= executed && frozenTip == stateTip)
  }

  lemma {:induction false} PlacesMore(g: Graph, gd: Ghosts, n: Hash, ps: seq<Hash>, d: GhostdagData,
                                      executed: seq<Hash>, stateTip: Hash, frozen: seq<Hash>, frozenTip: Hash)
    requires GdOk(g, gd) && n !in g.past && GdOk(Extended(g, n, ps, Merged(ps, g.past)), gd[n := d])
    requires PlacesOk(g, gd, executed, stateTip, frozen, frozenTip)
    ensures PlacesOk(Extended(g, n, ps, Merged(ps, g.past)), gd[n := d], executed, stateTip, frozen, frozenTip)
  {
    if executed != [] {
      OrderStays(g, gd, n, ps, d, stateTip);
    }
    if frozen != [] {
      OrderStays(g, gd, n, ps, d, frozenTip);
    }
  }

  /** A new block changes no order of a block known before. */
  lemma {:induction false} OrderStays(g: Graph, gd: Ghosts, n: Hash, ps: seq<Hash>, d: GhostdagData, b: Hash)
    requires GdOk(g, gd) && n !in g.past && GdOk(Extended(g, n, ps, Merged(ps, g.past)), gd[n := d]) && b in gd &&
      b != ORIGIN
    ensures var g' := Extended(g, n, ps, Merged(ps, g.past));
      Linear(g', gd[n := d], b) == Linear(g, gd, b) && Chain(g', gd[n := d], b) == Chain(g, gd, b)
  {
    var g' := Extended(g, n, ps, Merged(ps, g.past));
    GraphParts(g, gd);
    forall h | Below(g.past, h, b)
      ensures SameParents(g, g', h)
    {
      if h != b {
        PastInside(g.parents, g.past, h, b);
      }
    }
    LinearAgrees(g, gd, g', gd[n := d], b);
  }

  // ---------- the state since the first genesis ----------

  /** The base is the replay of everything pruned since the first genesis, up to the current one, and
      every later block is the same in the whole history. */
  ghost predicate Replayed<S>(l: Ledger<S>, initial: S, history: Headers, ever: Txs, first: Hash, dropped: seq<Hash>,
                              gone: set<Hash>) {
    && l.base == Run(l.step, history, ever, first, initial, dropped + [l.genesis])
    && (forall b :: b in l.headers && b != l.genesis ==>
      b != first && MinerOf(history, b) == MinerOf(l.headers, b) && TxsOf(ever, b) == TxsOf(l.full, b))
    && Listed(dropped) <= gone && (first in gone || first == l.genesis)
  }

  lemma {:induction false} FreshStory<S>(l: Ledger<S>, history: Headers)
    requires l.headers.Keys == {l.genesis}
    ensures Replayed(l, l.base, history, map[], l.genesis, [], {})
  {
    assert Run(l.step, history, map[], l.genesis, l.base, []) == l.base;
    assert [] + [l.genesis] == [l.genesis] && [l.genesis][..0] == [];
  }

  /** The replay of an order from the current base is the replay of the whole history. */
  lemma {:induction false} WholeReplay<S>(l: Ledger<S>, initial: S, history: Headers, ever: Txs, first: Hash,
                                          dropped: seq<Hash>, gone: set<Hash>, order: seq<Hash>)
    requires Replayed(l, initial, history, ever, first, dropped, gone)
    requires |order| > 0 && order[0] == l.genesis && Distinct(order) && forall b :: b in order ==> b in l.headers
    ensures StateAfter(l, order) == Run(l.step, history, ever, first, initial, dropped + order)
  {
    var rest := order[1..];
    forall b | b in rest
      ensures b != l.genesis && b != first && MinerOf(history, b) == MinerOf(l.headers, b) &&
        TxsOf(ever, b) == TxsOf(l.full, b)
    {
      var i :| 0 <= i < |rest| && rest[i] == b;
      assert order[i + 1] == b && b in order;
    }
    RunFrom(l.step, history, ever, first, l.headers, l.full, l.genesis, initial, dropped, rest);
    assert [l.genesis] + rest == order && dropped + [l.genesis] + rest == dropped + order;
  }

  lemma {:induction false} StoryMore<S>(l: Ledger<S>, initial: S, history: Headers, ever: Txs, first: Hash,
                                        dropped: seq<Hash>, gone: set<Hash>, id: Hash, header: DagHeader,
                                        body: seq<nat>)
    requires Replayed(l, initial, history, ever, first, dropped, gone) && id !in l.headers && id !in gone &&
      l.genesis in l.headers
    requires forall b :: b in l.full ==> b in l.headers
    ensures Replayed(l.(headers := l.headers[id := header], full := WithBody(l.full, id, body)), initial,
      history[id := header], ever[id := body], first, dropped, gone)
  {
    var history', ever' := history[id := header], ever[id := body];
    forall b | b in dropped + [l.genesis]
      ensures SameBlock(history, ever, first, history', ever', first, b)
    {
      assert b in Listed(dropped) || b == l.genesis;
    }
    RunSame(l.step, history, ever, first, history', ever', first, initial, dropped + [l.genesis]);
  }

  /** A prune makes the beginning of the order part of the pruned history. */
  lemma {:induction false} StoryPruned<S>(l: Ledger<S>, l': Ledger<S>, initial: S, history: Headers, ever: Txs,
                                          first: Hash, dropped: seq<Hash>, gone: set<Hash>,
                                          gone': set<Hash>, order: seq<Hash>, i: nat)
    requires Replayed(l, initial, history, ever, first, dropped, gone)
    requires 0 < i < |order| && order[0] == l.genesis && Distinct(order) && forall b :: b in order ==> b in l.headers
    requires l'.step == l.step && l'.genesis == order[i] && l'.base == StateAfter(l, order[..i + 1]) &&
      Listed(order[..i]) + gone <= gone'
    requires forall b :: b in l'.headers ==> b in order[i..] && b in l.headers && l'.headers[b] == l.headers[b]
    requires forall b :: b in order[i + 1..] ==> TxsOf(l'.full, b) == TxsOf(l.full, b)
    ensures Replayed(l', initial, history, ever, first, dropped + order[..i], gone')
  {
    hide Run, StateAfter;
    var front := order[..i + 1];
    assert front[0] == l.genesis && forall b :: b in front ==> b in order;
    WholeReplay(l, initial, history, ever, first, dropped, gone, front);
    assert dropped + front == dropped + order[..i] + [order[i]];
    assert l.genesis in Listed(order[..i]) by {
      assert order[..i][0] == l.genesis;
    }
    forall b | b in l'.headers && b != l'.genesis
      ensures b != first && MinerOf(history, b) == MinerOf(l'.headers, b) && TxsOf(ever, b) == TxsOf(l'.full, b)
    {
      var j :| 0 <= j < |order[i..]| && order[i..][j] == b;
      assert order[i + j] == b && j > 0;
      assert order[i + 1..][j - 1] == b;
    }
    ListedConcat(dropped, order[..i]);
  }

  // ---------- rebuilding ----------

  lemma {:induction false} RestartedAt(g: Graph, gd: Ghosts, p: Hash, g': Graph, gd': Ghosts)
    requires GdOk(g, gd) && GdOk(g', gd') && p in gd && p != ORIGIN && g'.k == g.k && g'.genesis == p &&
      g'.parents.Keys == {ORIGIN, p}
    ensures Reanchored(g, gd, g', gd', p) && Suffix(g') == {p}
  {
    forall b | b in g'.parents && b != ORIGIN
      ensures Kept(g, g', p, b)
    {
    }
  }

  /** A kept block can be added again on the same parents. */
  lemma {:induction false} Addable(g: Graph, gd: Ghosts, g': Graph, gd': Ghosts, p: Hash, b: Hash, ps: seq<Hash>)
    requires Reanchored(g, gd, g', gd', p) && Antichain(g, b) && b in g.parents &&
      Listed(ps) == Listed(g.parents[b]) && Listed(ps) <= Suffix(g')
    ensures Tidy(g'.past, gd', ps) && ORIGIN !in ps && forall q :: q in ps ==> q in g'.past
  {
    forall q | q in ps
      ensures q in g'.past && q != ORIGIN
    {
      assert q in Listed(ps);
      KeptBlock(g, gd, g', gd', p, q);
    }
    forall sp, q | Heaviest(gd', Listed(ps), sp) && q in ps && q != sp
      ensures !Below(g'.past, q, sp)
    {
      assert q in Listed(ps) && sp in Listed(ps);
      assert q in g.parents[b] && sp in g.parents[b];
      AncestryKept(g, gd, g', gd', p, q, sp);
    }
  }

  lemma {:induction false} Readded(g: Graph, gd: Ghosts, g': Graph, gd': Ghosts, p: Hash, b: Hash, ps: seq<Hash>,
                                   d: GhostdagData)
    requires Reanchored(g, gd, g', gd', p) && b in g.parents && b in g.past && b !in g'.past && b != ORIGIN &&
      p in g.past[b] && Listed(ps) == Listed(g.parents[b])
    requires GdOk(Extended(g', b, ps, Merged(ps, g'.past)), gd'[b := d])
    ensures Reanchored(g, gd, Extended(g', b, ps, Merged(ps, g'.past)), gd'[b := d], p)
    ensures Suffix(Extended(g', b, ps, Merged(ps, g'.past))) == Suffix(g') + {b}
  {
    var g'' := Extended(g', b, ps, Merged(ps, g'.past));
    forall x | x in g''.parents && x != ORIGIN
      ensures Kept(g, g'', p, x)
    {
      assert x != b ==> Kept(g, g', p, x);
    }
    assert g''.genesis == p;
  }

  /** The parents of a kept block come before it, and none was pruned. */
  lemma {:induction false} ParentsPresent(g: Graph, gd: Ghosts, tip: Hash, p: Hash, order: seq<Hash>, n: nat, i: nat)
    requires GdOk(g, gd) && Lean(g) && tip in gd && tip != ORIGIN && p in Chain(g, gd, tip) && CleanAbove(g, tip, p)
    requires order == Linear(g, gd, tip) && n == |Linear(g, gd, p)| && n <= i < |order|
    ensures var b := order[i];
      && b in g.parents && b in g.past && b != ORIGIN && b != g.genesis && p in g.past && p in g.past[b] &&
        Antichain(g, b) && g.parents[b] != []
      && 0 < n <= |order| && Listed(g.parents[b]) <= Listed(order[n - 1..i]) && b !in Listed(order[n - 1..i])
  {
    hide GdOk, Linear, Chain, Rooted, CleanAbove, Lean, Antichain;
    GraphParts(g, gd);
    CutAt(g, gd, p, tip);
    OrderFacts(g, gd, tip);
    LinearCovers(g, gd, tip);
    var b := order[i];
    BlockAbove(g, gd, tip, p, order, n, i);
    forall q | q in Listed(g.parents[b])
      ensures q in Listed(order[n - 1..i])
    {
      ParentPlace(g, gd, tip, p, order, n, i, q);
    }
    NotEarlier(order, n - 1, i);
  }

  lemma {:induction false} ParentPlace(g: Graph, gd: Ghosts, tip: Hash, p: Hash, order: seq<Hash>, n: nat, i: nat,
                                       q: Hash)
    requires GdOk(g, gd) && tip in gd && tip != ORIGIN && p in Chain(g, gd, tip) && order == Linear(g, gd, tip) &&
      n == |Linear(g, gd, p)| && n <= i < |order|
    requires var b := order[i];
      b in gd && b in g.parents && b in g.past && b != ORIGIN && b != g.genesis && p in g.past && p in g.past[b] &&
      Antichain(g, b) && q in g.parents[b]
    ensures n > 0 && q in Listed(order[n - 1..i])
  {
    hide GdOk, Linear, Chain, Rooted, Antichain;
    GraphParts(g, gd);
    ParentsKept(g, p, order[i], q);
    HasParentsAt(g, gd, order[i]);
    var j := ParentsFirst(g, gd, tip, i, q);
    PrefixPlace(g, gd, p, tip, j);
    CutAt(g, gd, p, tip);
    assert order[n - 1..i][j - (n - 1)] == q;
  }

  lemma {:induction false} NotEarlier(order: seq<Hash>, lo: nat, i: nat)
    requires Distinct(order) && lo <= i < |order|
    ensures order[i] !in Listed(order[lo..i])
  {
    forall j | 0 <= j < i - lo
      ensures order[lo..i][j] != order[i]
    {
      assert order[lo..i][j] == order[lo + j];
    }
  }

  lemma {:induction false} HasParentsAt(g: Graph, gd: Ghosts, b: Hash)
    requires GdOk(g, gd) && b in gd && b != ORIGIN && b != g.genesis
    ensures b in g.parents && g.parents[b] != [] && ORIGIN !in g.parents[b]
  {
    GraphParts(g, gd);
    assert HasParents(g, b);
  }

  lemma {:induction false} BlockAbove(g: Graph, gd: Ghosts, tip: Hash, p: Hash, order: seq<Hash>, n: nat, i: nat)
    requires GdOk(g, gd) && Lean(g) && tip in gd && tip != ORIGIN && p in Chain(g, gd, tip) && CleanAbove(g, tip, p)
    requires order == Linear(g, gd, tip) && n == |Linear(g, gd, p)| && n <= i < |order| && p in gd && p in g.past &&
      p != ORIGIN
    requires Distinct(order) && tip in g.past && Listed(order) == g.past[tip] - {ORIGIN} + {tip}
    ensures var b := order[i];
      b in g.parents && b in g.past && b in gd && b != ORIGIN && b != g.genesis && p in g.past[b] && Antichain(g, b) &&
      g.parents[b] != []
  {
    GraphParts(g, gd);
    var b := order[i];
    assert b in Listed(order);
    hide GdOk, Linear, Chain, Rooted;
    assert b in g.past by {
      if b != tip {
        PastInside(g.parents, g.past, b, tip);
      }
    }
    NotInPrefix(g, gd, p, tip, i);
    assert Below(g.past, b, tip);
    OriginGenesis(g, gd, b, p);
    HasParentsAt(g, gd, b);
    assert Antichain(g, b);
  }

  lemma {:induction false} OriginGenesis(g: Graph, gd: Ghosts, b: Hash, p: Hash)
    requires GdOk(g, gd) && p in g.past && p != ORIGIN
    ensures b == g.genesis ==> Below(g.past, b, p)
  {
    GraphParts(g, gd);
    OriginBelow(g, p);
  }

  /** Past the prefix that ends at `p`, blocks are neither `p` nor below it. */
  lemma {:induction false} NotInPrefix(g: Graph, gd: Ghosts, p: Hash, tip: Hash, i: nat)
    requires GdOk(g, gd) && tip in gd && tip != ORIGIN && p in Chain(g, gd, tip) &&
      |Linear(g, gd, p)| <= i < |Linear(g, gd, tip)|
    requires p in gd && p in g.past && p != ORIGIN
    ensures var b := Linear(g, gd, tip)[i]; b != ORIGIN ==> !Below(g.past, b, p)
  {
    ChainPrefix(g, gd, p, tip);
    LinearCovers(g, gd, p);
    OrderFacts(g, gd, tip);
    var order, prefix := Linear(g, gd, tip), Linear(g, gd, p);
    hide GdOk, Linear, Chain;
    forall j | 0 <= j < |prefix|
      ensures prefix[j] != order[i]
    {
      assert prefix[j] == order[j];
    }
    assert order[i] !in Listed(prefix);
  }

  lemma {:induction false} PrefixPlace(g: Graph, gd: Ghosts, p: Hash, tip: Hash, j: nat)
    requires GdOk(g, gd) && tip in gd && tip != ORIGIN && p in Chain(g, gd, tip) && j < |Linear(g, gd, tip)|
    requires p in g.past && Linear(g, gd, tip)[j] !in g.past[p]
    ensures j >= |Linear(g, gd, p)| - 1
  {
    ChainPrefix(g, gd, p, tip);
    ChainMember(g, gd, p, tip);
    LinearCovers(g, gd, p);
    LastIsBlock(g, gd, p);
    OrderFacts(g, gd, p);
    var order, prefix := Linear(g, gd, tip), Linear(g, gd, p);
    hide GdOk, Linear, Chain;
    assert j < |prefix| ==> order[j] == prefix[j] && prefix[j] in Listed(prefix);
    assert forall i :: 0 <= i < |prefix| - 1 ==> prefix[i] != prefix[|prefix| - 1];
  }

  /** The deepest place up to `i`, past the first, whose block is on the chain; 0 if there is none. */
  function Deepest(order: seq<Hash>, chain: set<Hash>, i: nat): (place: nat)
    requires i < |order| || i == 0
    ensures place <= i && (place > 0 ==> order[place] in chain)
  {
    if i == 0 then 0 else if order[i] in chain then i else Deepest(order, chain, i - 1)
  }

  /** The place of a chain block in the order is the length of its own order. */
  lemma {:induction false} PrunePlace(g: Graph, gd: Ghosts, tip: Hash, i: nat)
    requires GdOk(g, gd) && tip in gd && tip != ORIGIN && i < |Linear(g, gd, tip)| &&
      Linear(g, gd, tip)[i] in Chain(g, gd, tip)
    ensures var p := Linear(g, gd, tip)[i];
      && p in gd && p in g.past && p != ORIGIN && Linear(g, gd, p) == Linear(g, gd, tip)[..i + 1] &&
        |Linear(g, gd, p)| == i + 1
      && Listed(Linear(g, gd, tip)[i..]) == {p} + (g.past[tip] + {tip} - g.past[p] - {p} - {ORIGIN})
    ensures i > 0 ==> Linear(g, gd, tip)[i] != g.genesis
  {
    hide Linear, Chain, GdOk;
    var order := Linear(g, gd, tip);
    var p := order[i];
    ChainMember(g, gd, p, tip);
    CutAt(g, gd, p, tip);
    ChainPrefix(g, gd, p, tip);
    OrderFacts(g, gd, tip);
    assert |Linear(g, gd, p)| - 1 == i;
    if i > 0 {
      GenesisFirst(g, gd, tip);
    }
  }

  /** The rest of the order, from any place on, holds the tip and only what lies below it. */
  lemma {:induction false} KeptBelowTip(g: Graph, gd: Ghosts, tip: Hash, i: nat)
    requires GdOk(g, gd) && tip in gd && tip != ORIGIN && i < |Linear(g, gd, tip)|
    ensures tip in Listed(Linear(g, gd, tip)[i..]) && forall b :: b in Listed(Linear(g, gd, tip)[i..]) ==>
      Below(g.past, b, tip)
  {
    hide Linear, GdOk;
    var order := Linear(g, gd, tip);
    LastIsBlock(g, gd, tip);
    LinearCovers(g, gd, tip);
    assert order[|order| - 1] == tip;
    TailListed(order, i);
    GraphParts(g, gd);
    hide Listed;
  }

  lemma {:induction false} TailListed(order: seq<Hash>, i: nat)
    requires i < |order|
    ensures Listed(order[i..]) <= Listed(order) && order[|order| - 1] in Listed(order[i..])
  {
    assert order[i..][|order| - 1 - i] == order[|order| - 1];
  }

  lemma {:induction false} GenesisFirst(g: Graph, gd: Ghosts, b: Hash)
    requires GdOk(g, gd) && b in gd && b != ORIGIN
    ensures |Linear(g, gd, b)| > 0 && Linear(g, gd, b)[0] == g.genesis
    decreases if b in g.past then g.past[b] else {}
  {
    if b != g.genesis {
      LinearStep(g, gd, b);
      GenesisFirst(g, gd, gd[b].selectedParent);
    }
  }

  /** The place of the pruning point: the deepest chain block that leaves `retain` blocks of the order
      behind it; 0 if nothing is to be pruned. */
  ghost function CutOf(order: seq<Hash>, chain: seq<Hash>, retain: nat): (i: nat)
    ensures i < |order| || i == 0
  {
    var n := |order|;
    if n <= retain + 1 then 0 else Deepest(order, Listed(chain), if n - retain < n - 1 then n - retain else n - 1)
  }

  lemma {:induction false} NoneDeeper(order: seq<Hash>, chain: set<Hash>, i: nat)
    requires i < |order|
    ensures forall j {:trigger order[j]} :: Deepest(order, chain, i) < j <= i ==> order[j] !in chain
  {
    if i > 0 && order[i] !in chain {
      NoneDeeper(order, chain, i - 1);
    }
  }

  /** A cut leaves as many blocks as asked for and no later chain block does. There is none if no chain
      block past the origin leaves that many, or if only the first block after the origin could. */
  lemma {:induction false} CutLeaves(order: seq<Hash>, chain: seq<Hash>, retain: nat)
    requires retain > 0
    ensures var i, n := CutOf(order, chain, retain), |order|;
      && (i > 0 ==> n - i >= retain && order[i] in chain)
      && (n > retain + 1 ==> forall j {:trigger order[j]} :: i < j < n && order[j] in chain ==> n - j < retain)
      && (i == 0 <==>
            n <= retain + 1 || forall j {:trigger order[j]} :: 0 < j < n && order[j] in chain ==> n - j < retain)
  {
    var n, i := |order|, CutOf(order, chain, retain);
    if n > retain + 1 {
      NoneDeeper(order, Listed(chain), n - retain);
      hide Deepest;
      if i > 0 {
        assert order[i] in chain;
      }
    }
  }

  /** What the rebuilt engine holds after the blocks from place `i` up to `j` were added. */
  ghost predicate Rebuilding(g: Graph, gd: Ghosts, g': Graph, gd': Ghosts, p: Hash, order: seq<Hash>, i: nat, j: nat)
    requires i <= j <= |order|
  {
    Reanchored(g, gd, g', gd', p) && Suffix(g') == Listed(order[i..j])
  }

  /** The next kept block is accepted on its old parents. */
  lemma {:induction false} NextAccepted(g: Graph, gd: Ghosts, g': Graph, gd': Ghosts, tip: Hash, p: Hash,
                                        order: seq<Hash>, i: nat, j: nat, ps: seq<Hash>)
    requires GdOk(g, gd) && Lean(g) && tip in gd && tip != ORIGIN && order == Linear(g, gd, tip) && i < j < |order| &&
      order[i] == p
    requires p in Chain(g, gd, tip) && CleanAbove(g, tip, p) && Rebuilding(g, gd, g', gd', p, order, i, j)
    requires order[j] in g.parents ==> Listed(ps) == Listed(g.parents[order[j]])
    ensures var b := order[j];
      && b in g.parents && b in g.past && b !in g'.past && b != ORIGIN && p in g.past && p in g.past[b] &&
        Listed(ps) == Listed(g.parents[b])
      && |ps| > 0 && ORIGIN !in ps && (forall q :: q in ps ==> q in g'.past) && Tidy(g'.past, gd', ps)
  {
    hide Linear, Chain, GdOk, Lean, CleanAbove, Antichain, Tidy, Reanchored;
    PrunePlace(g, gd, tip, i);
    ParentsPresent(g, gd, tip, p, order, i + 1, j);
    var b := order[j];
    SuffixKeys(g, gd, g', gd', p);
    Addable(g, gd, g', gd', p, b, ps);
    assert g.parents[b][0] in Listed(g.parents[b]);
    ListedNone(ps);
  }

  lemma {:induction false} SuffixKeys(g: Graph, gd: Ghosts, g': Graph, gd': Ghosts, p: Hash)
    requires Reanchored(g, gd, g', gd', p)
    ensures g'.past.Keys == Suffix(g') + {ORIGIN}
  {
    GraphParts(g', gd');
  }

  lemma {:induction false} NextRebuilt(g: Graph, gd: Ghosts, g': Graph, gd': Ghosts, p: Hash, order: seq<Hash>, i: nat,
                                       j: nat, ps: seq<Hash>, d: GhostdagData)
    requires i <= j < |order| && Rebuilding(g, gd, g', gd', p, order, i, j)
    requires var b := order[j];
      b in g.parents && b in g.past && b !in g'.past && b != ORIGIN && p in g.past && p in g.past[b] &&
      Listed(ps) == Listed(g.parents[b])
    requires GdOk(Extended(g', order[j], ps, Merged(ps, g'.past)), gd'[order[j] := d])
    ensures Rebuilding(g, gd, Extended(g', order[j], ps, Merged(ps, g'.past)), gd'[order[j] := d], p, order, i, j + 1)
  {
    hide GdOk, Reanchored;
    Readded(g, gd, g', gd', p, order[j], ps, d);
    assert order[i..j + 1] == order[i..j] + [order[j]];
    ListedSnoc(order[i..j], order[j]);
  }

  // ---------- the parts after a prune ----------

  function Restricted<V>(m: map<Hash, V>, kept: set<Hash>): map<Hash, V> {
    map b | b in m && b in kept :: m[b]
  }

  lemma {:induction false} PrunedHeaders(headers: Headers, g: Graph, gd: Ghosts, g': Graph, gd': Ghosts, p: Hash,
                                         identify: DagHeader -> Hash)
    requires HeadersOk(headers, g, gd, identify) && Reanchored(g, gd, g', gd', p)
    ensures HeadersOk(Restricted(headers, Suffix(g')), g', gd', identify)
  {
    var headers' := Restricted(headers, Suffix(g'));
    hide Linear, Chain;
    forall b | b in Suffix(g')
      ensures b in headers && HeaderOk(headers', g', gd', identify, b)
    {
      PrunedHeader(headers, g, gd, g', gd', p, identify, b);
    }
  }

  lemma {:induction false} PrunedHeader(headers: Headers, g: Graph, gd: Ghosts, g': Graph, gd': Ghosts, p: Hash,
                                        identify: DagHeader -> Hash, b: Hash)
    requires HeadersOk(headers, g, gd, identify) && Reanchored(g, gd, g', gd', p) && b in Suffix(g')
    ensures b in headers && HeaderOk(Restricted(headers, Suffix(g')), g', gd', identify, b)
  {
    KeptBlock(g, gd, g', gd', p, b);
    assert HeaderOk(headers, g, gd, identify, b);
    if b != p {
      StepKept(g, gd, g', gd', p, b);
      var sp := gd[b].selectedParent;
      KeptBlock(g, gd, g', gd', p, sp);
      assert HeaderOk(headers, g, gd, identify, sp);
    }
  }

  /** Everything kept lies below the tip, so the tip alone has no children. */
  lemma {:induction false} PrunedTips(g: Graph, gd: Ghosts, g': Graph, gd': Ghosts, p: Hash, tip: Hash)
    requires Reanchored(g, gd, g', gd', p) && tip in Suffix(g') && Heaviest(gd', gd'.Keys - {ORIGIN}, tip)
    requires forall b :: b in Suffix(g') ==> Below(g.past, b, tip)
    ensures TipsOk(g', [tip])
  {
    GraphParts(g', gd');
    forall b
      ensures b in [tip] <==> b in Suffix(g') && Childless(g', b)
    {
      if b in Suffix(g') && b != tip {
        KeptBlock(g, gd, g', gd', p, tip);
        AncestryKept(g, gd, g', gd', p, b, tip);
        HasChild(g', b, tip);
      }
      TopChildless(g', gd', tip);
    }
  }

  lemma {:induction false} TopChildless(g: Graph, gd: Ghosts, tip: Hash)
    requires GdOk(g, gd) && Heaviest(gd, gd.Keys - {ORIGIN}, tip)
    ensures Childless(g, tip)
  {
    GraphParts(g, gd);
    forall c | c in g.parents
      ensures tip !in g.parents[c]
    {
      if tip in g.parents[c] {
        PastSmaller(g.parents, g.past, tip, c);
        RootPasts(g);
        assert c in gd.Keys - {ORIGIN};
        WorkGrows(g, gd, tip, c);
      }
    }
  }

  lemma {:induction false} PrunedLean(g: Graph, gd: Ghosts, g': Graph, gd': Ghosts, p: Hash)
    requires Reanchored(g, gd, g', gd', p) && Lean(g)
    ensures Lean(g')
  {
    forall b | b in g'.parents && b != ORIGIN && b != g'.genesis
      ensures Antichain(g', b)
    {
      KeptBlock(g, gd, g', gd', p, b);
      assert Antichain(g, b);
      forall q, r | q in g'.parents[b] && r in g'.parents[b]
        ensures r in g'.past && q !in g'.past[r]
      {
        assert q in Listed(g.parents[b]) && r in Listed(g.parents[b]);
        KeptBlock(g, gd, g', gd', p, r);
        AncestryKept(g, gd, g', gd', p, q, r);
      }
    }
  }

  lemma {:induction false} SameTip(gd: Ghosts, s: set<Hash>, u: Hash, v: Hash)
    requires Heaviest(gd, s, u) && Heaviest(gd, s, v)
    ensures u == v
  {
  }

  /** The replay of the kept order from the new base is the replay of the old order from the old one. */
  lemma {:induction false} PrunedState<S>(l: Ledger<S>, l': Ledger<S>, before: seq<Hash>, p: Hash, order: seq<Hash>,
                                          order': seq<Hash>)
    requires l'.step == l.step && l'.genesis == p && l'.base == StateAfter(l, before + [p]) &&
      order == before + order' && |order'| > 0 && order'[0] == p
    requires forall b :: b in order'[1..] ==>
      b != p && b != l.genesis && MinerOf(l.headers, b) == MinerOf(l'.headers, b) &&
      TxsOf(l.full, b) == TxsOf(l'.full, b)
    ensures StateAfter(l', order') == StateAfter(l, order)
  {
    var rest := order'[1..];
    assert order' == [p] + rest && order == before + [p] + rest;
    RunFrom(l.step, l.headers, l.full, l.genesis, l'.headers, l'.full, p, l.base, before, rest);
  }

  /** The state after the pruned prefix, from wherever it can still be computed. */
  lemma {:induction false} BaseRuns<S>(l: Ledger<S>, txs: Txs, pruned: bool, based: bool, c: Cache<S>,
                                       frozen: seq<Hash>, order: seq<Hash>, n: nat)
    requires CacheOk(l, txs, pruned, based, c, frozen) && frozen <= order && Distinct(order) && n <= |order|
    requires based ==> AtHand(l.full, txs, l.genesis, order)
    ensures pruned && !based ==> c.checkpoint.Some?
    ensures pruned && !based && c.checkpoint.Some? && c.checkpoint.value.len <= n ==>
      Run(l.step, l.headers, txs, l.genesis, c.checkpoint.value.accounts, order[c.checkpoint.value.len..n]) ==
        StateAfter(l, order[..n])
    ensures !(pruned && !based) ==>
      Run(l.step, l.headers, txs, l.genesis, l.base, order[..n]) == StateAfter(l, order[..n])
    ensures (pruned && !based ==> c.checkpoint.Some? && c.checkpoint.value.len <= n) ==>
      forall b :: b in order[n..] && b in l.full && b != l.genesis ==> b in txs
  {
    hide AtHand, Run;
    if pruned && !based {
      if c.checkpoint.value.len <= n {
        NextCheckpoint(l, txs, frozen, order, n);
        NoneDropped(l.full, txs, frozen, order, n);
      }
    } else {
      if !pruned {
        AllKept(l.full, txs, frozen, l.genesis, order);
      }
      NeededBodies(l.full, txs, l.genesis, order, n);
      AtHandRuns(l, txs, l.base, order[..n]);
    }
  }

  lemma {:induction false} AllKept(full: Txs, txs: Txs, frozen: seq<Hash>, genesis: Hash, order: seq<Hash>)
    requires TxsKept(full, txs, frozen) && forall b :: b in full ==> b in txs
    ensures AtHand(full, txs, genesis, order)
  {
  }

  lemma {:induction false} NeededBodies(full: Txs, txs: Txs, genesis: Hash, order: seq<Hash>, n: nat)
    requires AtHand(full, txs, genesis, order) && n <= |order| && forall b :: b in full ==> full[b] != []
    ensures AtHand(full, txs, genesis, order[..n])
    ensures forall b :: b in order[n..] && b in full && b != genesis ==> b in txs
  {
    assert forall b :: b in order[..n] || b in order[n..] ==> b in order;
    forall b | b in order[n..] && b in full && b != genesis
      ensures b in txs
    {
      assert TxsOf(txs, b) == TxsOf(full, b);
    }
  }

  lemma {:induction false} NoneDropped(full: Txs, txs: Txs, frozen: seq<Hash>, order: seq<Hash>, n: nat)
    requires TxsKept(full, txs, frozen) && frozen <= order && |frozen| <= n <= |order| && Distinct(order)
    ensures forall b :: b in order[n..] && b in full ==> b in txs
  {
    forall b | b in order[n..] && b in full
      ensures b in txs
    {
      var i :| 0 <= i < |order| - n && order[n..][i] == b;
      assert order[n + i] == b;
      assert forall j :: 0 <= j < |frozen| ==> frozen[j] == order[j] != b;
    }
  }

  // ---------- the chain back to the first genesis ----------

  /** A pruned header that could not be accepted again: it has no parents or a pruned one. */
  ghost predicate Barred(history: Headers, gone: set<Hash>, b: Hash) {
    b in history && (history[b].parents == [] || exists q :: q in history[b].parents && q in gone)
  }

  /** `stem` leads from the first genesis to the current one; its pruned part is covered by `proof`. */
  ghost predicate StemOk(history: Headers, stem: seq<Hash>, gone: set<Hash>, headers: Headers, genesis: Hash,
                         proof: seq<DagHeader>, pruned: bool, identify: DagHeader -> Hash) {
    && Chained(history, stem) && Solved(history, stem, identify) && stem[|stem| - 1] == genesis
    && (forall b :: b in headers ==> b in history && history[b] == headers[b])
    && (forall i :: 0 <= i < |stem| - 1 ==> stem[i] in gone)
    && gone !! headers.Keys
    && (forall b {:trigger Barred(history, gone, b)} :: b in gone || b == genesis ==> Barred(history, gone, b))
    && (forall b :: b in gone || b == genesis ==> b in history && identify(history[b]) == b)
    && (|stem| > 1 ==> pruned && proof == ProofOf(history, stem, |stem| - 1))
  }

  /** The selected chain of `b` from the first genesis on. */
  ghost function WholeChain(stem: seq<Hash>, g: Graph, gd: Ghosts, b: Hash): seq<Hash> {
    Front(stem) + Chain(g, gd, b)
  }

  lemma {:induction false} WholeAt(stem: seq<Hash>, g: Graph, gd: Ghosts, b: Hash)
    requires GdOk(g, gd) && b in gd && b != ORIGIN && |stem| > 0 && stem[|stem| - 1] == g.genesis
    ensures var whole, o := WholeChain(stem, g, gd, b), |stem| - 1;
      && |whole| == o + |Chain(g, gd, b)| && whole[..o + 1] == stem
      && (forall i :: 0 <= i < o ==> whole[i] == stem[i])
      && (forall i :: o <= i < |whole| ==> whole[i] == Chain(g, gd, b)[i - o])
  {
    ChainLinks(g, gd, b);
    hide Chain;
  }

  /** The whole chain is linked by interlinks, block by block. */
  lemma {:induction false} WholeChained(history: Headers, stem: seq<Hash>, gone: set<Hash>, headers: Headers,
                                        proof: seq<DagHeader>, pruned: bool,
                                        identify: DagHeader -> Hash, g: Graph, gd: Ghosts, b: Hash)
    requires StemOk(history, stem, gone, headers, g.genesis, proof, pruned, identify) &&
      HeadersOk(headers, g, gd, identify) && GdOk(g, gd)
    requires b in gd && b != ORIGIN
    ensures Chained(history, WholeChain(stem, g, gd, b)) && Solved(history, WholeChain(stem, g, gd, b), identify)
  {
    hide Chain, GdOk, WholeChain, StemOk, Level, Interlink, Linear;
    var whole: seq<Hash> := WholeChain(stem, g, gd, b);
    var o := |stem| - 1;
    StemParts(history, stem, gone, headers, g.genesis, proof, pruned, identify);
    WholeAt(stem, g, gd, b);
    ChainLinks(g, gd, b);
    WholeDistinct(stem, gone, headers, g, gd, b);
    ChainDistinct(g, gd, b);
    forall i | 0 <= i < |whole|
      ensures LinkOk(history, whole, i) && whole[i] in history && identify(history[whole[i]]) == whole[i] &&
        (i > 0 ==> whole[i] <= history[whole[i]].target)
    {
      if i <= o {
        assert whole[i] == stem[i] && LinkOk(history, stem, i);
      } else {
        assert whole[i] == Chain(g, gd, b)[i - o];
        assert HeaderOk(headers, g, gd, identify, whole[i]);
        assert whole[i - 1] == gd[whole[i]].selectedParent;
      }
    }
  }

  lemma {:induction false} StemParts(history: Headers, stem: seq<Hash>, gone: set<Hash>, headers: Headers,
                                     genesis: Hash, proof: seq<DagHeader>, pruned: bool, identify: DagHeader -> Hash)
    requires StemOk(history, stem, gone, headers, genesis, proof, pruned, identify)
    ensures Chained(history, stem) && Solved(history, stem, identify) && |stem| > 0 && stem[|stem| - 1] == genesis
    ensures (forall b :: b in headers ==> b in history && history[b] == headers[b]) &&
      (forall i :: 0 <= i < |stem| - 1 ==> stem[i] in gone) && gone !! headers.Keys
  {
  }

  lemma {:induction false} WholeDistinct(stem: seq<Hash>, gone: set<Hash>, headers: Headers, g: Graph, gd: Ghosts,
                                         b: Hash)
    requires GdOk(g, gd) && b in gd && b != ORIGIN && |stem| > 0 && stem[|stem| - 1] == g.genesis &&
      headers.Keys == Suffix(g) && gone !! headers.Keys
    requires (forall i, j :: 0 <= i < j < |stem| ==> stem[i] != stem[j]) &&
      (forall i :: 0 <= i < |stem| - 1 ==> stem[i] in gone)
    ensures forall i, j :: 0 <= i < j < |WholeChain(stem, g, gd, b)| ==>
      WholeChain(stem, g, gd, b)[i] != WholeChain(stem, g, gd, b)[j]
  {
    hide Chain, GdOk, WholeChain;
    var whole: seq<Hash> := WholeChain(stem, g, gd, b);
    var o := |stem| - 1;
    WholeAt(stem, g, gd, b);
    ChainDistinct(g, gd, b);
    forall i, j | 0 <= i < j < |whole|
      ensures whole[i] != whole[j]
    {
      if i < o && j >= o {
        assert whole[j] == Chain(g, gd, b)[j - o];
        assert stem[i] in gone && whole[j] in headers.Keys;
      }
    }
  }

  lemma {:induction false} ChainDistinct(g: Graph, gd: Ghosts, b: Hash)
    requires GdOk(g, gd) && b in gd && b != ORIGIN
    ensures forall i, j :: 0 <= i < j < |Chain(g, gd, b)| ==> Chain(g, gd, b)[i] != Chain(g, gd, b)[j]
    ensures forall i :: 0 <= i < |Chain(g, gd, b)| ==>
      Below(g.past, Chain(g, gd, b)[i], b) && Chain(g, gd, b)[i] in Suffix(g)
    decreases if b in g.past then g.past[b] else {}
  {
    GraphParts(g, gd);
    if b != g.genesis {
      LinearStep(g, gd, b);
      SelectedBelow(g, gd, b);
      var sp := gd[b].selectedParent;
      ChainDistinct(g, gd, sp);
      NotOwnPast(g.parents, g.past, b);
      var chain := Chain(g, gd, sp);
      forall i | 0 <= i < |chain|
        ensures chain[i] != b && Below(g.past, chain[i], b)
      {
        PastTrans(g.parents, g.past, chain[i], sp, b);
      }
    }
  }

  lemma {:induction false} StemRetained(history: Headers, stem: seq<Hash>, gone: set<Hash>, headers: Headers,
                                        proof: seq<DagHeader>, pruned: bool,
                                        identify: DagHeader -> Hash, g: Graph, gd: Ghosts, b: Hash)
    requires StemOk(history, stem, gone, headers, g.genesis, proof, pruned, identify) &&
      HeadersOk(headers, g, gd, identify) && GdOk(g, gd)
    requires b in gd && b != ORIGIN
    ensures |stem| > 0 && Retained(headers, pruned, proof, history, WholeChain(stem, g, gd, b), |stem| - 1, identify)
    ensures WholeChain(stem, g, gd, b)[|WholeChain(stem, g, gd, b)| - 1] == b
  {
    var whole: seq<Hash> := WholeChain(stem, g, gd, b);
    var o := |stem| - 1;
    WholeAt(stem, g, gd, b);
    WholeChained(history, stem, gone, headers, proof, pruned, identify, g, gd, b);
    ChainLinks(g, gd, b);
    ChainDistinct(g, gd, b);
    hide Chain, GdOk, WholeChain, Chained;
    StemChained(history, stem, gone, headers, g.genesis, proof, pruned, identify);
    if o > 0 {
      SameStem(history, stem, gone, headers, g.genesis, proof, pruned, identify, whole);
      ProofPrefix(history, whole, history, stem, o);
    }
    forall i | 0 <= i < o
      ensures whole[i] !in headers
    {
      assert stem[i] in gone;
    }
    forall i | o <= i < |whole|
      ensures whole[i] in headers && headers[whole[i]] == history[whole[i]]
    {
    }
  }

  lemma {:induction false} SameStem(history: Headers, stem: seq<Hash>, gone: set<Hash>, headers: Headers,
                                    genesis: Hash, proof: seq<DagHeader>, pruned: bool,
                                    identify: DagHeader -> Hash, whole: seq<Hash>)
    requires StemOk(history, stem, gone, headers, genesis, proof, pruned, identify) && |stem| <= |whole| &&
      whole[..|stem|] == stem
    ensures SameUpTo(history, whole, history, stem, |stem|)
  {
    hide Chained;
    forall i | 0 <= i < |stem|
      ensures whole[i] == stem[i] && stem[i] in history
    {
      assert whole[..|stem|][i] == stem[i];
      assert stem[i] in history;
    }
  }

  /** A new header, under an id that was not pruned, leaves the stem as it is. */
  lemma {:induction false} StemMore(history: Headers, stem: seq<Hash>, gone: set<Hash>, headers: Headers,
                                    genesis: Hash, proof: seq<DagHeader>, pruned: bool,
                                    identify: DagHeader -> Hash, id: Hash, header: DagHeader)
    requires StemOk(history, stem, gone, headers, genesis, proof, pruned, identify) && id !in gone && id !in headers &&
      genesis in headers
    ensures StemOk(history[id := header], stem, gone, headers[id := header], genesis, proof, pruned, identify)
  {
    var history' := history[id := header];
    forall i | 0 <= i < |stem|
      ensures stem[i] != id && stem[i] in history && history'[stem[i]] == history[stem[i]]
    {
    }
    forall i | 0 <= i < |stem|
      ensures LinkOk(history', stem, i)
    {
      assert LinkOk(history, stem, i);
    }
    forall b | b in gone || b == genesis
      ensures Barred(history', gone, b)
    {
      assert Barred(history, gone, b);
    }
    if |stem| > 1 {
      ProofPrefix(history, stem, history', stem, |stem| - 1);
    }
  }

  /** Different headers have different ids. */
  ghost predicate Injective(identify: DagHeader -> Hash) {
    forall h, h' {:trigger identify(h), identify(h')} :: identify(h) == identify(h') ==> h == h'
  }

  /** A pruned block is never accepted again: some parent of it is unknown, or it has none. */
  lemma {:induction false} NeverBack(history: Headers, stem: seq<Hash>, gone: set<Hash>, headers: Headers,
                                     genesis: Hash, proof: seq<DagHeader>, pruned: bool,
                                     identify: DagHeader -> Hash, header: DagHeader)
    requires StemOk(history, stem, gone, headers, genesis, proof, pruned, identify) && Injective(identify)
    requires header.parents != [] && forall p :: p in header.parents ==> p in headers
    ensures identify(header) !in gone
  {
    var id := identify(header);
    hide Chained, Solved;
    assert id in gone ==> Barred(history, gone, id);
  }

  lemma {:induction false} StemChained(history: Headers, stem: seq<Hash>, gone: set<Hash>, headers: Headers,
                                       genesis: Hash, proof: seq<DagHeader>, pruned: bool, identify: DagHeader -> Hash)
    requires StemOk(history, stem, gone, headers, genesis, proof, pruned, identify)
    ensures Chained(history, stem)
  {
  }

  /** After the prune the stem reaches down to the new origin. */
  lemma {:induction false} StemLonger(history: Headers, stem: seq<Hash>, gone: set<Hash>, headers: Headers,
                                      proof: seq<DagHeader>, pruned: bool,
                                      identify: DagHeader -> Hash, g: Graph, gd: Ghosts, g': Graph, gd': Ghosts,
                                        p: Hash, proof': seq<DagHeader>)
    requires StemOk(history, stem, gone, headers, g.genesis, proof, pruned, identify) &&
      HeadersOk(headers, g, gd, identify)
    requires Reanchored(g, gd, g', gd', p) && p in g.past
    requires Chained(history, WholeChain(stem, g, gd, p)) &&
      proof' == ProofOf(history, WholeChain(stem, g, gd, p), |WholeChain(stem, g, gd, p)| - 1)
    ensures StemOk(history, WholeChain(stem, g, gd, p), gone + (g.past[p] - {ORIGIN}), Restricted(headers, Suffix(g')),
      p, proof', true, identify)
  {
    hide Chain, WholeChain, Chained, Reanchored, GdOk, HeadersOk, Solved, Rooted, PastOk, Barred, ProofOf, Linear;
    var whole: seq<Hash> := WholeChain(stem, g, gd, p);
    var gone', headers' := gone + (g.past[p] - {ORIGIN}), Restricted(headers, Suffix(g'));
    ReanchoredParts(g, gd, g', gd', p);
    StemParts(history, stem, gone, headers, g.genesis, proof, pruned, identify);
    GraphParts(g, gd);
    HeaderKeys(headers, g, gd, identify);
    WholeAt(stem, g, gd, p);
    WholeChained(history, stem, gone, headers, proof, pruned, identify, g, gd, p);
    ChainLinks(g, gd, p);
    ChainDistinct(g, gd, p);
    forall i | 0 <= i < |whole| - 1
      ensures whole[i] in gone'
    {
      WholePlace(stem, gone, g, gd, p, i);
    }
    forall b | b in headers'
      ensures b !in gone'
    {
      assert b in headers;
      PNotBelow(g, gd, g', gd', p, b);
    }
    forall b | b in gone' || b == p
      ensures Barred(history, gone', b) && b in history && identify(history[b]) == b
    {
      BarredNow(history, stem, gone, headers, proof, pruned, identify, g, gd, p, b);
    }
  }

  lemma {:induction false} WholePlace(stem: seq<Hash>, gone: set<Hash>, g: Graph, gd: Ghosts, p: Hash, i: nat)
    requires GdOk(g, gd) && p in gd && p in g.past && p != ORIGIN && |stem| > 0 && stem[|stem| - 1] == g.genesis &&
      i < |WholeChain(stem, g, gd, p)| - 1
    requires forall i :: 0 <= i < |stem| - 1 ==> stem[i] in gone
    ensures WholeChain(stem, g, gd, p)[i] in gone + (g.past[p] - {ORIGIN})
  {
    WholeAt(stem, g, gd, p);
    ChainLinks(g, gd, p);
    ChainDistinct(g, gd, p);
    var o := |stem| - 1;
    if i >= o {
      assert Chain(g, gd, p)[i - o] != Chain(g, gd, p)[|Chain(g, gd, p)| - 1];
    }
  }

  lemma {:induction false} BarredNow(history: Headers, stem: seq<Hash>, gone: set<Hash>, headers: Headers,
                                     proof: seq<DagHeader>, pruned: bool,
                                     identify: DagHeader -> Hash, g: Graph, gd: Ghosts, p: Hash, b: Hash)
    requires StemOk(history, stem, gone, headers, g.genesis, proof, pruned, identify) &&
      HeadersOk(headers, g, gd, identify) && GdOk(g, gd)
    requires p in gd && p in g.past && p != ORIGIN &&
      (b in gone || b == g.genesis || b == p || b in g.past[p] - {ORIGIN})
    ensures Barred(history, gone + (g.past[p] - {ORIGIN}), b) && b in history && identify(history[b]) == b
  {
    var gone' := gone + (g.past[p] - {ORIGIN});
    hide Chained, Solved, GdOk;
    if b in gone || b == g.genesis {
      assert Barred(history, gone, b);
    } else {
      GraphParts(g, gd);
      assert b in g.past by {
        if b != p {
          PastInside(g.parents, g.past, b, p);
        }
      }
      assert HeaderOk(headers, g, gd, identify, b);
      HasParentsAt(g, gd, b);
      var q := g.parents[b][0];
      PastSmaller(g.parents, g.past, q, b);
      PastTrans(g.parents, g.past, q, b, p);
      assert q in Listed(headers[b].parents);
    }
  }
}
