/** The DAG engine: reachability and GHOSTDAG kept together, the heaviest tip, the total order. */
module Engine {
  import opened Types
  import opened Dag
  import opened Tree
  import opened Store
  import opened Covering
  import opened NewLeaf
  import opened TreeOps
  import opened Inquirer
  import opened Ghostdag
  import opened BlueSets
  import opened Colouring
  import opened Protocol
  import opened Agreement
  import opened Linearization

  /** Blocks that a new engine can take before its labels may run out. */
  const CAPACITY: nat := 19_000_000

  function EmptyGraph(genesis: Hash, k: nat): Graph {
    Graph(map[ORIGIN := []], map[ORIGIN := {}], genesis, k)
  }

  class DagEngine {
    const genesis: Hash
    const manager: GhostdagManager
    var tip: Hash
    /** The DAG added so far, with the origin above it. */
    ghost var g: Graph

    constructor (k: nat, genesis: Hash)
      requires genesis != ORIGIN && genesis != NONE
      ensures Valid() && fresh(manager) && fresh(manager.reach) && this.genesis == genesis &&
        g == EmptyGraph(genesis, k)
      ensures Room(CAPACITY)
    {
      var reach := new ReachabilityStore();
      var r := Init(reach);
      var m := new GhostdagManager(genesis, k, reach);
      this.genesis, manager, tip, g := genesis, m, genesis, EmptyGraph(genesis, k);
    }

    ghost predicate Valid()
      reads this, manager, manager.reach
    {
      && manager.genesis == genesis == g.genesis && manager.k == g.k && genesis != ORIGIN && genesis != NONE &&
        NONE !in g.past
      && if Started() then
          manager.Serves(g) && Heaviest(manager.gd, manager.gd.Keys - {ORIGIN}, tip)
        else
          && g == EmptyGraph(genesis, g.k) && tip == genesis
          && manager.gd == map[ORIGIN := ORIGIN_DATA] && manager.relations == map[]
          && Indexes(manager.reach, g.past, ORIGIN)
    }

    /** The labels suffice for `n` more blocks, whatever their parents. */
    ghost predicate Room(n: nat)
      reads this, manager, manager.reach
    {
      Roomy(manager.reach, DEFAULT_REINDEX_SLACK, n)
    }

    /** Genesis was added. */
    ghost predicate Started()
      reads this
    {
      genesis in g.past
    }

    /** Genesis comes first, below the origin alone; then blocks with known parents, none of them in
        the past of the selected one. */
    ghost predicate Accepts(block: Hash, ps: seq<Hash>)
      reads this, manager
    {
      && block !in g.past && block != NONE
      && if !Started() then block == genesis && ps == [ORIGIN]
        else |ps| > 0 && ORIGIN !in ps && (forall p :: p in ps ==> p in g.past) && Tidy(g.past, manager.gd, ps)
    }

    lemma {:induction false} ValidIndex()
      requires Valid()
      ensures Indexes(manager.reach, g.past, ORIGIN) && manager.gd.Keys == g.past.Keys == g.parents.Keys &&
        ORIGIN in g.past
      ensures PastOk(g.parents, g.past) && manager.relations == g.parents - {ORIGIN}
      ensures Started() ==> GdOk(g, manager.gd) && manager.Serves(g)
      ensures manager.genesis == genesis == g.genesis && manager.k == g.k && genesis != NONE && genesis != ORIGIN &&
        NONE !in g.past
      ensures if Started() then Heaviest(manager.gd, manager.gd.Keys - {ORIGIN}, tip)
        else tip == genesis && g == EmptyGraph(genesis, g.k) && manager.gd == map[ORIGIN := ORIGIN_DATA]
    {
      if !Started() {
        assert PastStep(g.parents, g.past, ORIGIN);
      }
    }

    lemma {:induction false} StaysStarted(g0: Graph, block: Hash, ps: seq<Hash>)
      requires genesis in g0.past && g == Extended(g0, block, ps, Merged(ps, g0.past))
      ensures Started()
    {
    }

    /** Adds a block: its GHOSTDAG data, its place in the index, and perhaps a new tip. It cannot fail
        while there is room for labels. */
    method AddBlock(block: Hash, parents: seq<Hash>) returns (r: Status, d: GhostdagData)
      requires Valid() && Accepts(block, parents)
      modifies this, manager, manager.reach
      ensures r in {Ok, DataOverflow, Panic}
      ensures r == Ok ==> Valid() && g == Extended(old(g), block, parents, Merged(parents, old(g.past)))
      ensures r == Ok ==> manager.gd == old(manager.gd)[block := d]
      ensures r == Ok ==>
        Hinted(old(manager.reach.tree), old(manager.reach.reindexRoot), manager.reach.tree, manager.reach.reindexRoot,
        block, d.selectedParent)
      ensures r == Ok ==> tip == if old(Started()) && !Less(manager.gd, old(tip), block) then old(tip) else block
      ensures forall n: nat :: n > 0 && old(Room(n)) ==> r == Ok && Room(n - 1)
    {
      hide Roomy, DataFor, GdOk, Merged, Indexes, Tidy, Merges, Valid, Accepts, Heaviest, GhostdagManager.Serves,
        Recordable, Hinted;
      ValidIndex();
      ghost var g0, gd0, tip0, whole := g, manager.gd, tip, Merged(parents, g.past);
      ParentsKnown(block, parents);
      d := manager.Ghostdag(parents, g);
      DataReady(g, gd0, block, parents, d);
      RecordableNow(g, gd0, block, parents, d);
      r := Insert(block, d, g0, whole);
      if r != Ok {
        return;
      }
      ghost var tree, pivot := manager.reach.tree, manager.reach.reindexRoot;
      assert Hinted(old(manager.reach.tree), old(manager.reach.reindexRoot), tree, pivot, block, d.selectedParent);
      Record(block, parents, d, g0, gd0, tip0);
      assert manager.reach.tree == tree;
      assert manager.reach.reindexRoot == pivot;
    }

    /** Stores the data and the parents, and moves the tip to the block if it is heavier. */
    method Record(block: Hash, parents: seq<Hash>, d: GhostdagData, ghost g0: Graph, ghost gd0: Ghosts,
                  ghost tip0: Hash)
      requires Recordable(g0, gd0, block, parents, d) && tip == tip0
      requires manager.gd == gd0 && manager.relations == g0.parents - {ORIGIN} &&
        Indexes(manager.reach, g0.past[block := Merged(parents, g0.past)], ORIGIN)
      requires manager.genesis == genesis == g0.genesis && manager.k == g0.k && genesis != NONE && genesis != ORIGIN &&
        NONE !in g0.past && block != NONE
      requires if genesis in g0.past then Heaviest(gd0, gd0.Keys - {ORIGIN}, tip0) else tip0 == genesis
      modifies this, manager
      ensures Valid() && g == Extended(g0, block, parents, Merged(parents, g0.past)) && manager.gd == gd0[block := d]
      ensures tip == if genesis in g0.past && !Less(manager.gd, tip0, block) then tip0 else block
    {
      RecordedRight(g0, gd0, block, parents, d);
      hide DataFor, GdOk, Merged, Indexes, Heaviest, Recordable, Valid, GhostdagManager.Serves;
      manager.gd := manager.gd[block := d];
      manager.relations := manager.relations[block := parents];
      g := Extended(g0, block, parents, Merged(parents, g0.past));
      if Less(manager.gd, tip, block) {
        tip := block;
      }
      TipKept(gd0, block, d, tip0);
      RelationsGrow(g0.parents, block, parents);
      ValidNow();
    }

    lemma {:induction false} ValidNow()
      requires genesis in g.past && GdOk(g, manager.gd) && manager.relations == g.parents - {ORIGIN} &&
        Indexes(manager.reach, g.past, ORIGIN)
      requires manager.genesis == genesis == g.genesis && manager.k == g.k && genesis != NONE && genesis != ORIGIN &&
        NONE !in g.past
      requires Heaviest(manager.gd, manager.gd.Keys - {ORIGIN}, tip)
      ensures Valid()
    {
      hide GdOk, Indexes, Heaviest;
    }

    /** The heaviest of the old tip and the new block is the heaviest of all. */
    lemma {:induction false} TipKept(gd: Ghosts, block: Hash, d: GhostdagData, tip0: Hash)
      requires block !in gd && block != ORIGIN && ORIGIN in gd && manager.gd == gd[block := d]
      requires gd.Keys == {ORIGIN} || Heaviest(gd, gd.Keys - {ORIGIN}, tip0)
      requires tip == if gd.Keys != {ORIGIN} && !Less(manager.gd, tip0, block) then tip0 else block
      ensures Heaviest(manager.gd, manager.gd.Keys - {ORIGIN}, tip)
    {
      forall x | x in manager.gd.Keys - {ORIGIN}
        ensures x == tip || Less(manager.gd, x, tip)
      {
        if x != block {
          assert x in gd.Keys - {ORIGIN};
          assert x == tip0 || Less(gd, x, tip0);
        }
      }
    }

    lemma {:induction false} ParentsKnown(block: Hash, parents: seq<Hash>)
      requires Valid() && Accepts(block, parents)
      ensures |parents| > 0 && (forall p :: p in parents ==> p in manager.gd && p in g.past && p in g.parents) &&
        block !in g.past
      ensures parents == [ORIGIN] <==> !Started()
      ensures block != NONE && (!Started() ==> block == genesis)
      ensures Started() ==> ORIGIN !in parents && Tidy(g.past, manager.gd, parents)
    {
      ValidIndex();
    }

    /** Enters the block in the index and hints at it as the next selected tip. */
    method Insert(block: Hash, d: GhostdagData, ghost g0: Graph, ghost whole: set<Hash>) returns (r: Status)
      requires Indexes(manager.reach, g0.past, ORIGIN) && block !in g0.past && block != NONE
      requires Merges(g0, d, whole) && |d.blues| > 0
      modifies manager.reach
      ensures r in {Ok, DataOverflow, Panic}
      ensures r == Ok ==> Indexes(manager.reach, g0.past[block := whole], ORIGIN)
      ensures r == Ok ==>
        Hinted(old(manager.reach.tree), old(manager.reach.reindexRoot), manager.reach.tree, manager.reach.reindexRoot,
        block, d.selectedParent)
      ensures forall n: nat :: n > 0 && old(Roomy(manager.reach, DEFAULT_REINDEX_SLACK, n)) ==>
        r == Ok && Roomy(manager.reach, DEFAULT_REINDEX_SLACK, n - 1)
    {
      var reach, sp := manager.reach, d.selectedParent;
      var mergeset := d.blues[1..] + d.reds;
      IndexedTree(reach, g0.past, ORIGIN);
      ValidParts(reach, ORIGIN);
      IndexParts(reach.tree, reach.labels, reach.cover, g0.past, ORIGIN);
      hide Indexes, IndexOk, WithLeaf, TreeValid;
      MergesetKnown(g0, d, whole, mergeset);
      MergeSetAccepted(reach.tree, reach.labels, reach.cover, g0.past, ORIGIN, sp, mergeset, whole);
      r := Enter(reach, block, sp, mergeset, g0.past, whole);
    }

    /** The selected chain, genesis first. */
    method SelectedChain() returns (chain: seq<Hash>)
      requires Valid() && Started()
      ensures chain == Chain(g, manager.gd, tip)
    {
      ValidIndex();
      ghost var gd := manager.gd;
      TipKnown();
      hide Valid, GdOk, GhostdagManager.Serves, DataOk;
      chain := [];
      var cur := tip;
      while true
        invariant cur in gd && cur in g.past && cur != ORIGIN && gd == manager.gd
        invariant Chain(g, gd, cur) + chain == Chain(g, gd, tip)
        decreases g.past[cur]
      {
        chain := [cur] + chain;
        if cur == genesis {
          break;
        }
        LinearStep(g, gd, cur);
        cur := manager.gd[cur].selectedParent;
      }
    }

    lemma {:induction false} TipKnown()
      requires Valid() && Started()
      ensures tip in manager.gd && tip in g.past && tip != ORIGIN
    {
    }

    /** All blocks below the tip in their final order, each chain block after the blocks it merges. */
    method TotalOrder() returns (order: seq<Hash>)
      requires Valid() && Started()
      ensures order == Linear(g, manager.gd, tip)
    {
      ValidIndex();
      ghost var gd := manager.gd;
      TipKnown();
      var chain := SelectedChain();
      ChainLinks(g, gd, tip);
      hide Valid, GdOk, GhostdagManager.Serves, DataOk, MergedBlocks;
      order := [];
      for i := 0 to |chain|
        invariant gd == manager.gd
        invariant i > 0 ==> order == Linear(g, gd, chain[i - 1])
        invariant i == 0 ==> order == []
      {
        var b := chain[i];
        if b == genesis {
          ChainStart(g, gd, tip, i);
          order := order + [b];
          continue;
        }
        LinearStep(g, gd, b);
        MergedList(g, gd, b);
        var d := manager.gd[b];
        var mergeset := manager.SortBlocks((set m | m in d.blues[1..]) + (set m | m in d.reds));
        order := order + mergeset;
        order := order + [b];
      }
    }
  }

  /** The tree got `block` below its selected parent, and the reindex root went where a hint at the
      block sends it. */
  ghost predicate Hinted(t: Shape, pivot: Hash, t': Shape, pivot': Hash, block: Hash, sp: Hash) {
    && Fresh(t, block, sp) && t' == WithLeaf(t, block, sp)
    && MovedTo(t', pivot, block, DEFAULT_REINDEX_DEPTH, DEFAULT_REINDEX_SLACK, pivot')
  }

  /** A block enters the index and is hinted at as the next selected tip. */
  method Enter(reach: ReachabilityStore, block: Hash, sp: Hash, mergeset: seq<Hash>, ghost past: Pasts,
               ghost whole: set<Hash>) returns (r: Status)
    requires Indexes(reach, past, ORIGIN) && block !in reach.tree && block != NONE && sp in reach.tree && forall m ::
      m in mergeset ==> m in reach.tree
    requires Mergeable(reach.tree, reach.cover, sp, mergeset) && PastWith(past, sp, Listed(mergeset)) == whole
    modifies reach
    ensures r in {Ok, DataOverflow, Panic}
    ensures r == Ok ==> Indexes(reach, past[block := whole], ORIGIN)
    ensures r == Ok ==> Hinted(old(reach.tree), old(reach.reindexRoot), reach.tree, reach.reindexRoot, block, sp)
    ensures forall n: nat :: n > 0 && old(Roomy(reach, DEFAULT_REINDEX_SLACK, n)) ==>
      r == Ok && Roomy(reach, DEFAULT_REINDEX_SLACK, n - 1)
  {
    hide Indexes, IndexOk, WithLeaf, TreeValid, Mergeable, PastWith, Spacious, MoveRoom, MovedTo, PivotOk;
    ghost var t, pivot := reach.tree, reach.reindexRoot;
    FreshLeaf(reach, past, block, sp);
    ghost var size := reach.labels[pivot].Size();
    BlockFits(reach, pivot, size);
    r := Inquirer.AddBlock(reach, block, sp, mergeset, DEFAULT_REINDEX_SLACK, past, ORIGIN);
    if r != Ok {
      return;
    }
    ghost var size' := reach.labels[pivot].Size();
    MoveFits(t, block, sp, pivot, size, size');
    IndexedTree(reach, past[block := whole], ORIGIN);
    r :=
      HintVirtualSelectedParent(reach, block, DEFAULT_REINDEX_DEPTH, DEFAULT_REINDEX_SLACK, past[block := whole],
      ORIGIN);
    if r == Ok {
      IndexedTree(reach, past[block := whole], ORIGIN);
      RoomRemains(t, block, sp, pivot, size, size', reach.labels[reach.reindexRoot].Size());
    }
  }

  lemma {:induction false} BlockFits(reach: ReachabilityStore, pivot: Hash, size: int)
    requires pivot == reach.reindexRoot && size == if pivot in reach.labels then reach.labels[pivot].Size() else 0
    ensures forall n: nat {:trigger Roomy(reach, DEFAULT_REINDEX_SLACK, n)} ::
      n > 0 && Roomy(reach, DEFAULT_REINDEX_SLACK, n) ==>
        && pivot in reach.tree && pivot in reach.labels && HasRoom(reach, DEFAULT_REINDEX_SLACK)
        && Spacious(reach.tree, size, DEFAULT_REINDEX_SLACK, n)
  {
    forall n: nat | n > 0 && Roomy(reach, DEFAULT_REINDEX_SLACK, n)
      ensures HasRoom(reach, DEFAULT_REINDEX_SLACK)
    {
      RoomForLeaf(reach.tree, pivot, size, DEFAULT_REINDEX_SLACK, n);
    }
  }

  lemma {:induction false} MoveFits(t: Shape, block: Hash, sp: Hash, pivot: Hash, size: int, size': int)
    requires Fresh(t, block, sp) && pivot in t &&
      size' >= size - |WithLeaf(t, block, sp)| - DEFAULT_REINDEX_SLACK * t[pivot].height
    ensures block in WithLeaf(t, block, sp)
    ensures forall n: nat {:trigger Spacious(t, size, DEFAULT_REINDEX_SLACK, n)} ::
      n > 0 && Spacious(t, size, DEFAULT_REINDEX_SLACK, n) ==>
        MoveRoom(WithLeaf(t, block, sp), size', block, DEFAULT_REINDEX_SLACK)
  {
    forall n: nat | n > 0 && Spacious(t, size, DEFAULT_REINDEX_SLACK, n)
      ensures MoveRoom(WithLeaf(t, block, sp), size', block, DEFAULT_REINDEX_SLACK)
    {
      RoomForMove(t, block, sp, pivot, size, size', DEFAULT_REINDEX_SLACK, n);
    }
  }

  lemma {:induction false} RoomRemains(t: Shape, block: Hash, sp: Hash, pivot: Hash, size: int, size': int, size'': int)
    requires Fresh(t, block, sp) && pivot in t &&
      size' >= size - |WithLeaf(t, block, sp)| - DEFAULT_REINDEX_SLACK * t[pivot].height
    requires block in WithLeaf(t, block, sp)
    requires size'' >=
      size' - |WithLeaf(t, block, sp)| - 2 * DEFAULT_REINDEX_SLACK * WithLeaf(t, block, sp)[block].height
    ensures forall n: nat {:trigger Spacious(t, size, DEFAULT_REINDEX_SLACK, n)} ::
      n > 0 && Spacious(t, size, DEFAULT_REINDEX_SLACK, n) ==>
        Spacious(WithLeaf(t, block, sp), size'', DEFAULT_REINDEX_SLACK, n - 1)
  {
    forall n: nat | n > 0 && Spacious(t, size, DEFAULT_REINDEX_SLACK, n)
      ensures Spacious(WithLeaf(t, block, sp), size'', DEFAULT_REINDEX_SLACK, n - 1)
    {
      RoomForMove(t, block, sp, pivot, size, size', DEFAULT_REINDEX_SLACK, n);
      RoomAfter(t, block, sp, size', size'', DEFAULT_REINDEX_SLACK, n);
    }
  }

  lemma {:induction false} FreshLeaf(reach: ReachabilityStore, past: Pasts, block: Hash, sp: Hash)
    requires Indexes(reach, past, ORIGIN) && block !in reach.tree && block != NONE && sp in reach.tree
    ensures Fresh(reach.tree, block, sp) && reach.reindexRoot in reach.tree && reach.reindexRoot in reach.labels
    ensures forall p :: p in reach.tree ==>
      p in WithLeaf(reach.tree, block, sp) && WithLeaf(reach.tree, block, sp)[p].height == reach.tree[p].height
  {
    IndexedTree(reach, past, ORIGIN);
  }

  lemma {:induction false} MergedList(g: Graph, gd: Ghosts, b: Hash)
    requires GdOk(g, gd) && b in gd && b != ORIGIN && b != g.genesis
    ensures |gd[b].blues| > 0 && MergedBlocks(gd[b]) == (set m | m in gd[b].blues[1..]) + (set m | m in gd[b].reds)
  {
    BluesMerged(g, gd, b);
  }

  /** Genesis is the first chain block and no other. */
  lemma {:induction false} ChainStart(g: Graph, gd: Ghosts, b: Hash, i: nat)
    requires GdOk(g, gd) && b in gd && b != ORIGIN && i < |Chain(g, gd, b)|
    ensures Chain(g, gd, b)[i] == g.genesis ==> i == 0
    ensures Linear(g, gd, g.genesis) == [g.genesis]
  {
    ChainLinks(g, gd, b);
  }

  // ---------- engines compared ----------

  ghost predicate SameBlocks(g: Graph, g': Graph) {
    && g.k == g'.k && g.genesis == g'.genesis && g.parents.Keys == g'.parents.Keys
    && forall h {:trigger SameParents(g, g', h)} :: h in g.parents ==> SameParents(g, g', h)
  }

  /** Two engines that were given the same DAG, in whatever order, agree on everything. */
  lemma {:induction false} EnginesAgree(e: DagEngine, e': DagEngine)
    requires e.Valid() && e'.Valid() && e.Started() && e'.Started() && SameBlocks(e.g, e'.g)
    ensures e.g.past == e'.g.past && e.manager.gd == e'.manager.gd
    ensures e.tip == e'.tip
    ensures Linear(e.g, e.manager.gd, e.tip) == Linear(e'.g, e'.manager.gd, e'.tip)
  {
    e.ValidIndex();
    e'.ValidIndex();
    e.TipKnown();
    e'.TipKnown();
    var g, gd, g', gd' := e.g, e.manager.gd, e'.g, e'.manager.gd;
    BlocksAgree(g, gd, g', gd');
    AllSameDag(g, g', e.tip);
    LinearAgrees(g, gd, g', gd', e.tip);
  }

  lemma {:induction false} AllSameDag(g: Graph, g': Graph, b: Hash)
    requires SameBlocks(g, g') && PastOk(g.parents, g.past) && b in g.past
    ensures SameDag(g, g', b)
  {
    forall h | Below(g.past, h, b)
      ensures SameParents(g, g', h)
    {
      if h != b {
        PastInside(g.parents, g.past, h, b);
      }
    }
  }

  lemma {:induction false} BlocksAgree(g: Graph, gd: Ghosts, g': Graph, gd': Ghosts)
    requires GdOk(g, gd) && GdOk(g', gd') && SameBlocks(g, g')
    ensures g.past == g'.past && gd == gd'
  {
    forall b | b in gd
      ensures b in gd' && g.past[b] == g'.past[b] && gd[b] == gd'[b]
    {
      AllSameDag(g, g', b);
      DataAgrees(g, gd, g', gd', b);
    }
  }

  /** The data is right for the block in the DAG so far. */
  ghost predicate Recordable(g: Graph, gd: Ghosts, block: Hash, ps: seq<Hash>, d: GhostdagData) {
    && block !in g.past && gd.Keys == g.past.Keys
    && if g.genesis in g.past then
        && GdOk(g, gd) && |ps| > 0 && ORIGIN !in ps && (forall p :: p in ps ==> p in g.past)
        && DataFor(g.past, gd, g.k, ps, Merged(ps, g.past), d)
      else
        g == EmptyGraph(g.genesis, g.k) && gd == map[ORIGIN := ORIGIN_DATA] && block == g.genesis && ps == [ORIGIN] &&
          d == GENESIS_DATA
  }

  lemma {:induction false} RecordableNow(g: Graph, gd: Ghosts, block: Hash, ps: seq<Hash>, d: GhostdagData)
    requires block !in g.past && gd.Keys == g.past.Keys
    requires g.genesis in g.past ==>
      GdOk(g, gd) && |ps| > 0 && ORIGIN !in ps && (forall p :: p in ps ==> p in g.past) &&
      DataFor(g.past, gd, g.k, ps, Merged(ps, g.past), d)
    requires g.genesis !in g.past ==>
      g == EmptyGraph(g.genesis, g.k) && gd == map[ORIGIN := ORIGIN_DATA] && block == g.genesis && ps == [ORIGIN] &&
      d == GENESIS_DATA
    ensures Recordable(g, gd, block, ps, d)
  {
  }

  lemma {:induction false} RelationsGrow(parents: Parents, block: Hash, ps: seq<Hash>)
    requires block != ORIGIN
    ensures (parents - {ORIGIN})[block := ps] == parents[block := ps] - {ORIGIN}
  {
  }

  lemma {:induction false} RecordedRight(g: Graph, gd: Ghosts, block: Hash, ps: seq<Hash>, d: GhostdagData)
    requires Recordable(g, gd, block, ps, d) && g.genesis != ORIGIN
    ensures var g' := Extended(g, block, ps, Merged(ps, g.past));
      GdOk(g', gd[block := d]) && ORIGIN in gd && block != ORIGIN
    ensures Extended(g, block, ps, Merged(ps, g.past)).genesis in Extended(g, block, ps, Merged(ps, g.past)).past &&
      block !in gd
    ensures g.genesis !in g.past ==> block == g.genesis && gd.Keys == {ORIGIN}
    ensures g.genesis in g.past ==> gd.Keys != {ORIGIN}
  {
    if g.genesis in g.past {
      GdGrows(g, gd, block, ps, d);
    } else {
      GenesisAlone(g.genesis, g.k);
    }
  }

  /** The merge set that the data lists, against the whole past of the block. */
  ghost predicate Merges(g: Graph, d: GhostdagData, whole: set<Hash>) {
    var sp := d.selectedParent;
    && |d.blues| > 0 && sp in g.past && whole <= g.past.Keys && g.past[sp] + {sp} <= whole
    && Listed(d.blues[1..] + d.reds) == whole - g.past[sp] - {sp} && Distinct(d.blues[1..] + d.reds)
  }

  lemma {:induction false} MergesetKnown(g: Graph, d: GhostdagData, whole: set<Hash>, mergeset: seq<Hash>)
    requires Merges(g, d, whole) && mergeset == d.blues[1..] + d.reds
    ensures d.selectedParent in g.past && forall m :: m in mergeset ==> m in g.past
    ensures whole <= g.past.Keys && g.past[d.selectedParent] + {d.selectedParent} <= whole
    ensures Listed(mergeset) == whole - g.past[d.selectedParent] - {d.selectedParent} && forall i, j ::
      0 <= i < j < |mergeset| ==> mergeset[i] != mergeset[j]
  {
    forall m | m in mergeset
      ensures m in g.past
    {
      assert m in Listed(mergeset);
    }
  }

  lemma {:induction false} ListedSize(s: seq<Hash>)
    ensures |Listed(s)| <= |s|
    ensures |Listed(s)| == |s| ==> Distinct(s)
  {
    if |s| > 0 {
      var init, x := s[..|s| - 1], s[|s| - 1];
      assert s == init + [x];
      ListedSize(init);
      ListedSnoc(init, x);
      if x in Listed(init) {
        assert Listed(init) + {x} == Listed(init);
      } else {
        OneMore(Listed(init), x);
        if |Listed(s)| == |s| {
          DistinctSnoc(init, x);
        }
      }
    }
  }

  /** The recorded merge set is the whole past but for the selected parent and its past, each block once. */
  lemma {:induction false} DataMerges(g: Graph, gd: Ghosts, ps: seq<Hash>, d: GhostdagData)
    requires GdOk(g, gd) && (forall p :: p in ps ==> p in g.past) && DataFor(g.past, gd, g.k, ps, Merged(ps, g.past), d)
    ensures Merges(g, d, Merged(ps, g.past))
  {
    var sp, whole := d.selectedParent, Merged(ps, g.past);
    var order := InOrder(gd, whole - g.past[sp] - {sp});
    assert sp in Listed(ps);
    GreedyWithin(g.past, BlueSet(g.past, gd, sp) + {sp}, g.k, order);
    ListedConcat(d.blues[1..], d.reds);
    SortedApart(gd, order);
    DistinctSize(order);
    ListedSize(d.blues[1..] + d.reds);
    MergedKnown(g, ps);
    BelowMerged(g, ps, sp);
  }

  lemma {:induction false} BelowMerged(g: Graph, ps: seq<Hash>, p: Hash)
    requires p in ps && p in g.past
    ensures g.past[p] + {p} <= Merged(ps, g.past)
  {
    forall x | x in g.past[p] + {p}
      ensures x in Merged(ps, g.past)
    {
      assert Below(g.past, x, p);
    }
  }

  lemma {:induction false} DataReady(g: Graph, gd: Ghosts, block: Hash, ps: seq<Hash>, d: GhostdagData)
    requires g.genesis in g.past ==>
      GdOk(g, gd) && (forall p :: p in ps ==> p in g.past) && DataFor(g.past, gd, g.k, ps, Merged(ps, g.past), d)
    requires g.genesis !in g.past ==> g == EmptyGraph(g.genesis, g.k) && ps == [ORIGIN] && d == GENESIS_DATA
    ensures Merges(g, d, Merged(ps, g.past))
  {
    if g.genesis in g.past {
      DataMerges(g, gd, ps, d);
    } else {
      OriginMerged(g.past);
      assert d.blues[1..] + d.reds == [];
    }
  }

  lemma {:induction false} OriginMerged(past: Pasts)
    requires ORIGIN in past && past[ORIGIN] == {}
    ensures Merged([ORIGIN], past) == {ORIGIN}
  {
    forall x
      ensures x in Merged([ORIGIN], past) <==> x == ORIGIN
    {
      InMerged([ORIGIN], past, x);
      assert ORIGIN in [ORIGIN] && (x == ORIGIN ==> Below(past, x, ORIGIN));
    }
  }

  /** Genesis alone below the origin. */
  lemma {:induction false} GenesisAlone(genesis: Hash, k: nat)
    requires genesis != ORIGIN
    ensures var g := EmptyGraph(genesis, k);
      GdOk(Extended(g, genesis, [ORIGIN], Merged([ORIGIN], g.past)),
        map[ORIGIN := ORIGIN_DATA][genesis := GENESIS_DATA])
  {
    var g := EmptyGraph(genesis, k);
    assert PastOk(g.parents, g.past) by {
      assert Merged([], g.past) == {};
      assert PastStep(g.parents, g.past, ORIGIN);
    }
    PastGrows(g.parents, g.past, genesis, [ORIGIN]);
  }
}
