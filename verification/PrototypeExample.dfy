/** A block DAG whose order in the prototype does not put parents first. */
module PrototypeExample {
  import opened Types
  import opened Dag
  import opened Ghostdag
  import opened Linearization
  import opened Prototype

  /** A block on a single parent merges nothing. */
  function Above(nodes: Nodes, id: Hash, p: Hash): Nodes
    requires p in nodes
  {
    nodes[id := Node([p], nodes[p].past + {p}, nodes[p].blueSet + {id}, Some(p), [], [])]
  }

  lemma {:induction false} AboveOk(nodes: Nodes, id: Hash, p: Hash)
    requires NodesOk(nodes, 1, 1) && id !in nodes && p in nodes
    ensures NodesOk(Above(nodes, id, p), 1, 1)
  {
    var n, past := Above(nodes, id, p)[id], PastsOf(nodes);
    assert Listed([p]) == {p};
    OneParent(past, p);
    NotOwnPast(ParentsOf(nodes), past, p);
    assert n.past - nodes[p].past - {p} == {};
    NothingMerged(past, nodes[p].blueSet);
    assert n.blueSet == nodes[p].blueSet + Listed(n.blues) + {id};
    hide NodesOk, Greedy, InOrder, Merged;
    NewNode(nodes, 1, 1, id, n, p);
  }

  lemma {:induction false} OneParent(past: Pasts, p: Hash)
    requires p in past
    ensures Merged([p], past) == past[p] + {p}
  {
    forall x
      ensures x in Merged([p], past) <==> x in past[p] + {p}
    {
      InMerged([p], past, x);
      assert p in [p];
    }
  }

  lemma {:induction false} TwoParents(past: Pasts, p: Hash, q: Hash)
    requires p in past && q in past
    ensures Merged([p, q], past) == past[p] + {p} + past[q] + {q}
  {
    forall x
      ensures x in Merged([p, q], past) <==> x in past[p] + {p} + past[q] + {q}
    {
      InMerged([p, q], past, x);
      assert p in [p, q] && q in [p, q];
    }
  }

  lemma {:induction false} NothingMerged(past: Pasts, base: set<Hash>)
    ensures Greedy(past, base, 1, InOrder(Weighed(past), {})) == Colours([], [])
  {
    SortedUnique(Weighed(past), [], InOrder(Weighed(past), {}));
  }

  const ROOT: Nodes := map[1 := Node([], {}, {1}, None, [], [])]

  /** A chain of four blocks, and a block beside it on genesis. */
  const CHAIN: Nodes := map[
    1 := Node([], {}, {1}, None, [], []),
    2 := Node([1], {1}, {1, 2}, Some(1), [], []),
    3 := Node([2], {1, 2}, {1, 2, 3}, Some(2), [], []),
    4 := Node([3], {1, 2, 3}, {1, 2, 3, 4}, Some(3), [], []),
    5 := Node([1], {1}, {1, 5}, Some(1), [], [])]

  lemma {:induction false} ChainOk()
    ensures NodesOk(CHAIN, 1, 1)
  {
    RootOk();
    hide NodesOk;
    var n2 := Above(ROOT, 2, 1);
    AboveOk(ROOT, 2, 1);
    assert n2[2] == CHAIN[2];
    var n3 := Above(n2, 3, 2);
    AboveOk(n2, 3, 2);
    assert {1} + {2} == {1, 2} && {1, 2} + {3} == {1, 2, 3};
    assert n3[3] == CHAIN[3];
    var n4 := Above(n3, 4, 3);
    AboveOk(n3, 4, 3);
    assert {1, 2} + {3} == {1, 2, 3} && {1, 2, 3} + {4} == {1, 2, 3, 4};
    assert n4[4] == CHAIN[4];
    AboveOk(n4, 5, 1);
    var n5 := Above(n4, 5, 1);
    assert n5[5] == CHAIN[5];
    assert n5 == CHAIN;
  }

  lemma {:induction false} RootOk()
    ensures NodesOk(ROOT, 1, 1)
  {
    assert Merged([], PastsOf(ROOT)) == {};
    assert PastStep(ParentsOf(ROOT), PastsOf(ROOT), 1);
  }

  /** Block 6 merges block 5 beside 3: it has two blues in its anticone and is red. */
  const SIX: Node := Node([5, 3], {1, 2, 3, 5}, {1, 2, 3, 6}, Some(3), [], [5])

  lemma {:induction false} SixOk()
    ensures NodesOk(CHAIN[6 := SIX], 1, 1)
  {
    ChainOk();
    hide NodesOk, Greedy, InOrder, Merged, Best;
    var past := PastsOf(CHAIN);
    TwoParents(past, 5, 3);
    SixSets();
    SixBest();
    OneMerged(past);
    NewNode(CHAIN, 1, 1, 6, SIX, 3);
  }

  lemma {:induction false} SixSets()
    ensures CHAIN[5].past + {5} + CHAIN[3].past + {3} == SIX.past && SIX.past - CHAIN[3].past - {3} == {5}
    ensures SIX.blueSet == CHAIN[3].blueSet + Listed(SIX.blues) + {6}
  {
  }

  lemma {:induction false} SixBest()
    ensures Best(CHAIN, Listed([5, 3]), 3)
  {
    assert |{1, 5}| == 2 && |{1, 2, 3}| == 3;
    assert Score(CHAIN, 5) == 2 && Score(CHAIN, 3) == 3;
    assert Listed([5, 3]) == {5, 3};
  }

  lemma {:induction false} OneMerged(past: Pasts)
    requires past == PastsOf(CHAIN)
    ensures Greedy(past, CHAIN[3].blueSet, 1, InOrder(Weighed(past), {5})) == Colours([], [5])
  {
    SortedUnique(Weighed(past), [5], InOrder(Weighed(past), {5}));
    hide InOrder, Greedy, KCluster;
    TwoBeside(past, {1, 2, 3} + {5}, 5, 2, 3);
    GreedyOne(past, {1, 2, 3}, 1, 5);
  }

  lemma {:induction false} GreedyOne(past: Pasts, base: set<Hash>, k: nat, x: Hash)
    requires !KCluster(past, base + {x}, k)
    ensures Greedy(past, base, k, [x]) == Colours([], [x])
  {
    var none: seq<Hash> := [];
    assert [x][..0] == none;
    assert Greedy(past, base, k, none) == Colours([], []);
    assert base + Listed(none) + {x} == base + {x};
  }

  lemma {:induction false} GreedyTwo(past: Pasts, base: set<Hash>, k: nat, x: Hash, y: Hash)
    requires !KCluster(past, base + {x}, k) && KCluster(past, base + {y}, k)
    ensures Greedy(past, base, k, [x, y]) == Colours([y], [x])
  {
    GreedyOne(past, base, k, x);
    var none: seq<Hash> := [];
    assert [x, y][..1] == [x];
    assert base + Listed(none) + {y} == base + {y};
  }

  /** Two blocks beside `p` are too many. */
  lemma {:induction false} TwoBeside(past: Pasts, s: set<Hash>, p: Hash, u: Hash, v: Hash)
    requires p in s && u in s && v in s && u != v && Anticone(past, u, p) && Anticone(past, v, p)
    ensures !KCluster(past, s, 1)
  {
    SubsetCount({u, v}, AnticoneIn(past, s, p));
    assert |{u, v}| == 2;
    assert !Bounded(past, s, 1, p);
  }

  const BEFORE: Nodes := CHAIN[6 := SIX]

  /** Block 7 merges 5 and 6 beside 4. Block 5 stays red; 6 has only 4 in its anticone and is blue. */
  const SEVEN: Node := Node([4, 6], {1, 2, 3, 4, 5, 6}, {1, 2, 3, 4, 6, 7}, Some(4), [6], [5])

  const ALL: Nodes := BEFORE[7 := SEVEN]

  lemma {:induction false} SevenOk()
    ensures NodesOk(ALL, 1, 1)
  {
    SixOk();
    hide NodesOk, Greedy, InOrder, Merged, Best;
    var past := PastsOf(BEFORE);
    TwoParents(past, 4, 6);
    SevenSets();
    SevenBest();
    BothMerged(past);
    NewNode(BEFORE, 1, 1, 7, SEVEN, 4);
  }

  lemma {:induction false} SevenSets()
    ensures BEFORE[4].past + {4} + BEFORE[6].past + {6} == SEVEN.past && SEVEN.past - BEFORE[4].past - {4} == {5, 6}
    ensures SEVEN.blueSet == BEFORE[4].blueSet + Listed(SEVEN.blues) + {7}
  {
  }

  lemma {:induction false} SevenBest()
    ensures Best(BEFORE, Listed([4, 6]), 4)
  {
    assert |{1, 2, 3, 4}| == 4 && |{1, 2, 3, 6}| == 4;
    assert Score(BEFORE, 4) == 4 && Score(BEFORE, 6) == 4;
    assert Listed([4, 6]) == {4, 6};
  }

  lemma {:induction false} BothMerged(past: Pasts)
    requires past == PastsOf(BEFORE)
    ensures Greedy(past, BEFORE[4].blueSet, 1, InOrder(Weighed(past), {5, 6})) == Colours([6], [5])
  {
    BothInOrder(past);
    hide InOrder, Greedy, KCluster;
    FiveStays(past);
    SixJoins(past);
    GreedyTwo(past, {1, 2, 3, 4}, 1, 5, 6);
  }

  lemma {:induction false} FiveStays(past: Pasts)
    requires past == PastsOf(BEFORE)
    ensures !KCluster(past, {1, 2, 3, 4} + {5}, 1)
  {
    hide KCluster;
    TwoBeside(past, {1, 2, 3, 4} + {5}, 5, 2, 3);
  }

  lemma {:induction false} BothInOrder(past: Pasts)
    requires past == PastsOf(BEFORE)
    ensures InOrder(Weighed(past), {5, 6}) == [5, 6]
  {
    assert past[5] == {1} && past[6] == {1, 2, 3, 5};
    assert |{1}| == 1 && |{1, 2, 3, 5}| == 4;
    assert BlueWork(Weighed(past), 5) == 1 && BlueWork(Weighed(past), 6) == 4;
    assert Listed([5, 6]) == {5, 6};
    SortedUnique(Weighed(past), [5, 6], InOrder(Weighed(past), {5, 6}));
  }

  lemma {:induction false} SixJoins(past: Pasts)
    requires past == PastsOf(BEFORE)
    ensures KCluster(past, {1, 2, 3, 4} + {6}, 1)
  {
    var s: set<Hash> := {1, 2, 3, 4} + {6};
    forall p | p in s
      ensures Bounded(past, s, 1, p)
    {
      var other: Hash := if p == 4 then 6 else 4;
      assert AnticoneIn(past, s, p) <= {other};
      SubsetCount(AnticoneIn(past, s, p), {other});
    }
  }

  /** The order of the tip puts 6 before its parent 5. */
  lemma {:induction false} ParentLater()
    ensures NodesOk(ALL, 1, 1) && Best(ALL, ALL.Keys, 7)
    ensures OrderOf(ALL, 7) == [1, 2, 3, 4, 6, 5, 7] && 5 in ALL[6].parents && !InTurn(PastsOf(ALL), OrderOf(ALL, 7))
  {
    SevenOk();
    hide NodesOk;
    Steps();
    assert OrderOf(ALL, 7)[5] == 5 && OrderOf(ALL, 7)[4] == 6;
    assert Below(PastsOf(ALL), 5, 6);
    TopScore();
  }

  lemma {:induction false} Steps()
    ensures OrderOf(ALL, 7) == [1, 2, 3, 4, 6, 5, 7]
  {
    assert OrderOf(ALL, 1) == [1];
    assert 1 in ALL[2].past && 2 in ALL[3].past && 3 in ALL[4].past && 4 in ALL[7].past;
    assert OrderOf(ALL, 2) == [1, 2];
    assert OrderOf(ALL, 3) == [1, 2, 3];
    assert OrderOf(ALL, 4) == [1, 2, 3, 4];
  }

  lemma {:induction false} TopScore()
    ensures Best(ALL, ALL.Keys, 7)
  {
    assert |{1, 2, 3, 4, 6, 7}| == 6 && |{1, 2, 3, 4}| == 4 && |{1, 2, 3, 6}| == 4 && |{1, 2, 3}| == 3 &&
      |{1, 2}| == 2 && |{1, 5}| == 2 && |{1}| == 1;
    assert Score(ALL, 7) == 6;
    forall b | b in ALL && b != 7
      ensures Worse(ALL, b, 7)
    {
      assert Score(ALL, b) <= 4;
    }
  }
}
