/** The ordering prototype: a block DAG where every block carries its whole past and blue set. */
module Prototype {
  import opened Types
  import opened Dag
  import opened Ghostdag
  import opened Colouring
  import opened Agreement
  import opened Linearization
  import opened Protocol

  datatype Node = Node(parents: seq<Hash>, past: set<Hash>, blueSet: set<Hash>, selectedParent: Option<Hash>,
                       blues: seq<Hash>, reds: seq<Hash>)

  datatype DagError = Duplicate | UnknownParent | NoParents

  datatype Outcome = Added | Refused(error: DagError)

  type Nodes = map<Hash, Node>

  ghost function ParentsOf(nodes: Nodes): Parents {
    map b | b in nodes :: nodes[b].parents
  }

  ghost function PastsOf(nodes: Nodes): Pasts {
    map b | b in nodes :: nodes[b].past
  }

  // ---------- two orders ----------

  /** The number of blue blocks in the view of `b`, itself included. */
  function Score(nodes: Nodes, b: Hash): nat {
    if b in nodes then |nodes[b].blueSet| else 0
  }

  /** `a` is a worse tip than `b`: a lower score, or the same with a larger id. */
  predicate Worse(nodes: Nodes, a: Hash, b: Hash) {
    Score(nodes, a) < Score(nodes, b) || (Score(nodes, a) == Score(nodes, b) && b < a)
  }

  ghost predicate Best(nodes: Nodes, s: set<Hash>, m: Hash) {
    m in s && forall x :: x in s ==> x == m || Worse(nodes, x, m)
  }

  function PastSize(nodes: Nodes, b: Hash): nat {
    if b in nodes then |nodes[b].past| else 0
  }

  /** Ancestors first: a smaller past, ties by id. */
  predicate Earlier(nodes: Nodes, a: Hash, b: Hash) {
    PastSize(nodes, a) < PastSize(nodes, b) || (PastSize(nodes, a) == PastSize(nodes, b) && a < b)
  }

  /** The order by size of past is an order by weight, the weight of a block being its past. */
  ghost function Weighed(past: Pasts): Ghosts {
    map b | b in past :: GhostdagData(0, |past[b]|, NONE, [], [], map[])
  }

  lemma {:induction false} EarlierIsLess(nodes: Nodes, a: Hash, b: Hash)
    ensures Earlier(nodes, a, b) <==> Less(Weighed(PastsOf(nodes)), a, b)
  {
    var gd := Weighed(PastsOf(nodes));
    assert forall x :: BlueWork(gd, x) == PastSize(nodes, x);
  }

  // ---------- what a store of nodes keeps ----------

  /** What a block merges, ancestors first. */
  ghost function MergeOrder(past: Pasts, b: Hash, sp: Hash): seq<Hash>
    requires b in past && sp in past
  {
    InOrder(Weighed(past), MergeSet(past, b, sp))
  }

  /** The blue set of a block: its selected parent's, the blues it merges, and itself. */
  ghost predicate NodeOk(nodes: Nodes, k: nat, b: Hash)
    requires b in nodes
  {
    var n := nodes[b];
    && |n.parents| > 0 && n.selectedParent.Some?
    && var sp := n.selectedParent.value;
      && sp in nodes && Best(nodes, Listed(n.parents), sp)
      && n.blueSet == nodes[sp].blueSet + Listed(n.blues) + {b}
      && Colours(n.blues, n.reds) == Greedy(PastsOf(nodes), nodes[sp].blueSet, k, MergeOrder(PastsOf(nodes), b, sp))
  }

  ghost predicate NodesOk(nodes: Nodes, k: nat, genesis: Hash) {
    && genesis in nodes && nodes[genesis] == Node([], {}, {genesis}, None, [], [])
    && PastOk(ParentsOf(nodes), PastsOf(nodes))
    && forall b {:trigger NodeOk(nodes, k, b)} :: b in nodes && b != genesis ==> NodeOk(nodes, k, b)
  }

  lemma {:induction false} SelectedFirst(nodes: Nodes, k: nat, genesis: Hash, b: Hash)
    requires NodesOk(nodes, k, genesis) && b in nodes && b != genesis
    ensures NodeOk(nodes, k, b)
    ensures var sp := nodes[b].selectedParent.value;
      && sp in nodes[b].parents && sp in nodes && sp in nodes[b].past && nodes[sp].past < nodes[b].past &&
        b !in nodes[sp].past && b != sp
      && Listed(nodes[b].blues) + Listed(nodes[b].reds) == nodes[b].past - nodes[sp].past - {sp}
  {
    assert NodeOk(nodes, k, b);
    var sp := nodes[b].selectedParent.value;
    assert sp in Listed(nodes[b].parents);
    PastSmaller(ParentsOf(nodes), PastsOf(nodes), sp, b);
    NotOwnPast(ParentsOf(nodes), PastsOf(nodes), b);
    GreedyWithin(PastsOf(nodes), nodes[sp].blueSet, k, MergeOrder(PastsOf(nodes), b, sp));
  }

  /** Every blue set lies in the past of its block with the block itself, and is a k-cluster. */
  lemma {:induction false} BlueSetIsCluster(nodes: Nodes, k: nat, genesis: Hash, b: Hash)
    requires NodesOk(nodes, k, genesis) && b in nodes
    ensures b in nodes[b].blueSet && nodes[b].blueSet <= nodes[b].past + {b} &&
      KCluster(PastsOf(nodes), nodes[b].blueSet, k)
    decreases nodes[b].past
  {
    var past := PastsOf(nodes);
    if b == genesis {
      OneIsCluster(past, {}, b, k);
      assert {} + {b} == {b};
    } else {
      SelectedFirst(nodes, k, genesis, b);
      var sp := nodes[b].selectedParent.value;
      BlueSetIsCluster(nodes, k, genesis, sp);
      var s := nodes[sp].blueSet + Listed(nodes[b].blues);
      GreedyCluster(past, nodes[sp].blueSet, k, MergeOrder(past, b, sp));
      assert s <= past[b];
      OneIsCluster(past, s, b, k);
    }
  }

  /** A block above a k-cluster is beside none of it. */
  lemma {:induction false} OneIsCluster(past: Pasts, s: set<Hash>, b: Hash, k: nat)
    requires b in past && s <= past[b] && KCluster(past, s, k)
    ensures KCluster(past, s + {b}, k)
  {
    forall p | p in s + {b}
      ensures Bounded(past, s + {b}, k, p)
    {
      if p == b {
        assert AnticoneIn(past, s + {b}, p) == {};
      } else {
        assert Bounded(past, s, k, p);
        assert AnticoneIn(past, s + {b}, p) == AnticoneIn(past, s, p);
      }
    }
  }

  /** Blue scores grow along every edge. */
  lemma {:induction false} ScoreGrows(nodes: Nodes, k: nat, genesis: Hash, b: Hash, p: Hash)
    requires NodesOk(nodes, k, genesis) && b in nodes && p in nodes[b].parents
    ensures p in nodes && Score(nodes, p) < Score(nodes, b)
  {
    assert b != genesis;
    SelectedFirst(nodes, k, genesis, b);
    var sp := nodes[b].selectedParent.value;
    assert p in Listed(nodes[b].parents);
    PastSmaller(ParentsOf(nodes), PastsOf(nodes), p, b);
    BlueSetIsCluster(nodes, k, genesis, sp);
    assert b !in nodes[sp].blueSet;
    hide NodesOk, Greedy;
    OneMore(nodes[sp].blueSet, b);
    SubsetCount(nodes[sp].blueSet + {b}, nodes[b].blueSet);
  }

  /** So every block outscores its whole past. */
  lemma {:induction false} ScoreAbovePast(nodes: Nodes, k: nat, genesis: Hash, a: Hash, b: Hash)
    requires NodesOk(nodes, k, genesis) && b in nodes && a in nodes[b].past
    ensures a in nodes && Score(nodes, a) < Score(nodes, b)
    decreases nodes[b].past
  {
    assert PastStep(ParentsOf(nodes), PastsOf(nodes), b);
    var p :| p in ParentsOf(nodes)[b] && Below(PastsOf(nodes), a, p);
    PastSmaller(ParentsOf(nodes), PastsOf(nodes), p, b);
    ScoreGrows(nodes, k, genesis, b, p);
    if a != p {
      ScoreAbovePast(nodes, k, genesis, a, p);
    }
  }

  // ---------- a new block ----------

  lemma {:induction false} SameBelow(past: Pasts, past': Pasts, u: set<Hash>)
    requires forall h :: h in u ==> h in past && h in past' && past[h] == past'[h] && past[h] <= u
    ensures SameOn(past, Weighed(past), past', Weighed(past'), u)
  {
    forall h | h in u
      ensures SameAt(past, Weighed(past), past', Weighed(past'), u, h)
    {
    }
  }

  /** A block is as good in any store that knows its past. */
  lemma {:induction false} NodeKept(nodes: Nodes, nodes': Nodes, k: nat, genesis: Hash, b: Hash)
    requires NodesOk(nodes, k, genesis) && b in nodes && b != genesis
    requires forall h :: h in nodes[b].past + {b} ==>
      h in nodes' && h in nodes && nodes'[h] == nodes[h] && nodes[h].past <= nodes[b].past
    ensures NodeOk(nodes', k, b)
  {
    hide Greedy, InOrder, Merged;
    SelectedFirst(nodes, k, genesis, b);
    var past, past', sp, u := PastsOf(nodes), PastsOf(nodes'), nodes[b].selectedParent.value, nodes[b].past;
    BlueSetIsCluster(nodes, k, genesis, sp);
    SameBelow(past, past', u);
    hide NodesOk;
    assert u - nodes[sp].past - {sp} == MergeSet(past, b, sp) == MergeSet(past', b, sp);
    ColoursSame(past, Weighed(past), past', Weighed(past'), u, nodes[sp].blueSet, k, MergeSet(past, b, sp));
    forall p | p in nodes[b].parents
      ensures Score(nodes', p) == Score(nodes, p)
    {
      ParentKept(nodes, k, genesis, b, p);
    }
    assert forall p :: p in Listed(nodes[b].parents) ==> p in nodes[b].parents;
    assert forall p :: p in Listed(nodes[b].parents) ==> (Worse(nodes', p, sp) <==> Worse(nodes, p, sp));
  }

  lemma {:induction false} ParentKept(nodes: Nodes, k: nat, genesis: Hash, b: Hash, p: Hash)
    requires NodesOk(nodes, k, genesis) && b in nodes && p in nodes[b].parents
    ensures p in nodes[b].past
  {
    PastSmaller(ParentsOf(nodes), PastsOf(nodes), p, b);
  }

  /** A store with one more good block is good. */
  lemma {:induction false} NodesGrow(nodes: Nodes, k: nat, genesis: Hash, id: Hash, n: Node)
    requires NodesOk(nodes, k, genesis) && id !in nodes && (forall p :: p in n.parents ==> p in nodes)
    requires n.past == Merged(n.parents, PastsOf(nodes)) && NodeOk(nodes[id := n], k, id)
    ensures NodesOk(nodes[id := n], k, genesis)
  {
    hide Best, Greedy, Merged, MergeOrder;
    var nodes' := nodes[id := n];
    PastGrows(ParentsOf(nodes), PastsOf(nodes), id, n.parents);
    assert ParentsOf(nodes') == ParentsOf(nodes)[id := n.parents];
    assert PastsOf(nodes') == PastsOf(nodes)[id := n.past];
    forall b | b in nodes' && b != genesis
      ensures NodeOk(nodes', k, b)
    {
      if b != id {
        forall h | h in nodes[b].past
          ensures h in nodes && nodes[h].past <= nodes[b].past
        {
          PastInside(ParentsOf(nodes), PastsOf(nodes), h, b);
        }
        NodeKept(nodes, nodes', k, genesis, b);
      }
    }
  }

  /** A node depends on the parents below it alone: two stores that hold the same DAG, whatever
      the order in which its blocks came, are the same. */
  lemma {:induction false} NodesAgree(nodes: Nodes, nodes': Nodes, k: nat, genesis: Hash)
    requires NodesOk(nodes, k, genesis) && NodesOk(nodes', k, genesis) && ParentsOf(nodes) == ParentsOf(nodes')
    ensures nodes == nodes'
  {
    assert ParentsOf(nodes).Keys == nodes.Keys && ParentsOf(nodes').Keys == nodes'.Keys;
    forall b | b in nodes
      ensures nodes[b] == nodes'[b]
    {
      NodeAgrees(nodes, nodes', k, genesis, b);
    }
  }

  lemma {:induction false} NodeAgrees(nodes: Nodes, nodes': Nodes, k: nat, genesis: Hash, b: Hash)
    requires NodesOk(nodes, k, genesis) && NodesOk(nodes', k, genesis) && ParentsOf(nodes) == ParentsOf(nodes') &&
      b in nodes
    ensures b in nodes' && nodes[b] == nodes'[b]
    decreases nodes[b].past
  {
    hide Greedy, InOrder, Merged;
    var parents, past, past' := ParentsOf(nodes), PastsOf(nodes), PastsOf(nodes');
    assert parents.Keys == nodes.Keys && ParentsOf(nodes').Keys == nodes'.Keys;
    if b != genesis {
      SelectedFirst(nodes, k, genesis, b);
      SelectedFirst(nodes', k, genesis, b);
      assert parents[b] == nodes[b].parents == nodes'[b].parents;
      forall h | h in past[b]
        ensures h in nodes && h in nodes' && nodes[h] == nodes'[h] && past[h] <= past[b]
      {
        PastInside(parents, past, h, b);
        NodeAgrees(nodes, nodes', k, genesis, h);
      }
      forall p | p in parents[b]
        ensures p in past && p in past' && past[p] == past'[p] && Score(nodes, p) == Score(nodes', p)
      {
        ParentKept(nodes, k, genesis, b, p);
      }
      assert PastStep(parents, past, b) && PastStep(parents, past', b);
      MergedSame(parents[b], past, past');
      var sp, sp' := nodes[b].selectedParent.value, nodes'[b].selectedParent.value;
      assert sp in Listed(parents[b]) && sp' in Listed(parents[b]);
      assert sp == sp';
      BlueSetIsCluster(nodes, k, genesis, sp);
      SameBelow(past, past', past[b]);
      hide NodesOk;
      ColoursSame(past, Weighed(past), past', Weighed(past'), past[b], nodes[sp].blueSet, k, MergeSet(past, b, sp));
    }
  }

  // ---------- the order ----------

  /** The order up to `b`: that of its selected parent, the blues it merges, the reds, itself. */
  ghost function OrderOf(nodes: Nodes, b: Hash): seq<Hash>
    decreases if b in nodes then nodes[b].past else {}
  {
    if b !in nodes || nodes[b].selectedParent.None? then [b] else
      var sp := nodes[b].selectedParent.value;
      if sp in nodes && nodes[sp].past < nodes[b].past then OrderOf(nodes, sp) + nodes[b].blues + nodes[b].reds + [b]
        else [b]
  }

  /** One step of the order: what `b` adds to the order of its selected parent. */
  lemma {:induction false} OrderStep(nodes: Nodes, k: nat, genesis: Hash, b: Hash)
    requires NodesOk(nodes, k, genesis) && b in nodes && b != genesis
    ensures nodes[b].selectedParent.Some? && b !in nodes[b].past
    ensures var n, sp := nodes[b], nodes[b].selectedParent.value;
      && sp in nodes && sp in n.past && nodes[sp].past < n.past
      && OrderOf(nodes, b) == OrderOf(nodes, sp) + (n.blues + n.reds) + [b]
      && Listed(n.blues) + Listed(n.reds) == n.past - nodes[sp].past - {sp} && Listed(n.blues) !! Listed(n.reds)
      && Distinct(n.blues) && Distinct(n.reds) && Sorted(Weighed(PastsOf(nodes)), n.blues) &&
        Sorted(Weighed(PastsOf(nodes)), n.reds)
  {
    SelectedFirst(nodes, k, genesis, b);
    var n, sp, past := nodes[b], nodes[b].selectedParent.value, PastsOf(nodes);
    ColoursApart(Weighed(past), past, nodes[sp].blueSet, k, MergeOrder(past, b, sp));
    NotOwnPast(ParentsOf(nodes), past, b);
    hide NodesOk, Greedy, InOrder, Sorted, Distinct, Weighed, Best;
    assert OrderOf(nodes, sp) + n.blues + n.reds + [b] == OrderOf(nodes, sp) + (n.blues + n.reds) + [b];
  }

  lemma {:induction false} GenesisOrder(nodes: Nodes, k: nat, genesis: Hash)
    requires NodesOk(nodes, k, genesis)
    ensures genesis in nodes && nodes[genesis].past == {} && nodes[genesis].selectedParent.None?
    ensures OrderOf(nodes, genesis) == [genesis] && PastOk(ParentsOf(nodes), PastsOf(nodes))
  {
  }

  /** The order is a permutation: every block of the past of `b`, and `b`, exactly once. Parents
      may be redundant. */
  lemma {:induction false} OrderIsPermutation(nodes: Nodes, k: nat, genesis: Hash, b: Hash)
    requires NodesOk(nodes, k, genesis) && b in nodes
    ensures Listed(OrderOf(nodes, b)) == nodes[b].past + {b} && Distinct(OrderOf(nodes, b))
    decreases nodes[b].past
  {
    hide NodesOk, OrderOf, Sorted;
    if b == genesis {
      GenesisOrder(nodes, k, genesis);
      assert Listed([b]) == {b};
    } else {
      OrderStep(nodes, k, genesis, b);
      var n, sp := nodes[b], nodes[b].selectedParent.value;
      OrderIsPermutation(nodes, k, genesis, sp);
      var u := OrderOf(nodes, sp);
      hide Distinct;
      DistinctConcat(n.blues, n.reds);
      ListedConcat(n.blues, n.reds);
      DistinctConcat(u, n.blues + n.reds);
      ListedConcat(u, n.blues + n.reds);
      DistinctSnoc(u + (n.blues + n.reds), b);
      ListedSnoc(u + (n.blues + n.reds), b);
    }
  }

  lemma {:induction false} DistinctConcat(u: seq<Hash>, v: seq<Hash>)
    requires Distinct(u) && Distinct(v) && Listed(u) !! Listed(v)
    ensures Distinct(u + v)
  {
    assert forall i :: 0 <= i < |u| ==> u[i] in Listed(u);
    assert forall i :: 0 <= i < |v| ==> v[i] in Listed(v);
  }

  /** Colouring a sorted list splits it into two sorted lists. */
  lemma {:induction false} ColoursApart(gd: Ghosts, past: Pasts, base: set<Hash>, k: nat, order: seq<Hash>)
    requires Sorted(gd, order)
    ensures var c := Greedy(past, base, k, order);
      Sorted(gd, c.blues) && Sorted(gd, c.reds) && Distinct(c.blues) && Distinct(c.reds) &&
        Listed(c.blues) !! Listed(c.reds)
  {
    if |order| > 0 {
      var init, x := order[..|order| - 1], order[|order| - 1];
      SortedInit(gd, order);
      ColoursApart(gd, past, base, k, init);
      GreedyWithin(past, base, k, init);
      var c := Greedy(past, base, k, init);
      var blue := KCluster(past, base + Listed(c.blues) + {x}, k);
      forall y | y in Listed(init)
        ensures Less(gd, y, x)
      {
        var i :| 0 <= i < |init| && init[i] == y;
        assert order[i] == y;
      }
      hide Greedy, Less;
      SortedSnoc(gd, c.blues, x);
      SortedSnoc(gd, c.reds, x);
      ListedSnoc(c.blues, x);
      ListedSnoc(c.reds, x);
      assert x !in Listed(init);
    }
  }

  lemma {:induction false} SortedSnoc(gd: Ghosts, s: seq<Hash>, x: Hash)
    requires Sorted(gd, s) && Distinct(s) && forall y :: y in Listed(s) ==> Less(gd, y, x) && y != x
    ensures Sorted(gd, s + [x]) && Distinct(s + [x])
  {
    assert forall i :: 0 <= i < |s| ==> s[i] in Listed(s);
  }

  /** No chain block below `b` merges a blue that follows one of its reds. */
  ghost predicate BluesBeforeReds(nodes: Nodes, b: Hash)
    decreases if b in nodes then nodes[b].past else {}
  {
    b in nodes && nodes[b].selectedParent.Some? ==>
      var sp := nodes[b].selectedParent.value;
      && (forall x, y :: x in nodes[b].reds && y in nodes[b].blues ==> !Below(PastsOf(nodes), x, y))
      && (sp in nodes && nodes[sp].past < nodes[b].past ==> BluesBeforeReds(nodes, sp))
  }

  /** The order puts ancestors first exactly when no blue it merges follows a red merged with it. */
  lemma {:induction false} TopologicalExactly(nodes: Nodes, k: nat, genesis: Hash, b: Hash)
    requires NodesOk(nodes, k, genesis) && b in nodes
    ensures InTurn(PastsOf(nodes), OrderOf(nodes, b)) <==> BluesBeforeReds(nodes, b)
    decreases nodes[b].past
  {
    hide NodesOk, OrderOf, Sorted, Distinct;
    GenesisOrder(nodes, k, genesis);
    if b != genesis {
      var past := PastsOf(nodes);
      OrderStep(nodes, k, genesis, b);
      var n, sp := nodes[b], nodes[b].selectedParent.value;
      TopologicalExactly(nodes, k, genesis, sp);
      OrderIsPermutation(nodes, k, genesis, sp);
      ColoursInTurn(nodes, k, genesis, b);
      var u := OrderOf(nodes, sp);
      assert forall x :: x in n.blues + n.reds ==> x in Listed(n.blues) + Listed(n.reds);
      assert forall x :: x in u ==> x in Listed(u);
      NoneAbove(nodes, u, n.blues + n.reds, sp);
      LastNotBelow(nodes, u + (n.blues + n.reds), b);
      hide Below;
      InTurnConcatExactly(past, n.blues, n.reds);
      InTurnConcatExactly(past, u, n.blues + n.reds);
      InTurnConcatExactly(past, u + (n.blues + n.reds), [b]);
    }
  }

  lemma {:induction false} NoneAbove(nodes: Nodes, u: seq<Hash>, v: seq<Hash>, sp: Hash)
    requires PastOk(ParentsOf(nodes), PastsOf(nodes)) && sp in nodes
    requires (forall x :: x in u ==> Below(PastsOf(nodes), x, sp)) && forall y :: y in v ==>
      !Below(PastsOf(nodes), y, sp)
    ensures forall x, y :: x in u && y in v ==> !Below(PastsOf(nodes), y, x)
  {
    forall x, y | x in u && y in v
      ensures !Below(PastsOf(nodes), y, x)
    {
      if Below(PastsOf(nodes), y, x) {
        PastTrans(ParentsOf(nodes), PastsOf(nodes), y, x, sp);
      }
    }
  }

  lemma {:induction false} LastNotBelow(nodes: Nodes, u: seq<Hash>, b: Hash)
    requires PastOk(ParentsOf(nodes), PastsOf(nodes)) && b in nodes && forall x :: x in u ==> x in nodes[b].past
    ensures InTurn(PastsOf(nodes), [b]) && forall x :: x in u ==> !Below(PastsOf(nodes), b, x)
  {
    forall x | x in u
      ensures !Below(PastsOf(nodes), b, x)
    {
      assert Below(PastsOf(nodes), x, b);
      NotOwnPast(ParentsOf(nodes), PastsOf(nodes), b);
      if Below(PastsOf(nodes), b, x) {
        PastTrans(ParentsOf(nodes), PastsOf(nodes), b, x, b);
      }
    }
  }

  lemma {:induction false} InTurnConcatExactly(past: Pasts, u: seq<Hash>, v: seq<Hash>)
    ensures InTurn(past, u + v) <==>
      InTurn(past, u) && InTurn(past, v) && forall x, y :: x in u && y in v ==> !Below(past, y, x)
  {
    var w := u + v;
    if InTurn(past, w) {
      forall i, j | 0 <= i < j < |u|
        ensures !Below(past, u[j], u[i])
      {
        assert !Below(past, w[j], w[i]);
      }
      forall i, j | 0 <= i < j < |v|
        ensures !Below(past, v[j], v[i])
      {
        assert !Below(past, w[|u| + j], w[|u| + i]);
      }
      forall x, y | x in u && y in v
        ensures !Below(past, y, x)
      {
        var i :| 0 <= i < |u| && u[i] == x;
        var j :| 0 <= j < |v| && v[j] == y;
        assert !Below(past, w[|u| + j], w[i]);
      }
    }
    if InTurn(past, u) && InTurn(past, v) && forall x, y :: x in u && y in v ==> !Below(past, y, x) {
      InTurnConcat(past, u, v);
    }
  }

  /** Each colour alone is in turn. */
  lemma {:induction false} ColoursInTurn(nodes: Nodes, k: nat, genesis: Hash, b: Hash)
    requires NodesOk(nodes, k, genesis) && b in nodes && b != genesis
    ensures InTurn(PastsOf(nodes), nodes[b].blues) && InTurn(PastsOf(nodes), nodes[b].reds)
  {
    hide NodesOk, OrderOf, Sorted, Distinct;
    GenesisOrder(nodes, k, genesis);
    OrderStep(nodes, k, genesis, b);
    var past, n := PastsOf(nodes), nodes[b];
    forall x | x in Listed(n.blues) + Listed(n.reds)
      ensures x in nodes
    {
      PastInside(ParentsOf(nodes), past, x, b);
    }
    assert forall i :: 0 <= i < |n.blues| ==> n.blues[i] in Listed(n.blues);
    assert forall i :: 0 <= i < |n.reds| ==> n.reds[i] in Listed(n.reds);
    KnownInTurn(nodes, n.blues);
    KnownInTurn(nodes, n.reds);
  }

  lemma {:induction false} ProperCount<T>(a: set<T>, b: set<T>)
    requires a < b
    ensures |a| < |b|
  {
    var x :| x in b && x !in a;
    SubsetCount(a, b - {x});
  }

  // ---------- the prototype ----------

  class BlockDag {
    const k: nat
    const genesis: Hash
    var nodes: Nodes

    ghost predicate Valid()
      reads this`nodes
    {
      NodesOk(nodes, k, genesis)
    }

    constructor (k: nat, genesis: Hash)
      ensures Valid() && this.k == k && this.genesis == genesis && nodes.Keys == {genesis}
    {
      this.k, this.genesis := k, genesis;
      nodes := map[genesis := Node([], {}, {genesis}, None, [], [])];
      new;
      var parents, past := ParentsOf(nodes), PastsOf(nodes);
      assert Merged([], past) == {};
      assert PastStep(parents, past, genesis);
    }

    predicate IsAnticone(x: Hash, c: Hash)
      requires x in nodes && c in nodes
      reads this`nodes
    {
      x != c && x !in nodes[c].past && c !in nodes[x].past
    }

    /** The blocks of a set that are beside `c`. */
    method BlocksBeside(accepted: set<Hash>, c: Hash) returns (anti: set<Hash>)
      requires accepted <= nodes.Keys && c in nodes
      ensures anti == AnticoneIn(PastsOf(nodes), accepted, c)
    {
      anti := set x | x in accepted && IsAnticone(x, c);
    }

    /** The best of some blocks. */
    method BestOf(blocks: set<Hash>) returns (best: Hash)
      requires blocks != {} && blocks <= nodes.Keys
      ensures Best(nodes, blocks, best)
      ensures best in blocks && forall x :: x in blocks && x != best ==>
        var s, t := |nodes[x].blueSet|, |nodes[best].blueSet|; s < t || (s == t && best < x)
    {
      best :| best in blocks;
      var rest := blocks - {best};
      while rest != {}
        invariant rest <= blocks && Best(nodes, blocks - rest, best)
        decreases rest
      {
        var b :| b in rest;
        assert blocks - (rest - {b}) == (blocks - rest) + {b};
        if Worse(nodes, best, b) {
          best := b;
        } else {
          assert Worse(nodes, b, best);
        }
        rest := rest - {b};
      }
      assert blocks - rest == blocks;
    }

    /** Some blocks in topological order. */
    method InTopologicalOrder(blocks: set<Hash>) returns (order: seq<Hash>)
      ensures order == InOrder(Weighed(PastsOf(nodes)), blocks)
      ensures blocks <= nodes.Keys ==>
        forall i, j {:trigger order[i], order[j]} :: 0 <= i < j < |order| ==>
          var a, b := order[i], order[j];
          && a in blocks && b in blocks
          && (|nodes[a].past| < |nodes[b].past| || (|nodes[a].past| == |nodes[b].past| && a < b))
    {
      ghost var gd := Weighed(PastsOf(nodes));
      order := [];
      var rest := blocks;
      while rest != {}
        invariant rest <= blocks && Listed(order) == blocks - rest && Sorted(gd, order)
        decreases rest
      {
        var b :| b in rest;
        rest := rest - {b};
        var i := 0;
        while i < |order| && Earlier(nodes, order[i], b)
          invariant 0 <= i <= |order| && forall j :: 0 <= j < i ==> Less(gd, order[j], b)
        {
          EarlierIsLess(nodes, order[i], b);
          i := i + 1;
        }
        if i < |order| {
          EarlierIsLess(nodes, order[i], b);
        }
        InsertSorted(gd, order, i, b);
        order := order[..i] + [b] + order[i..];
      }
      SortedUnique(gd, order, InOrder(gd, blocks));
    }

    /** May `c` join the blues so far? It may exactly when they stay a k-cluster. */
    method MayJoin(accepted: set<Hash>, c: Hash) returns (ok: bool)
      requires accepted <= nodes.Keys && c in nodes && c !in accepted
      requires KCluster(PastsOf(nodes), accepted, k) && After(PastsOf(nodes), accepted, c)
      ensures ok <==> KCluster(PastsOf(nodes), accepted + {c}, k)
    {
      ghost var past := PastsOf(nodes);
      JoinTest(past, accepted, k, c);
      AnticoneOfNew(past, accepted, c);
      hide KCluster;
      var anti := BlocksBeside(accepted, c);
      if |anti| > k {
        return false;
      }
      var rest := anti;
      while rest != {}
        invariant rest <= anti && forall p :: p in anti - rest ==> |AnticoneIn(past, accepted, p)| < k
        decreases rest
      {
        var x :| x in rest;
        var beside := BlocksBeside(accepted, x);
        if |beside| + 1 > k {
          return false;
        }
        rest := rest - {x};
      }
      return true;
    }

    /** The greedy colouring of what a block merges. */
    method Classify(base: set<Hash>, order: seq<Hash>) returns (blues: seq<Hash>, reds: seq<Hash>)
      requires base <= nodes.Keys && Listed(order) <= nodes.Keys && KCluster(PastsOf(nodes), base, k)
      requires base !! Listed(order) && InTurn(PastsOf(nodes), order) && forall x, y :: x in base && y in order ==>
        !Below(PastsOf(nodes), y, x)
      ensures Colours(blues, reds) == Greedy(PastsOf(nodes), base, k, order)
    {
      ghost var past := PastsOf(nodes);
      var accepted := base;
      blues, reds := [], [];
      for i := 0 to |order|
        invariant Colours(blues, reds) == Greedy(past, base, k, order[..i])
        invariant accepted == base + Listed(blues) && KCluster(past, accepted, k)
      {
        var c := order[i];
        GreedyStep(past, base, k, order, i);
        CandidateAfter(past, base, k, order, i);
        assert c in Listed(order);
        var ok := MayJoin(accepted, c);
        ListedSnoc(blues, c);
        assert accepted + {c} == base + Listed(blues + [c]);
        if ok {
          accepted, blues := accepted + {c}, blues + [c];
        } else {
          reds := reds + [c];
        }
      }
      assert order[..|order|] == order;
    }

    /** Adds a block, or refuses it and changes nothing. */
    method AddBlock(id: Hash, parents: seq<Hash>) returns (r: Outcome)
      requires Valid()
      modifies this`nodes
      ensures Valid()
      ensures r == if id in old(nodes) then Refused(Duplicate) else if |parents| == 0 then Refused(NoParents)
        else if exists p :: p in parents && p !in old(nodes) then Refused(UnknownParent) else Added
      ensures r != Added ==> nodes == old(nodes)
      ensures r == Added ==> id in nodes && nodes[id].parents == parents && nodes == old(nodes)[id := nodes[id]]
    {
      hide NodesOk, NodeOk, Best, Greedy, Merged, InOrder, KCluster, InTurn, Below;
      if id in nodes {
        return Refused(Duplicate);
      }
      if |parents| == 0 {
        return Refused(NoParents);
      }
      if exists p :: p in parents && p !in nodes {
        return Refused(UnknownParent);
      }
      var listed := set p | p in parents;
      assert parents[0] in listed;
      GenesisOrder(nodes, k, genesis);
      var past := listed + set p, x | p in parents && x in nodes[p].past :: x;
      PastOfNew(nodes, parents, past);
      var sp := BestOf(listed);
      PastGrows(ParentsOf(nodes), PastsOf(nodes), id, parents);
      MergeReady(nodes, k, genesis, parents, sp);
      var merge := InTopologicalOrder(past - nodes[sp].past - {sp});
      var blues, reds := Classify(nodes[sp].blueSet, merge);
      var n := Node(parents, past, nodes[sp].blueSet + (set b | b in blues) + {id}, Some(sp), blues, reds);
      NewNode(nodes, k, genesis, id, n, sp);
      nodes := nodes[id := n];
      return Added;
    }

    /** The block with the highest blue score, the smallest id among equals. */
    method Tip() returns (t: Hash)
      requires Valid()
      ensures Best(nodes, nodes.Keys, t)
      ensures t in nodes && forall x :: x in nodes && x != t ==>
        |nodes[x].blueSet| < |nodes[t].blueSet| || (|nodes[x].blueSet| == |nodes[t].blueSet| && t < x)
    {
      t := BestOf(nodes.Keys);
    }

    /** The order up to the best tip: its past and itself, each block once. */
    method Order() returns (order: seq<Hash>, ghost tip: Hash)
      requires Valid()
      ensures Best(nodes, nodes.Keys, tip) && order == OrderOf(nodes, tip)
      ensures Listed(order) == nodes[tip].past + {tip} && Distinct(order)
    {
      var t := Tip();
      tip := t;
      var chain, cur := [t], nodes[t].selectedParent;
      order := [];
      while cur.Some?
        invariant |chain| > 0 && ChainDown(nodes, chain) && chain[0] == tip
        invariant cur == nodes[chain[|chain| - 1]].selectedParent
        decreases nodes[chain[|chain| - 1]].past
      {
        SelectedFirst(nodes, k, genesis, chain[|chain| - 1]);
        chain, cur := chain + [cur.value], nodes[cur.value].selectedParent;
      }
      var i := |chain|;
      while i > 0
        invariant 0 <= i <= |chain|
        invariant order == if i < |chain| then OrderOf(nodes, chain[i]) else []
      {
        i := i - 1;
        order := Append(order, chain, i);
      }
      OrderIsPermutation(nodes, k, genesis, tip);
    }

    /** The order up to one more chain block. */
    method Append(order: seq<Hash>, chain: seq<Hash>, i: nat) returns (longer: seq<Hash>)
      requires Valid() && ChainDown(nodes, chain) && i < |chain| && nodes[chain[|chain| - 1]].selectedParent.None?
      requires order == if i + 1 < |chain| then OrderOf(nodes, chain[i + 1]) else []
      ensures longer == OrderOf(nodes, chain[i])
    {
      hide NodesOk, OrderOf, Sorted, Distinct, InOrder;
      var b := chain[i];
      GenesisOrder(nodes, k, genesis);
      if i + 1 < |chain| {
        OnlyLastIsGenesis(nodes, k, genesis, chain, i);
      }
      if b == genesis {
        return order + [b];
      }
      OrderStep(nodes, k, genesis, b);
      assert i + 1 < |chain|;
      var n, j := nodes[b], i + 1;
      assert n.selectedParent == Some(chain[j]);
      ColoursSorted(nodes, k, genesis, b);
      var blues := InTopologicalOrder(set x | x in n.blues);
      var reds := InTopologicalOrder(set x | x in n.reds);
      longer := order + blues + reds + [b];
      assert order + blues + reds == order + (blues + reds);
    }
  }

  ghost predicate ChainDown(nodes: Nodes, chain: seq<Hash>) {
    && (forall i :: 0 <= i < |chain| ==> chain[i] in nodes)
    && forall i, j :: 0 <= i && j == i + 1 && j < |chain| ==> nodes[chain[i]].selectedParent == Some(chain[j])
  }

  lemma {:induction false} OnlyLastIsGenesis(nodes: Nodes, k: nat, genesis: Hash, chain: seq<Hash>, i: nat)
    requires NodesOk(nodes, k, genesis) && ChainDown(nodes, chain) && i + 1 < |chain|
    ensures chain[i] != genesis
  {
    var j := i + 1;
    assert nodes[chain[i]].selectedParent == Some(chain[j]);
  }

  /** Sorting the blues and reds again changes nothing. */
  lemma {:induction false} ColoursSorted(nodes: Nodes, k: nat, genesis: Hash, b: Hash)
    requires NodesOk(nodes, k, genesis) && b in nodes && b != genesis
    ensures InOrder(Weighed(PastsOf(nodes)), Listed(nodes[b].blues)) == nodes[b].blues
    ensures InOrder(Weighed(PastsOf(nodes)), Listed(nodes[b].reds)) == nodes[b].reds
  {
    hide NodesOk, OrderOf, Distinct, Sorted;
    OrderStep(nodes, k, genesis, b);
    var gd, n := Weighed(PastsOf(nodes)), nodes[b];
    SortedUnique(gd, n.blues, InOrder(gd, Listed(n.blues)));
    SortedUnique(gd, n.reds, InOrder(gd, Listed(n.reds)));
  }

  /** No candidate precedes a block accepted before it. */
  lemma {:induction false} CandidateAfter(past: Pasts, base: set<Hash>, k: nat, order: seq<Hash>, i: nat)
    requires i < |order| && base !! Listed(order) && InTurn(past, order) && forall x, y :: x in base && y in order ==>
      !Below(past, y, x)
    ensures var all := base + Listed(Greedy(past, base, k, order[..i]).blues);
      After(past, all, order[i]) && order[i] !in all && all <= base + Listed(order)
  {
    GreedyWithin(past, base, k, order[..i]);
    var blues, c := Greedy(past, base, k, order[..i]).blues, order[i];
    assert c in Listed(order);
    forall p | p in base + Listed(blues)
      ensures !Below(past, c, p) && p != c && p in base + Listed(order)
    {
      if p !in base {
        assert p in Listed(order[..i]);
        var j :| 0 <= j < i && order[j] == p;
        assert !Below(past, order[i], order[j]);
      }
    }
  }

  lemma {:induction false} PastOfNew(nodes: Nodes, parents: seq<Hash>, past: set<Hash>)
    requires forall p :: p in parents ==> p in nodes
    requires past == (set p | p in parents) + (set p, x | p in parents && x in nodes[p].past :: x)
    ensures past == Merged(parents, PastsOf(nodes))
  {
    forall x
      ensures x in past <==> x in Merged(parents, PastsOf(nodes))
    {
      InMerged(parents, PastsOf(nodes), x);
      if x in past && x !in parents {
        var p :| p in parents && x in nodes[p].past;
        assert Below(PastsOf(nodes), x, p);
      }
      if x in parents {
        assert Below(PastsOf(nodes), x, x);
      }
    }
  }

  /** What a new block merges is beside or above everything its selected parent sees. */
  lemma {:induction false} MergeReady(nodes: Nodes, k: nat, genesis: Hash, parents: seq<Hash>, sp: Hash)
    requires NodesOk(nodes, k, genesis) && (forall p :: p in parents ==> p in nodes) && sp in parents
    ensures var past, base := PastsOf(nodes), nodes[sp].blueSet;
      var merge := Merged(parents, past) - nodes[sp].past - {sp};
      var order := InOrder(Weighed(past), merge);
      && merge <= nodes.Keys && base <= nodes.Keys && KCluster(past, base, k)
      && base !! Listed(order) && InTurn(past, order) && forall x, y :: x in base && y in order ==> !Below(past, y, x)
  {
    var parents', all, base := ParentsOf(nodes), PastsOf(nodes), nodes[sp].blueSet;
    var merge := Merged(parents, all) - nodes[sp].past - {sp};
    var order := InOrder(Weighed(all), merge);
    BlueSetIsCluster(nodes, k, genesis, sp);
    forall x | x in merge
      ensures x in nodes
    {
      var p :| p in parents && Below(all, x, p);
      if x != p {
        PastInside(parents', all, x, p);
      }
    }
    forall x | x in base
      ensures x in nodes
    {
      if x != sp {
        PastInside(parents', all, x, sp);
      }
    }
    forall x, y | x in base && y in order
      ensures !Below(all, y, x)
    {
      assert y in Listed(order);
      if Below(all, y, x) {
        PastTrans(parents', all, y, x, sp);
      }
    }
    assert base !! Listed(order);
    assert forall i :: 0 <= i < |order| ==> order[i] in Listed(order);
    KnownInTurn(nodes, order);
  }

  lemma {:induction false} KnownInTurn(nodes: Nodes, s: seq<Hash>)
    requires PastOk(ParentsOf(nodes), PastsOf(nodes)) && (forall i :: 0 <= i < |s| ==> s[i] in nodes) &&
      Sorted(Weighed(PastsOf(nodes)), s)
    ensures InTurn(PastsOf(nodes), s)
  {
    var past := PastsOf(nodes);
    forall i, j | 0 <= i < j < |s|
      ensures !Below(past, s[j], s[i])
    {
      assert Less(Weighed(past), s[i], s[j]);
      if Below(past, s[j], s[i]) && s[i] != s[j] {
        PastInside(ParentsOf(nodes), past, s[j], s[i]);
        ProperCount(past[s[j]], past[s[i]]);
      }
    }
  }

  /** The block just coloured keeps the store good. */
  lemma {:induction false} NewNode(nodes: Nodes, k: nat, genesis: Hash, id: Hash, n: Node, sp: Hash)
    requires NodesOk(nodes, k, genesis) && id !in nodes && |n.parents| > 0 &&
      (forall p :: p in n.parents ==> p in nodes)
    requires n.past == Merged(n.parents, PastsOf(nodes)) && n.selectedParent == Some(sp) &&
      Best(nodes, Listed(n.parents), sp)
    requires sp in nodes && n.blueSet == nodes[sp].blueSet + Listed(n.blues) + {id}
    requires Colours(n.blues, n.reds) ==
      Greedy(PastsOf(nodes), nodes[sp].blueSet, k, InOrder(Weighed(PastsOf(nodes)), n.past - nodes[sp].past - {sp}))
    ensures NodesOk(nodes[id := n], k, genesis)
  {
    hide Greedy, InOrder;
    var nodes' := nodes[id := n];
    var past, past', u := PastsOf(nodes), PastsOf(nodes'), n.past;
    assert sp in n.parents;
    forall h | h in u
      ensures h in nodes && nodes[h].past <= u
    {
      PastClosed(nodes, n.parents, h);
    }
    assert Below(past, sp, sp);
    BlueSetIsCluster(nodes, k, genesis, sp);
    SameBelow(past, past', u);
    var merge := u - nodes[sp].past - {sp};
    assert forall p :: p in Listed(n.parents) ==> p in n.parents && (Worse(nodes', p, sp) <==> Worse(nodes, p, sp));
    assert nodes[sp].blueSet <= u by {
      assert forall h :: h in nodes[sp].past ==> Below(past, h, sp);
    }
    assert NodeOk(nodes', k, id) by {
      hide NodesOk, Merged;
      ColoursSame(past, Weighed(past), past', Weighed(past'), u, nodes[sp].blueSet, k, merge);
      assert MergeSet(past', id, sp) == merge;
    }
    NodesGrow(nodes, k, genesis, id, n);
  }

  lemma {:induction false} PastClosed(nodes: Nodes, parents: seq<Hash>, h: Hash)
    requires PastOk(ParentsOf(nodes), PastsOf(nodes)) && (forall p :: p in parents ==> p in nodes) &&
      h in Merged(parents, PastsOf(nodes))
    ensures h in nodes && nodes[h].past <= Merged(parents, PastsOf(nodes))
  {
    var past := PastsOf(nodes);
    var p :| p in parents && Below(past, h, p);
    if h != p {
      PastInside(ParentsOf(nodes), past, h, p);
    }
    forall x | x in nodes[h].past
      ensures x in Merged(parents, past)
    {
      PastTrans(ParentsOf(nodes), past, x, h, p);
      InMerged(parents, past, x);
    }
  }
}
