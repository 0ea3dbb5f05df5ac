/** The block DAG itself: parent lists, the past of every block, and what the past means. */
module Dag {
  import opened Types

  type Parents = map<Hash, seq<Hash>>

  type Pasts = map<Hash, set<Hash>>

  /** The blocks listed in `ps` and everything in their pasts. */
  ghost function Merged(ps: seq<Hash>, past: Pasts): set<Hash> {
    set x | x in Known(ps, past) && exists p :: p in ps && Below(past, x, p)
  }

  ghost function Known(ps: seq<Hash>, past: Pasts): set<Hash> {
    (set p | p in ps) + (set p, x | p in ps && p in past && x in past[p] :: x)
  }

  /** `a` is `b` or in its past. */
  ghost predicate Below(past: Pasts, a: Hash, b: Hash) {
    a == b || (b in past && a in past[b])
  }

  lemma {:induction false} InMerged(ps: seq<Hash>, past: Pasts, x: Hash)
    ensures x in Merged(ps, past) <==> exists p :: p in ps && Below(past, x, p)
  {
  }

  /** The past of `b` is its parents and their pasts, and `b` is not in it. */
  ghost predicate PastStep(parents: Parents, past: Pasts, b: Hash)
    requires b in parents && b in past
  {
    && (forall p :: p in parents[b] ==> p in parents)
    && past[b] == Merged(parents[b], past)
    && b !in past[b]
  }

  ghost predicate PastOk(parents: Parents, past: Pasts) {
    && parents.Keys == past.Keys
    && forall b {:trigger PastStep(parents, past, b)} :: b in parents ==> PastStep(parents, past, b)
  }

  /** A walk from a block up through parents: every block is a parent of the one before it. */
  ghost predicate Walk(parents: Parents, path: seq<Hash>) {
    && |path| > 0
    && (forall i :: 0 <= i < |path| - 1 ==> path[i] in parents && path[i + 1] in parents[path[i]])
  }

  /** `a` is reached from `b` by a walk of one step or more. */
  ghost predicate Reachable(parents: Parents, a: Hash, b: Hash) {
    exists path :: Walk(parents, path) && |path| > 1 && path[0] == b && path[|path| - 1] == a
  }

  lemma {:induction false} PastTrans(parents: Parents, past: Pasts, a: Hash, b: Hash, c: Hash)
    requires PastOk(parents, past) && Below(past, a, b) && Below(past, b, c)
    ensures Below(past, a, c)
    ensures c in past && (a != b || b != c) ==> a in past[c]
    decreases if c in past then past[c] else {}
  {
    if b != c && a != b {
      assert PastStep(parents, past, c);
      var p :| p in parents[c] && Below(past, b, p);
      PastSmaller(parents, past, p, c);
      PastTrans(parents, past, a, b, p);
    }
  }

  lemma {:induction false} PastSmaller(parents: Parents, past: Pasts, p: Hash, c: Hash)
    requires PastOk(parents, past) && c in parents && p in parents[c]
    ensures p in past && past[p] < past[c] && p in past[c]
  {
    assert PastStep(parents, past, c);
    assert PastStep(parents, past, p);
    assert Below(past, p, p);
    forall x | x in past[p]
      ensures x in past[c]
    {
      assert Below(past, x, p);
    }
  }

  lemma {:induction false} NotOwnPast(parents: Parents, past: Pasts, b: Hash)
    requires PastOk(parents, past) && b in past
    ensures b !in past[b]
  {
    assert PastStep(parents, past, b);
  }

  lemma {:induction false} PastInside(parents: Parents, past: Pasts, a: Hash, b: Hash)
    requires PastOk(parents, past) && b in past && a in past[b]
    ensures a in past && past[a] < past[b]
  {
    assert PastStep(parents, past, b);
    var p :| p in parents[b] && Below(past, a, p);
    PastSmaller(parents, past, p, b);
    assert a in past by {
      if a != p {
        PastInsideKeys(parents, past, a, p);
      }
    }
    forall x | x in past[a]
      ensures x in past[b]
    {
      PastTrans(parents, past, x, a, b);
    }
    assert PastStep(parents, past, a);
  }

  lemma {:induction false} PastInsideKeys(parents: Parents, past: Pasts, a: Hash, b: Hash)
    requires PastOk(parents, past) && b in past && a in past[b]
    ensures a in past
    decreases past[b]
  {
    assert PastStep(parents, past, b);
    var p :| p in parents[b] && Below(past, a, p);
    PastSmaller(parents, past, p, b);
    if a != p {
      PastInsideKeys(parents, past, a, p);
    }
  }

  /** The past of a block is what walks along parents reach. */
  lemma {:induction false} PastIsReachable(parents: Parents, past: Pasts, a: Hash, b: Hash)
    requires PastOk(parents, past) && b in past
    ensures a in past[b] <==> Reachable(parents, a, b)
  {
    if a in past[b] {
      PastToWalk(parents, past, a, b);
    }
    if Reachable(parents, a, b) {
      var path :| Walk(parents, path) && |path| > 1 && path[0] == b && path[|path| - 1] == a;
      WalkToPast(parents, past, path);
    }
  }

  lemma {:induction false} PastToWalk(parents: Parents, past: Pasts, a: Hash, b: Hash)
    requires PastOk(parents, past) && b in past && a in past[b]
    ensures Reachable(parents, a, b)
    decreases past[b]
  {
    assert PastStep(parents, past, b);
    var p :| p in parents[b] && Below(past, a, p);
    PastSmaller(parents, past, p, b);
    if a == p {
      var path := [b, a];
      assert Walk(parents, path);
    } else {
      PastToWalk(parents, past, a, p);
      var rest :| Walk(parents, rest) && |rest| > 1 && rest[0] == p && rest[|rest| - 1] == a;
      var path := [b] + rest;
      assert Walk(parents, path) && path[|path| - 1] == a;
    }
  }

  lemma {:induction false} WalkToPast(parents: Parents, past: Pasts, path: seq<Hash>)
    requires PastOk(parents, past) && Walk(parents, path) && |path| > 1
    ensures path[0] in past && path[|path| - 1] in past[path[0]]
    decreases |path|
  {
    assert path[1] in parents[path[0]];
    PastSmaller(parents, past, path[1], path[0]);
    if |path| > 2 {
      var rest := path[1..];
      assert Walk(parents, rest) by {
        forall i | 0 <= i < |rest| - 1
          ensures rest[i] in parents && rest[i + 1] in parents[rest[i]]
        {
          assert path[i + 1] in parents && path[i + 2] in parents[path[i + 1]];
        }
      }
      WalkToPast(parents, past, rest);
    }
  }

  /** A new block: its past is built from its parents', and no other past changes. */
  lemma {:induction false} PastGrows(parents: Parents, past: Pasts, n: Hash, ps: seq<Hash>)
    requires PastOk(parents, past) && n !in parents && forall p :: p in ps ==> p in parents
    ensures PastOk(parents[n := ps], past[n := Merged(ps, past)])
  {
    var parents', past' := parents[n := ps], past[n := Merged(ps, past)];
    forall b | b in parents'
      ensures PastStep(parents', past', b)
    {
      var qs := parents'[b];
      if b != n {
        assert PastStep(parents, past, b);
      }
      assert forall q :: q in qs ==> q in parents;
      MergedSame(qs, past, past');
      if b == n && n in past'[b] {
        var p :| p in ps && Below(past, n, p);
        PastInsideKeys(parents, past, n, p);
      }
    }
  }

  lemma {:induction false} MergedSame(ps: seq<Hash>, past: Pasts, past': Pasts)
    requires forall p :: p in ps ==> p in past && p in past' && past[p] == past'[p]
    ensures Merged(ps, past) == Merged(ps, past')
  {
    forall x
      ensures x in Merged(ps, past) <==> x in Merged(ps, past')
    {
      InMerged(ps, past, x);
      InMerged(ps, past', x);
      if x in Merged(ps, past) {
        var p :| p in ps && Below(past, x, p);
        assert Below(past', x, p);
      }
      if x in Merged(ps, past') {
        var p :| p in ps && Below(past', x, p);
        assert Below(past, x, p);
      }
    }
  }
}
