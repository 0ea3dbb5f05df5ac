/** The account store: accounts by key, and beside them the nodes of the tree over their hashes. */
module AccountsDb {
  import opened Types
  import opened KeyBits
  import opened Smt

  /** An account; what else it holds does not matter here. */
  datatype Account = Account(lamports: nat, data: seq<Byte>, rest: nat) {
    predicate IsEmpty() {
      lamports == 0 && |data| == 0
    }
  }

  type Accounts = map<Key, Account>

  /** Node reads and writes of one batch: pending changes over what is stored. */
  class Overlay {
    const stored: Nodes
    var pending: map<NodeKey, Option<Digest>>

    constructor (stored: Nodes)
      ensures this.stored == stored && pending == map[] && View() == stored
    {
      this.stored, pending := stored, map[];
    }

    /** The nodes as they will be once the pending changes are written. */
    ghost function View(): Nodes
      reads this
    {
      Flushed(stored, pending)
    }

    function GetNode(id: NodeKey): (r: Option<Digest>)
      reads this
      ensures r == if id in View() then Some(View()[id]) else None
    {
      if id in pending then pending[id] else if id in stored then Some(stored[id]) else None
    }

    method SetNode(id: NodeKey, hash: Digest)
      modifies this
      ensures View() == old(View())[id := hash]
    {
      pending := pending[id := Some(hash)];
    }

    method DelNode(id: NodeKey)
      modifies this
      ensures View() == old(View()) - {id}
    {
      pending := pending[id := None];
    }
  }

  /** The stored nodes with the pending changes written over them. */
  function Flushed(stored: Nodes, pending: map<NodeKey, Option<Digest>>): Nodes {
    map id | id in stored.Keys + pending.Keys && (id in pending ==> pending[id].Some?) :: if id in pending then
      pending[id].value else stored[id]
  }

  /** Replaces the leaf of `key` and rehashes its path up to the root. */
  method UpdateLeaf(h: Hash2, store: Overlay, key: Key, leaf: Digest, ghost m: Leaves)
    requires StoreOk(h, store.View(), m)
    modifies store
    ensures StoreOk(h, store.View(), m[key := leaf])
  {
    hide NodeId, Node, Default, StoreOk, Mixed, Bit, FlipBit, Flushed;
    ghost var m' := m[key := leaf];
    var d := Smt.Defaults(h);
    var curHash, depth: nat := leaf, HEIGHT;
    MixedStarts(h, store.View(), m, m');
    LeafNode(h, m', key);
    PathWritten(h, store.View(), m, key, leaf, HEIGHT);
    WriteNode(store, NodeId(key, HEIGHT), curHash, d[HEIGHT]);
    while depth > 0
      invariant depth <= HEIGHT && curHash == Node(h, m', key, depth)
      invariant Mixed(h, store.View(), m, m', depth)
    {
      var sibling := ReadNode(store, NodeId(FlipBit(key, depth - 1), depth), d[depth]);
      SiblingRight(h, store.View(), m, m', key, depth);
      var l, r := if Bit(key, depth - 1) == 0 then curHash else sibling, if Bit(key, depth - 1) == 0 then sibling
        else curHash;
      depth := depth - 1;
      curHash := h(l, r);
      PathWritten(h, store.View(), m, key, leaf, depth);
      WriteNode(store, NodeId(key, depth), curHash, d[depth]);
    }
    MixedEnds(h, store.View(), m, m');
  }

  lemma {:induction false} LeafNode(h: Hash2, m: Leaves, key: Key)
    ensures Node(h, m, key, HEIGHT) == LeafAt(m, key)
  {
  }

  function ReadNode(store: Overlay, id: NodeKey, default': Digest): (r: Digest)
    reads store
    ensures r == NodeAt(store.View(), id, default')
  {
    var v := store.GetNode(id);
    if v.Some? then v.value else default'
  }

  method WriteNode(store: Overlay, id: NodeKey, hash: Digest, default': Digest)
    modifies store
    ensures store.View() == Written(old(store.View()), id, hash, default')
  {
    if hash == default' {
      store.DelNode(id);
    } else {
      store.SetNode(id, hash);
    }
  }

  class AccountsDb {
    const hash2: Hash2
    const leafHash: (Key, Digest) -> Digest
    const valueHash: Account -> Digest
    var accounts: Accounts
    var nodes: Nodes

    constructor (hash2: Hash2, leafHash: (Key, Digest) -> Digest, valueHash: Account -> Digest)
      ensures Valid() && accounts == map[] && this.hash2 == hash2 && this.leafHash == leafHash &&
        this.valueHash == valueHash
    {
      this.hash2, this.leafHash, this.valueHash := hash2, leafHash, valueHash;
      accounts, nodes := map[], map[];
      new;
      EmptyStore(hash2);
      assert LeavesOf(accounts) == map[];
    }

    /** The leaf of every account. */
    ghost function LeavesOf(accounts: Accounts): Leaves {
      map k | k in accounts :: leafHash(k, valueHash(accounts[k]))
    }

    /** Every node of the store is the hash of the accounts below it. */
    ghost predicate Valid()
      reads this
    {
      StoreOk(hash2, nodes, LeavesOf(accounts))
    }

    /** The accounts after one change: emptied accounts are purged. */
    function Changed(accounts: Accounts, key: Key, account: Account): Accounts {
      if account.IsEmpty() then accounts - {key} else accounts[key := account]
    }

    ghost function ChangedAll(accounts: Accounts, changes: seq<(Key, Account)>): Accounts {
      if |changes| == 0 then accounts else
        var last := changes[|changes| - 1];
        Changed(ChangedAll(accounts, changes[..|changes| - 1]), last.0, last.1)
    }

    /** The last change to an account decides: it stays as given, unless it has neither funds nor data. */
    lemma {:induction false} LastChange(before: Accounts, changes: seq<(Key, Account)>, i: nat)
      requires i < |changes| && forall j :: i < j < |changes| ==> changes[j].0 != changes[i].0
      ensures var after, key, account := ChangedAll(before, changes), changes[i].0, changes[i].1;
        && (key in after <==> account.lamports > 0 || account.data != [])
        && (key in after ==> after[key] == account)
      ensures forall k {:trigger k in before} {:trigger k in ChangedAll(before, changes)} ::
        (forall j :: 0 <= j < |changes| ==> changes[j].0 != k) ==>
          && (k in ChangedAll(before, changes) <==> k in before)
          && (k in before ==> ChangedAll(before, changes)[k] == before[k])
    {
      Untouched(before, changes);
      var n := |changes| - 1;
      if i < n {
        LastChange(before, changes[..n], i);
      }
    }

    lemma {:induction false} Untouched(before: Accounts, changes: seq<(Key, Account)>)
      ensures forall k {:trigger k in before} {:trigger k in ChangedAll(before, changes)} ::
        (forall j :: 0 <= j < |changes| ==> changes[j].0 != k) ==>
          && (k in ChangedAll(before, changes) <==> k in before)
          && (k in before ==> ChangedAll(before, changes)[k] == before[k])
    {
      if |changes| > 0 {
        var init := changes[..|changes| - 1];
        Untouched(before, init);
        forall k | forall j :: 0 <= j < |changes| ==> changes[j].0 != k
          ensures k in ChangedAll(before, changes) <==> k in before
          ensures k in before ==> ChangedAll(before, changes)[k] == before[k]
        {
          assert forall j :: 0 <= j < |init| ==> init[j] == changes[j];
          assert k in before ==> k in ChangedAll(before, init);
        }
      }
    }

    method Set(key: Key, account: Account)
      requires Valid()
      modifies this
      ensures Valid() && accounts == old(accounts)[key := account]
    {
      ghost var m := LeavesOf(accounts);
      var store := new Overlay(nodes);
      var leaf := leafHash(key, valueHash(account));
      UpdateLeaf(hash2, store, key, leaf, m);
      assert m[key := leaf] == LeavesOf(accounts[key := account]);
      accounts := accounts[key := account];
      nodes := Flushed(store.stored, store.pending);
    }

    method Delete(key: Key)
      requires Valid()
      modifies this
      ensures Valid() && accounts == old(accounts) - {key}
    {
      ghost var m := LeavesOf(accounts);
      var store := new Overlay(nodes);
      UpdateLeaf(hash2, store, key, EMPTY_LEAF, m);
      Emptied(store.View(), accounts, key);
      accounts := accounts - {key};
      nodes := Flushed(store.stored, store.pending);
    }

    /** An empty leaf is an absent one. */
    lemma {:induction false} Emptied(view: Nodes, accounts: Accounts, key: Key)
      requires StoreOk(hash2, view, LeavesOf(accounts)[key := EMPTY_LEAF])
      ensures StoreOk(hash2, view, LeavesOf(accounts - {key}))
    {
      hide StoreOk;
      var m, m' := LeavesOf(accounts)[key := EMPTY_LEAF], LeavesOf(accounts - {key});
      forall k: Key
        ensures SameLeaf(m, m', k)
      {
      }
      StoreSame(hash2, view, m, m');
    }

    /** Applies all changes in one batch; later changes see the paths of earlier ones. */
    method Commit(changes: seq<(Key, Account)>)
      requires Valid()
      modifies this
      ensures Valid() && accounts == ChangedAll(old(accounts), changes)
      ensures forall i {:trigger changes[i]} ::
        0 <= i < |changes| && (forall j :: i < j < |changes| ==> changes[j].0 != changes[i].0) ==>
          var key, account := changes[i].0, changes[i].1;
          && (key in accounts <==> account.lamports > 0 || account.data != [])
          && (key in accounts ==> accounts[key] == account)
    {
      hide StoreOk, Flushed;
      var store := new Overlay(nodes);
      var now := accounts;
      for i := 0 to |changes|
        invariant now == ChangedAll(accounts, changes[..i]) && accounts == old(accounts)
        invariant fresh(store) && store.stored == nodes
        invariant StoreOk(hash2, store.View(), LeavesOf(now))
      {
        var key, account := changes[i].0, changes[i].1;
        assert changes[..i + 1][..i] == changes[..i];
        if account.IsEmpty() {
          UpdateLeaf(hash2, store, key, EMPTY_LEAF, LeavesOf(now));
          Emptied(store.View(), now, key);
        } else {
          var leaf := leafHash(key, valueHash(account));
          UpdateLeaf(hash2, store, key, leaf, LeavesOf(now));
          assert LeavesOf(now)[key := leaf] == LeavesOf(now[key := account]);
        }
        now := Changed(now, key, account);
      }
      assert changes[..|changes|] == changes;
      forall i | 0 <= i < |changes| && (forall j :: i < j < |changes| ==> changes[j].0 != changes[i].0)
        ensures var key, account := changes[i].0, changes[i].1;
          && (key in now <==> account.lamports > 0 || account.data != [])
          && (key in now ==> now[key] == account)
      {
        LastChange(accounts, changes, i);
      }
      accounts := now;
      nodes := Flushed(store.stored, store.pending);
    }

    /** The root over all accounts, read in one lookup. It is the root of the tree built from scratch from
        any listing of these accounts, whatever the order of the updates was. */
    method StateRoot() returns (root: Digest)
      requires Valid()
      ensures root == Node(hash2, LeavesOf(accounts), FirstKey(), 0)
      ensures forall entries, leaves :: ListsAccounts(entries) && BuiltFrom(leafHash, entries, leaves) ==>
        root == SubtreeRoot(hash2, leaves, 0)
    {
      hide StoreOk, Node, NodeId, Default, SubtreeRoot, BuiltFrom;
      RootRight(hash2, nodes, LeavesOf(accounts), FirstKey(), 0);
      var d := Smt.Defaults(hash2);
      var store := new Overlay(nodes);
      root := ReadNode(store, NodeId(FirstKey(), 0), d[0]);
      forall entries, leaves | ListsAccounts(entries) && BuiltFrom(leafHash, entries, leaves)
        ensures SubtreeRoot(hash2, leaves, 0) == Node(hash2, LeavesOf(accounts), FirstKey(), 0)
      {
        RootOfListing(entries, leaves);
      }
    }

    /** The entries list every account, in any order and perhaps more than once. */
    ghost predicate ListsAccounts(entries: seq<(Key, Digest)>)
      reads this`accounts
    {
      && (forall i {:trigger entries[i]} :: 0 <= i < |entries| ==>
        entries[i].0 in accounts && entries[i].1 == valueHash(accounts[entries[i].0]))
      && forall k {:trigger accounts[k]} :: k in accounts ==> (k, valueHash(accounts[k])) in entries
    }

    /** The tree from scratch: sort the entries, hash slice by slice. */
    method FromScratch(entries: seq<(Key, Digest)>) returns (root: Digest)
      requires ListsAccounts(entries)
      ensures root == Node(hash2, LeavesOf(accounts), FirstKey(), 0)
    {
      hide Node, SubtreeRoot;
      var leaves := FromEntries(leafHash, entries);
      RootOfListing(entries, leaves);
      root := SubtreeRoot(hash2, leaves, 0);
    }

    lemma {:induction false} RootOfListing(entries: seq<(Key, Digest)>, leaves: seq<Leaf>)
      requires ListsAccounts(entries) && BuiltFrom(leafHash, entries, leaves)
      ensures SubtreeRoot(hash2, leaves, 0) == Node(hash2, LeavesOf(accounts), FirstKey(), 0)
    {
      var m := LeavesOf(accounts);
      forall k: Key
        ensures k in FirstOf(leafHash, entries) <==> k in m
        ensures k in m ==> FirstOf(leafHash, entries)[k] == m[k]
      {
        assert k in accounts ==> (k, valueHash(accounts[k])) in entries;
        var i, j := EndsOf(leafHash, entries, k);
        if k !in FirstOf(leafHash, entries) {
          AbsentKey(leafHash, entries, k);
        }
      }
      assert FirstOf(leafHash, entries) == m;
      hide Node, SubtreeRoot;
      AllListed(leaves, m, FirstKey());
      SubtreeRootIsNode(hash2, leaves, m, FirstKey(), 0);
    }

    /** The account, if present, and the hashes beside its path. */
    method StateProof(key: Key) returns (account: Option<Account>, siblings: seq<Digest>)
      requires Valid()
      ensures account == if key in accounts then Some(accounts[key]) else None
      ensures siblings == Siblings(hash2, LeavesOf(accounts), key, 0)
      ensures FoldUp(hash2, key, LeafAt(LeavesOf(accounts), key), siblings, 0) ==
        Node(hash2, LeavesOf(accounts), FirstKey(), 0)
    {
      hide StoreOk, Node, NodeId, Default, FlipBit, Siblings, FoldUp, Flushed;
      ghost var m := LeavesOf(accounts);
      var d := Smt.Defaults(hash2);
      var store := new Overlay(nodes);
      siblings := [];
      for depth := 0 to HEIGHT
        invariant store.View() == nodes
        invariant |siblings| == depth && forall i :: 0 <= i < depth ==> siblings[i] == Siblings(hash2, m, key, 0)[i]
      {
        RootRight(hash2, nodes, m, FlipBit(key, depth), depth + 1);
        SiblingAt(hash2, m, key, 0, depth);
        siblings := siblings + [ReadNode(store, NodeId(FlipBit(key, depth), depth + 1), d[depth + 1])];
      }
      account := if key in accounts then Some(accounts[key]) else None;
      ProofFolds(hash2, m, key, 0);
      SameRoot(hash2, m, key, FirstKey());
    }
  }

  function FirstKey(): Key {
    seq(32, i => 0)
  }

  lemma {:induction false} SameRoot(h: Hash2, m: Leaves, a: Key, b: Key)
    ensures Node(h, m, a, 0) == Node(h, m, b, 0)
  {
    SamePathNode(h, m, a, b, 0);
  }
}
