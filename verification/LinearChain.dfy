/** The linear chain: headers by id, cumulative work, and the heaviest tip. */
module LinearChain {
  import opened Types
  import opened Target
  import opened Difficulty

  datatype Header = Header(prev: Hash, height: nat, timestamp: int, target: U256, rest: nat) {
    predicate IsGenesis() {
      height == 0 && prev == NONE
    }
  }

  datatype Entry = Entry(header: Header, work: int)

  datatype BlockStatus = ExtendedTip | Reorg(oldTip: Hash, newTip: Hash) | SideChain

  datatype ChainError = Duplicate | UnknownParent | BadHeight(expected: nat,
      got: nat) | BadTimestamp | BadTarget | BadPow

  /** `Overflow` is the panic of a checked 256-bit addition. */
  datatype Outcome = Accepted(status: BlockStatus) | Rejected(error: ChainError) | Overflow

  type Entries = map<Hash, Entry>

  ghost predicate Linked(blocks: Entries, id: Hash)
    requires id in blocks
  {
    var h := blocks[id].header;
    h.prev in blocks && h.height == blocks[h.prev].header.height + 1 && blocks[h.prev].header.timestamp <= h.timestamp
  }

  ghost predicate Connected(blocks: Entries, genesis: Hash) {
    && genesis in blocks && blocks[genesis].header.IsGenesis()
    && forall id {:trigger Linked(blocks, id)} :: id in blocks && id != genesis ==> Linked(blocks, id)
  }

  /** The headers from genesis to `id`. */
  ghost function Path(blocks: Entries, genesis: Hash, id: Hash): seq<Header>
    requires Connected(blocks, genesis) && id in blocks
    decreases blocks[id].header.height
  {
    if id == genesis then [blocks[id].header] else
      assert Linked(blocks, id);
      Path(blocks, genesis, blocks[id].header.prev) + [blocks[id].header]
  }

  function Samples(headers: seq<Header>): (samples: seq<Sample>)
    ensures |samples| == |headers| && forall i {:trigger samples[i]} :: 0 <= i < |headers| ==>
      samples[i].timestamp == headers[i].timestamp && samples[i].target == headers[i].target
  {
    seq(|headers|, i requires 0 <= i < |headers| => Sample(headers[i].timestamp, headers[i].target))
  }

  function WorkOf(headers: seq<Header>): int {
    if |headers| == 0 then 0 else WorkOf(headers[..|headers| - 1]) + WorkForTarget(headers[|headers| - 1].target)
  }

  /** The recorded work is that of the whole path, within 256 bits, and the target is what the whole
      path asks for. */
  ghost predicate EntryOk(blocks: Entries, genesis: Hash, params: Params, id: Hash)
    requires Connected(blocks, genesis) && id in blocks && params.Valid()
  {
    && blocks[id].work == WorkOf(Path(blocks, genesis, id)) <= U256_MAX
    && (id != genesis ==>
      assert Linked(blocks, id);
      blocks[id].header.target ==
        TargetAfter(Samples(Path(blocks, genesis, blocks[id].header.prev)), params, blocks[genesis].header.target))
  }

  lemma {:induction false} PathLength(blocks: Entries, genesis: Hash, id: Hash)
    requires Connected(blocks, genesis) && id in blocks
    ensures |Path(blocks, genesis, id)| == blocks[id].header.height + 1
    decreases blocks[id].header.height
  {
    if id != genesis {
      assert Linked(blocks, id);
      PathLength(blocks, genesis, blocks[id].header.prev);
    }
  }

  lemma {:induction false} PathEnd(blocks: Entries, genesis: Hash, id: Hash)
    requires Connected(blocks, genesis) && id in blocks
    ensures |Path(blocks, genesis, id)| > 0 &&
      Path(blocks, genesis, id)[|Path(blocks, genesis, id)| - 1] == blocks[id].header
  {
    assert id != genesis ==> Linked(blocks, id);
  }

  /** A path that does not fill the window keeps the target of its last header. */
  lemma {:induction false} WarmUp(path: seq<Header>, params: Params, genesisTarget: U256)
    requires params.Valid() && 0 < |path| <= params.window
    ensures TargetAfter(Samples(path), params, genesisTarget) == path[|path| - 1].target
  {
  }

  /** On-time headers of one work keep it, but for at most one. */
  lemma {:induction false} OnTimePath(path: seq<Header>, work: int, params: Params, genesisTarget: U256)
    requires params.Valid() && |path| > params.window && 1 <= work && work * work <= TWO_256
    requires forall j {:trigger path[j]} :: |path| - params.window <= j < |path| ==>
      path[j].timestamp - path[j - 1].timestamp == params.blockTime && WorkForTarget(path[j].target) == work
    requires work * (params.blockTime * (params.window * (params.window + 1) / 2)) <= U256_MAX
    ensures var next := TargetAfter(Samples(path), params, genesisTarget);
      WorkForTarget(next) == work || WorkForTarget(next) == work - 1
  {
    hide TargetAfter, WorkForTarget;
    var recent := Samples(path);
    forall j {:trigger recent[j]} | |recent| - params.window <= j < |recent|
      ensures recent[j].timestamp - recent[j - 1].timestamp == params.blockTime &&
        WorkForTarget(recent[j].target) == work
    {
      assert path[j].target == recent[j].target && path[j - 1].timestamp == recent[j - 1].timestamp;
    }
    OnTimeKept(recent, work, params, genesisTarget);
  }

  lemma {:induction false} ConnectedMore(blocks: Entries, genesis: Hash, id: Hash, e: Entry)
    requires Connected(blocks, genesis) && id !in blocks && e.header.prev in blocks
    requires e.header.height == blocks[e.header.prev].header.height + 1 &&
      blocks[e.header.prev].header.timestamp <= e.header.timestamp
    ensures Connected(blocks[id := e], genesis)
  {
    var blocks' := blocks[id := e];
    forall x | x in blocks' && x != genesis
      ensures Linked(blocks', x)
    {
      assert x != id ==> Linked(blocks, x);
    }
  }

  lemma {:induction false} PathSame(blocks: Entries, genesis: Hash, id: Hash, e: Entry, x: Hash)
    requires Connected(blocks, genesis) && id !in blocks && x in blocks && Connected(blocks[id := e], genesis)
    ensures Path(blocks[id := e], genesis, x) == Path(blocks, genesis, x)
    decreases blocks[x].header.height
  {
    if x != genesis {
      assert Linked(blocks, x);
      assert Linked(blocks[id := e], x);
      PathSame(blocks, genesis, id, e, blocks[x].header.prev);
    }
  }

  lemma {:induction false} WorkSnoc(headers: seq<Header>, h: Header)
    ensures WorkOf(headers + [h]) == WorkOf(headers) + WorkForTarget(h.target)
  {
    assert (headers + [h])[..|headers|] == headers;
  }

  lemma {:induction false} EntriesMore(blocks: Entries, genesis: Hash, params: Params, id: Hash, e: Entry, x: Hash)
    requires Connected(blocks, genesis) && params.Valid() && id !in blocks && e.header.prev in blocks &&
      Connected(blocks[id := e], genesis) && x in blocks[id := e]
    requires x in blocks ==> EntryOk(blocks, genesis, params, x)
    requires e.work == WorkOf(Path(blocks, genesis, e.header.prev)) + WorkForTarget(e.header.target) <= U256_MAX
    requires e.header.target ==
      TargetAfter(Samples(Path(blocks, genesis, e.header.prev)), params, blocks[genesis].header.target)
    ensures EntryOk(blocks[id := e], genesis, params, x)
  {
    var blocks' := blocks[id := e];
    if x == id {
      assert Linked(blocks', id);
      PathSame(blocks, genesis, id, e, e.header.prev);
      WorkSnoc(Path(blocks, genesis, e.header.prev), e.header);
    } else {
      PathSame(blocks, genesis, id, e, x);
      if x != genesis {
        assert Linked(blocks, x);
        PathSame(blocks, genesis, id, e, blocks[x].header.prev);
      }
    }
  }

  /** The work summed up over a window is part of the work of the whole path. */
  lemma {:induction false} WindowWork(headers: seq<Header>, n: nat, i: nat)
    requires n < |headers| && i <= n
    ensures var w := Last(Samples(headers), n + 1);
      DifficultySum(w, i) <= WorkOf(headers[..|headers| - n + i])
  {
    var a := |headers| - n + i - 1;
    WorkNotNegative(headers[..a]);
    WorkPositive(headers[a].target);
    assert headers[..a + 1][..a] == headers[..a];
    if i > 0 {
      WindowWork(headers, n, i - 1);
      assert Last(Samples(headers), n + 1)[i].target == headers[a].target;
    }
  }

  lemma {:induction false} WorkNotNegative(headers: seq<Header>)
    ensures WorkOf(headers) >= 0
  {
    if |headers| > 0 {
      WorkNotNegative(headers[..|headers| - 1]);
    }
  }

  class ChainState {
    /** The hash of a header, and whether its proof of work verifies. */
    const identify: Header -> Hash
    const verifies: Header -> bool
    const genesis: Hash
    const params: Params
    const genesisTarget: U256
    var blocks: Entries
    var tip: Hash

    constructor (genesis: Header, params: Params, identify: Header -> Hash, verifies: Header -> bool)
      requires genesis.IsGenesis() && params.Valid()
      ensures Valid() && tip == this.genesis && this.genesis == identify(genesis) &&
        blocks == map[identify(genesis) := Entry(genesis, WorkForTarget(genesis.target))]
      ensures this.params == params && this.identify == identify && this.verifies == verifies
    {
      var id := identify(genesis);
      this.identify, this.verifies, this.params := identify, verifies, params;
      this.genesis, genesisTarget, tip := id, genesis.target, id;
      blocks := map[id := Entry(genesis, WorkForTarget(genesis.target))];
      WorkSnoc([], genesis);
      assert [] + [genesis] == [genesis];
    }

    ghost predicate Valid()
      reads this
    {
      && params.Valid() && Connected(blocks, genesis) && genesisTarget == blocks[genesis].header.target
      && (forall id {:trigger EntryOk(blocks, genesis, params, id)} :: id in blocks ==>
        EntryOk(blocks, genesis, params, id))
      && (forall id {:trigger blocks[id]} :: id in blocks ==>
        identify(blocks[id].header) == id && (id != genesis ==> verifies(blocks[id].header)))
      && tip in blocks && Heaviest(tip)
    }

    /** No block has more cumulative work. */
    ghost predicate Heaviest(id: Hash)
      requires id in blocks
      reads this
    {
      forall x :: x in blocks ==> blocks[x].work <= blocks[id].work
    }

    /** Up to `count` headers ending at `from`, in ascending order. */
    method RecentHeaders(from: Hash, count: nat) returns (out: seq<Header>)
      requires Valid()
      ensures out == if from in blocks then Last(Path(blocks, genesis, from), count) else []
    {
      out := [];
      var cur := from;
      for i := 0 to count
        invariant |out| == i
        invariant from in blocks ==> cur in blocks && Path(blocks, genesis, from) == Path(blocks, genesis, cur) + out
        invariant from !in blocks ==> i == 0 && cur == from
      {
        if cur !in blocks {
          return;
        }
        var h := blocks[cur].header;
        PathLength(blocks, genesis, cur);
        assert cur != genesis ==> Linked(blocks, cur);
        if h.IsGenesis() {
          assert Path(blocks, genesis, cur) == [h];
          return [h] + out;
        }
        assert Linked(blocks, cur);
        assert Path(blocks, genesis, from) == Path(blocks, genesis, h.prev) + ([h] + out);
        out := [h] + out;
        cur := h.prev;
      }
      if from in blocks {
        PathLength(blocks, genesis, cur);
      }
    }

    /** The target that the next block on top of `id` must use. */
    method TargetFor(id: Hash) returns (target: U256)
      requires Valid() && id in blocks
      ensures target == TargetAfter(Samples(Path(blocks, genesis, id)), params, genesisTarget)
      ensures blocks[id].header.height < params.window ==> target == blocks[id].header.target
    {
      hide Path, TargetAfter, Last, Samples;
      var recent := RecentHeaders(id, params.window + 1);
      target := NextTarget(Samples(recent), params, genesisTarget);
      SamplesLast(Path(blocks, genesis, id), params.window + 1);
      WindowSuffices(Samples(Path(blocks, genesis, id)), params, genesisTarget);
      PathLength(blocks, genesis, id);
      PathEnd(blocks, genesis, id);
      if blocks[id].header.height < params.window {
        WarmUp(Path(blocks, genesis, id), params, genesisTarget);
      }
    }

    /** Summing up the work of a window never overflows 256 bits. */
    lemma {:induction false} SumFits(id: Hash)
      requires Valid() && id in blocks && |Path(blocks, genesis, id)| > params.window
      ensures DifficultySum(Last(Samples(Path(blocks, genesis, id)), params.window + 1), params.window) <= U256_MAX
    {
      hide TargetAfter, Path, WorkOf, Linked, DifficultySum;
      var path := Path(blocks, genesis, id);
      assert EntryOk(blocks, genesis, params, id);
      WindowWork(path, params.window, params.window);
      assert path[..|path|] == path;
    }

    /** The first rule that a header breaks, if any. */
    method Examine(header: Header) returns (refusal: Option<ChainError>)
      requires Valid()
      ensures refusal == Refusal(blocks, header)
      ensures refusal.None? ==>
        && identify(header) !in blocks && header.prev in blocks && verifies(header)
        && header.height == blocks[header.prev].header.height + 1
        && header.timestamp >= blocks[header.prev].header.timestamp
        && header.target == TargetAfter(Samples(Path(blocks, genesis, header.prev)), params, genesisTarget)
      ensures refusal.Some? ==>
        match refusal.value
        case Duplicate => identify(header) in blocks
        case UnknownParent => header.prev !in blocks
        case BadHeight(expected, got) => header.prev in blocks &&
          expected == blocks[header.prev].header.height + 1 && got == header.height != expected
        case BadTimestamp => header.prev in blocks && header.timestamp < blocks[header.prev].header.timestamp
        case BadTarget => header.prev in blocks &&
          header.target != TargetAfter(Samples(Path(blocks, genesis, header.prev)), params, genesisTarget)
        case BadPow => !verifies(header)
    {
      hide TargetAfter, Path, WorkOf, WorkForTarget, Samples;
      if identify(header) in blocks {
        return Some(Duplicate);
      }
      if header.prev !in blocks {
        return Some(UnknownParent);
      }
      var parent := blocks[header.prev];
      if header.height != parent.header.height + 1 {
        return Some(BadHeight(parent.header.height + 1, header.height));
      }
      if header.timestamp < parent.header.timestamp {
        return Some(BadTimestamp);
      }
      var expected := TargetFor(header.prev);
      if header.target != expected {
        return Some(BadTarget);
      }
      return if verifies(header) then None else Some(BadPow);
    }

    /** Validates a header and adds it; a branch with strictly more work becomes the best. */
    method AddHeader(header: Header) returns (r: Outcome)
      requires Valid()
      modifies this
      ensures Valid()
      ensures !r.Accepted? ==> blocks == old(blocks) && tip == old(tip)
      ensures r.Accepted? <==> Acceptable(old(blocks), header)
      ensures match Refusal(old(blocks), header) case Some(error) => r == Rejected(error) case None => !r.Rejected?
      ensures r.Accepted? ==>
        && identify(header) !in old(blocks) && header.prev in old(blocks) && verifies(header)
        && header.height == old(blocks)[header.prev].header.height + 1
        && header.timestamp >= old(blocks)[header.prev].header.timestamp
        && header.target == TargetAfter(Samples(Path(old(blocks), genesis, header.prev)), params, genesisTarget)
      ensures r.Accepted? ==>
        blocks ==
        old(blocks)[identify(header) := Entry(header, old(blocks)[header.prev].work + WorkForTarget(header.target))]
      ensures r.Accepted? ==> tip == old(tip) || tip == identify(header)
      ensures r.Accepted? ==>
        (tip == identify(header) <==>
        forall x :: x in old(blocks) ==> old(blocks)[x].work < blocks[identify(header)].work)
      ensures r.Accepted? ==> (r.status == SideChain <==> tip == old(tip))
      ensures r.Accepted? ==> (r.status == ExtendedTip <==> tip != old(tip) && header.prev == old(tip))
      ensures r.Accepted? && r.status.Reorg? ==> r.status == Reorg(old(tip), tip)
      ensures r.Accepted? && header.prev == old(tip) ==> r.status == ExtendedTip
    {
      hide TargetAfter, Path, WorkOf, WorkForTarget, Samples;
      var refusal := Examine(header);
      if refusal.Some? {
        return Rejected(refusal.value);
      }
      var id, parent := identify(header), blocks[header.prev];
      var work := parent.work + WorkForTarget(header.target);
      if work > U256_MAX {
        return Overflow;
      }
      var e := Entry(header, work);
      Extend(id, e);
      if work > blocks[tip].work {
        var oldTip := tip;
        tip := id;
        if blocks[id].header.prev == oldTip {
          return Accepted(ExtendedTip);
        }
        return Accepted(Reorg(oldTip, id));
      }
      WorkPositive(header.target);
      return Accepted(SideChain);
    }

    /** Stores the entry; the caller settles the tip. */
    method Extend(id: Hash, e: Entry)
      requires Valid() && id !in blocks && e.header.prev in blocks
      requires e.header.height == blocks[e.header.prev].header.height + 1 &&
        blocks[e.header.prev].header.timestamp <= e.header.timestamp
      requires e.work == blocks[e.header.prev].work + WorkForTarget(e.header.target) <= U256_MAX
      requires e.header.target == TargetAfter(Samples(Path(blocks, genesis, e.header.prev)), params, genesisTarget)
      modifies this`blocks
      ensures blocks == old(blocks)[id := e] && Connected(blocks, genesis) &&
        genesisTarget == blocks[genesis].header.target
      ensures forall x {:trigger EntryOk(blocks, genesis, params, x)} :: x in blocks ==>
        EntryOk(blocks, genesis, params, x)
    {
      hide TargetAfter, WorkOf, Path, WorkForTarget, Linked;
      ConnectedMore(blocks, genesis, id, e);
      assert EntryOk(blocks, genesis, params, e.header.prev);
      ghost var blocks' := blocks[id := e];
      forall x | x in blocks'
        ensures EntryOk(blocks', genesis, params, x)
      {
        assert x in blocks ==> EntryOk(blocks, genesis, params, x);
        EntriesMore(blocks, genesis, params, id, e, x);
      }
      blocks := blocks[id := e];
    }

    /** The first rule that a header breaks, against the whole ancestry of its parent. */
    ghost function Refusal(known: Entries, header: Header): Option<ChainError>
      requires params.Valid() && Connected(known, genesis)
    {
      if identify(header) in known then Some(Duplicate)
      else if header.prev !in known then Some(UnknownParent)
      else if header.height != known[header.prev].header.height + 1 then
        Some(BadHeight(known[header.prev].header.height + 1, header.height))
      else if header.timestamp < known[header.prev].header.timestamp then Some(BadTimestamp)
      else if header.target != TargetAfter(Samples(Path(known, genesis, header.prev)), params, genesisTarget) then
        Some(BadTarget)
      else if !verifies(header) then Some(BadPow)
      else None
    }

    /** A header that breaks no rule and leaves the total of work within 256 bits. */
    ghost predicate Acceptable(known: Entries, header: Header)
      requires params.Valid() && Connected(known, genesis)
    {
      && Refusal(known, header).None?
      && known[header.prev].work + WorkForTarget(header.target) <= U256_MAX
    }
  }

  lemma {:induction false} SamplesLast(headers: seq<Header>, n: nat)
    ensures Samples(Last(headers, n)) == Last(Samples(headers), n)
  {
  }
}
