/** The DAG node: blocks on an engine, the state their order leads to, checkpoints, and pruning. */
module DagChain {
  import opened Types
  import opened Dag
  import opened Ghostdag
  import opened Colouring
  import opened Agreement
  import opened Linearization
  import opened Engine
  import opened Anchor
  import opened NiPoPoW
  import opened Replay
  import opened DagState
  import opened Target
  import opened Difficulty
  import opened Pruning
  import opened Checkpoints

  const MAX_PARENTS := 16

  const MAX_TIMESTAMP_DRIFT := 600

  /** What becomes of a block from outside. `Failed` is a panic of the engine for want of labels. */
  datatype Verdict =
    | Stored | AlreadyKnown | BadWork | NoParents | TooManyParents | DuplicateParent | Orphan
    | WrongTarget | Backdated | BadInterlink | Failed

  /** What a node holds at one moment. */
  datatype Moment<!S> = Moment(g: Graph, gd: Ghosts, book: Ledger<S>, tips: seq<Hash>, blocks: set<Hash>, txs: Txs,
                               pruned: bool, based: bool, cache: Cache<S>,
                               stateTip: Hash, frozen: seq<Hash>, frozenTip: Hash, history: Headers, stem: seq<Hash>,
                                 gone: set<Hash>,
                               proof: seq<DagHeader>, ever: Txs, dropped: seq<Hash>)

  class DagChain<S> {
    const step: Step<S>
    const identify: DagHeader -> Hash
    const initial: S
    const reward: nat
    const lwmaWindow: nat
    const blockTime: nat
    const genesisTarget: U256
    var engine: DagEngine
    var genesis: Hash
    var tips: seq<Hash>
    var blocks: set<Hash>
    var blockTxs: Txs
    var headers: Headers
    var base: Option<S>
    var state: Option<S>
    var executed: seq<Hash>
    var finalityDepth: nat
    var checkpoint: Option<Checkpoint<S>>
    var historyPruned: bool
    /** The proof for the current origin, once something was pruned. */
    var proof: seq<DagHeader>
    /** Transactions of all blocks, also those whose bodies were dropped. */
    ghost var full: Txs
    /** The blocks whose effects the checkpoint holds. */
    ghost var frozen: seq<Hash>
    /** All headers ever stored, the chain from the first genesis to the current origin, and the blocks
        pruned below it. */
    ghost var history: Headers
    ghost var stem: seq<Hash>
    ghost var gone: set<Hash>
    /** The transactions of all blocks ever stored, and the pruned part of the order. */
    ghost var ever: Txs
    ghost var dropped: seq<Hash>
    /** The tips for which the cached state and the checkpoint were made. */
    ghost var stateTip: Hash
    ghost var frozenTip: Hash

    /** A chain on an engine that holds genesis alone. */
    constructor (engine: DagEngine, header: DagHeader, step: Step<S>, initial: S, reward: nat,
                 identify: DagHeader -> Hash, lwmaWindow: nat, blockTime: nat,
                 finalityDepth: nat)
      requires engine.Valid() && engine.Started() && engine.g.parents.Keys == {ORIGIN, engine.genesis}
      requires identify(header) == engine.genesis && header.parents == [] && header.interlink == []
      ensures Sound() && this.engine == engine && genesis == engine.genesis && blocks == {genesis} &&
        headers == map[engine.genesis := header] && full == map[] == blockTxs
      ensures base.None? && !historyPruned && state.None? && executed == [] && checkpoint.None? &&
        stem == [engine.genesis] && dropped == [] && proof == []
      ensures this.step == step && this.identify == identify && this.initial == initial && this.reward == reward &&
        this.lwmaWindow == lwmaWindow
      ensures this.blockTime == blockTime && this.finalityDepth == finalityDepth && genesisTarget == header.target
    {
      this.step, this.identify, this.initial, this.reward, this.lwmaWindow, this.finalityDepth :=
        step, identify, initial, reward, lwmaWindow, finalityDepth;
      this.blockTime, genesisTarget, proof := blockTime, header.target, [];
      this.engine, genesis, tips, blocks := engine, engine.genesis, [engine.genesis], {engine.genesis};
      blockTxs, headers, base, state, executed, checkpoint, historyPruned :=
        map[], map[engine.genesis := header], None, None, [], None, false;
      full, frozen := map[], [];
      history, stem, gone, ever, dropped := map[engine.genesis := header], [engine.genesis], {}, map[], [];
      stateTip, frozenTip := engine.genesis, engine.genesis;
      new;
      hide Sound, DagEngine.Valid;
      FreshSound(header);
    }

    lemma {:induction false} FreshSound(header: DagHeader)
      requires engine.Valid() && engine.Started() && engine.g.parents.Keys == {ORIGIN, engine.genesis}
      requires identify(header) == engine.genesis && header.parents == [] && header.interlink == []
      requires genesis == engine.genesis && tips == [genesis] && blocks == {genesis} &&
        headers == map[genesis := header] == history
      requires blockTxs == map[] == full && base.None? && state.None? && executed == [] && checkpoint.None? &&
        !historyPruned && frozen == []
      requires stem == [genesis] && gone == {} && ever == map[] && dropped == [] && proof == []
      ensures Sound()
    {
      engine.ValidIndex();
      hide DagEngine.Valid, GdOk, CacheOk, HeadersOk, TipsOk, Lean, StemOk, Replayed, Linear;
      GenesisTips(engine.g);
      Opened(engine.g, engine.manager.gd, header, identify);
      FreshCache(Book());
      FreshStory(Book(), history);
    }

    ghost function Book(): Ledger<S>
      reads this`genesis, this`headers, this`full, this`base
    {
      Ledger(step, genesis, headers, full, if base.Some? then base.value else initial)
    }

    ghost function Order(): seq<Hash>
      reads this`engine, engine, engine.manager
    {
      Linear(engine.g, engine.manager.gd, engine.tip)
    }

    /** The state that replaying the current order from the current base gives. */
    ghost function TrueState(): S
      reads this`engine, this`genesis, this`headers, this`full, this`base, engine, engine.manager
    {
      StateAfter(Book(), Order())
    }

    /** Engine, headers and tips agree. */
    ghost predicate Core()
      reads this`engine, this`genesis, this`blocks, this`headers, this`tips, engine, engine.manager,
        engine.manager.reach
    {
      && engine.Valid() && engine.Started() && engine.genesis == genesis
      && blocks == Suffix(engine.g) && HeadersOk(headers, engine.g, engine.manager.gd, identify)
      && TipsOk(engine.g, tips) && Lean(engine.g)
    }

    /** The retained proof leads from the first genesis to the current origin. */
    ghost predicate StemInv()
      reads this`history, this`stem, this`gone, this`headers, this`genesis, this`proof, this`historyPruned
    {
      StemOk(history, stem, gone, headers, genesis, proof, historyPruned, identify)
    }

    ghost predicate CacheInv()
      reads this`genesis, this`headers, this`full, this`base, this`blockTxs, this`historyPruned, this`state,
        this`executed, this`checkpoint, this`frozen
    {
      CacheOk(Book(), blockTxs, historyPruned, base.Some?, Cache(state, executed, checkpoint), frozen)
    }

    /** The cached state was made for the order of some tip, and so was the checkpoint. */
    ghost predicate PlaceInv()
      reads this`engine, this`executed, this`frozen, this`stateTip, this`frozenTip, engine, engine.manager
    {
      PlacesOk(engine.g, engine.manager.gd, executed, stateTip, frozen, frozenTip)
    }

    /** The base is the replay of everything that was pruned. */
    ghost predicate StoryInv()
      reads this`genesis, this`headers, this`full, this`base, this`history, this`stem, this`gone, this`ever,
        this`dropped
    {
      |stem| > 0 && Replayed(Book(), initial, history, ever, stem[0], dropped, gone)
    }

    /** Everything that holds between two calls. */
    ghost predicate Sound()
      reads this, engine, engine.manager, engine.manager.reach
    {
      Core() && CacheInv() && StemInv() && PlaceInv() && StoryInv()
    }

    lemma {:induction false} OrderKnown()
      requires Core()
      ensures Distinct(Order()) && |Order()| > 0 && forall b :: b in Order() ==> b in headers
      ensures GdOk(engine.g, engine.manager.gd) && engine.tip in engine.manager.gd && engine.tip != ORIGIN &&
        engine.g.genesis == genesis
    {
      engine.ValidIndex();
      engine.TipKnown();
      hide GdOk, TipsOk, Linear;
      HeaderKeys(headers, engine.g, engine.manager.gd, identify);
      OrderFacts(engine.g, engine.manager.gd, engine.tip);
    }

    function BaseState(): S
      reads this`base
    {
      if base.Some? then base.value else initial
    }

    /** Running the order from the current base, every block but the genesis pays the miner that its
        header names and runs its own transactions. */
    lemma {:induction false} StateIsEarned()
      requires Core()
      ensures exists states: seq<S> ::
        && Paid(step, headers, full, genesis, Order(), states)
        && states[0] == BaseState() && states[|Order()|] == TrueState()
    {
      hide Core, Linear, Run, Paid;
      OrderKnown();
      var states := RunPays(step, headers, full, genesis, BaseState(), Order());
    }

    /** Replays everything; impossible once bodies were dropped without a new base. */
    method RebuildState() returns (r: Option<S>)
      requires Core()
      ensures r.Some? <==> !historyPruned || base.Some?
      ensures r.Some? ==> r.value == Run(step, headers, blockTxs, genesis, BaseState(), Order())
      ensures r.Some? && BodiesAtHand() ==> r.value == TrueState()
      ensures r.Some? ==>
        exists states: seq<S> ::
          && Paid(step, headers, blockTxs, genesis, Order(), states)
          && states[0] == BaseState() && states[|Order()|] == r.value
    {
      OrderKnown();
      if historyPruned && base.None? {
        return None;
      }
      var order := engine.TotalOrder();
      var ok, s := ReplayBlocks(step, reward, headers, blockTxs, genesis, BaseState(), order);
      if BodiesAtHand() {
        AtHandRuns(Book(), blockTxs, BaseState(), order);
      }
      return Some(s);
    }

    /** The bodies of all blocks that a full replay would run. */
    ghost predicate BodiesAtHand()
      reads this`engine, this`genesis, this`full, this`blockTxs, engine, engine.manager
    {
      AtHand(full, blockTxs, genesis, Order())
    }

    /** A full replay from the bodies at hand is right for all ways of executing blocks, or wrong for
        the one that writes down what it ran: bodies dropped on a base that moved are missed. */
    lemma {:induction false} RebuildExact()
      ensures (Run(Trace(), headers, blockTxs, genesis, [], Order())
        == Run(Trace(), headers, full, genesis, [], Order())) <==> BodiesAtHand()
      ensures BodiesAtHand() ==> Run(step, headers, blockTxs, genesis, BaseState(), Order()) == TrueState()
    {
      BodiesNeeded(headers, full, blockTxs, genesis, Order());
      if BodiesAtHand() {
        AtHandRuns(Book(), blockTxs, BaseState(), Order());
      }
    }

    /** The order still begins with the blocks of the checkpoint. */
    ghost predicate Continues()
      reads this, engine, engine.manager
    {
      CacheInv() && frozen <= Order()
    }

    /** If it does not, the checkpoint is seen not to fit, and there are bodies to replay everything. */
    ghost predicate Recoverable()
      reads this, engine, engine.manager
    {
      CacheInv() && Truthful(Order()) && BodiesAtHand()
    }

    /** The checkpoint is not taken for the beginning of an order that begins differently. */
    ghost predicate Truthful(order: seq<Hash>)
      reads this`checkpoint, this`frozen
    {
      (&& checkpoint.Some? && 0 < checkpoint.value.len <= |order|
       && order[checkpoint.value.len - 1] == checkpoint.value.lastId) ==> frozen <= order
    }

    /** Runs what leads to the end of `order`: what is new if the order only grew, else what follows the
        checkpoint if its last block is still in its place, else everything. */
    method Execute(order: seq<Hash>) returns (ok: bool, s: S)
      requires checkpoint.Some? ==> checkpoint.value.len > 0
      requires Distinct(order) && forall b :: b in order ==> b in headers
      ensures CacheInv() && frozen <= order ==> ok && s == StateAfter(Book(), order)
      ensures CacheInv() && Truthful(order) && AtHand(full, blockTxs, genesis, order) ==>
        if ok then s == StateAfter(Book(), order) else historyPruned && base.None?
    {
      Paths(order);
      hide CacheInv, Truthful, AtHand, Run, StateAfter, Book, Distinct;
      if state.Some? && |order| >= |executed| && executed == order[..|executed|] {
        ok, s := ReplayBlocks(step, reward, headers, blockTxs, genesis, state.value, order[|executed|..]);
      }
        else if checkpoint.Some? && |order| >= checkpoint.value.len &&
        order[checkpoint.value.len - 1] == checkpoint.value.lastId {
        ok, s :=
          ReplayBlocks(step, reward, headers, blockTxs, genesis, checkpoint.value.accounts,
          order[checkpoint.value.len..]);
      } else if historyPruned && base.None? {
        return false, BaseState();
      } else {
        ok, s := ReplayBlocks(step, reward, headers, blockTxs, genesis, BaseState(), order);
      }
    }

    /** Whichever way is taken, it leads to the state of the whole order. */
    lemma {:induction false} Paths(order: seq<Hash>)
      requires Distinct(order) && forall b :: b in order ==> b in headers
      requires checkpoint.Some? ==> checkpoint.value.len > 0
      ensures CacheInv() && (frozen <= order || (Truthful(order) && AtHand(full, blockTxs, genesis, order))) ==>
        && (state.Some? && |order| >= |executed| && executed == order[..|executed|] ==>
              Run(step, headers, blockTxs, genesis, state.value, order[|executed|..]) == StateAfter(Book(), order))
        && ((&& checkpoint.Some? && |order| >= checkpoint.value.len
             && order[checkpoint.value.len - 1] == checkpoint.value.lastId) ==>
              Run(step, headers, blockTxs, genesis, checkpoint.value.accounts, order[checkpoint.value.len..]) ==
                StateAfter(Book(), order))
        && (checkpoint.None? || !(frozen <= order) ==>
          Run(step, headers, blockTxs, genesis, BaseState(), order) == StateAfter(Book(), order))
      ensures CacheInv() && frozen <= order ==>
        if checkpoint.Some? then
        |order| >= checkpoint.value.len && order[checkpoint.value.len - 1] == checkpoint.value.lastId
        else base.Some? || !historyPruned
    {
      CacheFacts();
      if CacheInv() && (frozen <= order || (Truthful(order) && AtHand(full, blockTxs, genesis, order))) {
        if frozen <= order {
          ThreeWays(Book(), blockTxs, historyPruned, base.Some?, Cache(state, executed, checkpoint), frozen, order);
        } else {
          if state.Some? && |order| >= |executed| && executed == order[..|executed|] {
            PrefixTrans(frozen, executed, order);
          }
          hide CacheOk, Run;
          AtHandRuns(Book(), blockTxs, BaseState(), order);
        }
      }
    }

    /** The current state. It is the replay of the whole order if that still begins with the blocks of
        the checkpoint, and then everything is ready for the next call. It is so as well, or the error of
        a history that is gone, if the checkpoint is not taken for a beginning that it is not. */
    method VirtualState() returns (r: Option<S>)
      requires Core()
      requires checkpoint.Some? ==> checkpoint.value.len > 0
      modifies this`state, this`executed, this`checkpoint, this`frozen, this`stateTip, this`frozenTip
      ensures old(Continues()) ==> r == Some(TrueState()) && UpToDate(old(frozen))
      ensures old(Recoverable()) ==> if r.Some? then r.value == TrueState() else historyPruned && base.None?
      ensures old(Continues()) ==> MovedOn(old(checkpoint))
      ensures r.Some? && old(Continues() || Recoverable()) ==>
        exists states: seq<S> ::
          && Paid(step, headers, full, genesis, Order(), states)
          && states[0] == BaseState() && states[|Order()|] == r.value
      ensures old(Sound()) && old(Continues()) ==> Sound()
    {
      hide CacheOk, Core, CacheInv, UpToDate, StemInv, StoryInv, PlacesOk, Linear, StateAfter, AtHand, CheckpointOf,
        Paid;
      ghost var sound, frozen0, frozenTip0 := Sound() && Continues(), frozen, frozenTip;
      if sound {
        PlacesForget();
      }
      r := Refresh();
      StateIsEarned();
      if sound {
        assert CacheInv() && executed == Order() by {
          Updated(frozen0);
        }
        PlacedAgain(frozen0, frozenTip0);
      }
    }

    lemma {:induction false} Updated(before: seq<Hash>)
      requires UpToDate(before)
      ensures CacheInv() && executed == Order() && before <= frozen <= Order()
    {
    }

    lemma {:induction false} PlacesForget()
      requires PlaceInv()
      ensures PlacesOk(engine.g, engine.manager.gd, [], engine.tip, frozen, frozenTip)
    {
    }

    method Refresh() returns (r: Option<S>)
      requires Core()
      requires checkpoint.Some? ==> checkpoint.value.len > 0
      modifies this`state, this`executed, this`checkpoint, this`frozen, this`stateTip, this`frozenTip
      ensures old(Continues()) ==> r == Some(TrueState()) && UpToDate(old(frozen))
      ensures old(Recoverable()) ==> if r.Some? then r.value == TrueState() else historyPruned && base.None?
      ensures old(Continues()) ==> MovedOn(old(checkpoint))
      ensures r.Some? ==> executed == Order() && stateTip == engine.tip
      ensures r.Some? ==> CheckpointOf(old(frozen), old(frozenTip), frozen, frozenTip, executed, stateTip)
    {
      hide CacheOk, Run, Linear, Core, CacheInv, DagEngine.Valid, GdOk, UpToDate, StateAfter, AtHand, Truthful, Book,
        Distinct, CheckpointOf, Continues, Recoverable, Order, TrueState, MovedOn,
        DagEngine.Started;
      OrderKnown();
      CoreEngine();
      var order := engine.TotalOrder();
      Expected(order);
      var ok, s := Execute(order);
      if !ok {
        state := None;
        return None;
      }
      Cached(order, s);
      return state;
    }

    /** Keeps a state just computed, and moves the checkpoint on if it is time. */
    method Cached(order: seq<Hash>, s: S)
      requires order == Order() && Distinct(order) && forall b :: b in order ==> b in headers
      modifies this`state, this`executed, this`checkpoint, this`frozen, this`stateTip, this`frozenTip
      ensures state == Some(s) && executed == order && stateTip == engine.tip
      ensures old(Continues()) && s == StateAfter(Book(), order) ==>
        UpToDate(old(frozen)) && MovedOn(old(checkpoint))
      ensures CheckpointOf(old(frozen), old(frozenTip), frozen, frozenTip, executed, stateTip)
    {
      hide CacheOk, Run, Linear, CacheInv, UpToDate, StateAfter, Book, Distinct, CheckpointOf, Order, MovedOn;
      ghost var fine, before, last := Continues() && s == StateAfter(Book(), order), frozen, checkpoint;
      if fine {
        CacheReady(order);
      }
      state := Some(s);
      executed := order;
      stateTip := engine.tip;
      if fine {
        Refreshed();
      }
      MaybeAdvanceCheckpoint();
      if fine {
        Settled(before, last);
      }
    }

    lemma {:induction false} PlacedAgain(frozen0: seq<Hash>, frozenTip0: Hash)
      requires Core() && executed == Order() && stateTip == engine.tip
      requires CheckpointOf(frozen0, frozenTip0, frozen, frozenTip, executed, stateTip)
      requires PlacesOk(engine.g, engine.manager.gd, [], stateTip, frozen0, frozenTip0)
      ensures PlaceInv()
    {
      OrderKnown();
    }

    /** Does the checkpoint fit the current order, with its last block on the selected chain? */
    method CheckpointFits() returns (fits: bool)
      requires Core() && CacheInv() && PlaceInv()
      ensures fits <==>
        checkpoint.None? ||
        (frozen <= Order() && checkpoint.value.lastId in Chain(engine.g, engine.manager.gd, engine.tip))
      ensures fits ==> Continues()
    {
      hide Core, Linear, Chain, DagEngine.Valid, StateAfter, GdOk;
      OrderKnown();
      CoreEngine();
      if checkpoint.None? {
        return true;
      }
      var len, last := checkpoint.value.len, checkpoint.value.lastId;
      var order := engine.TotalOrder();
      var chain := engine.SelectedChain();
      fits := len <= |order| && order[len - 1] == last && last in chain;
      if fits {
        MatchIsExact(engine.g, engine.manager.gd, engine.tip, frozenTip, len);
      }
    }

    /** A checkpoint whose last block was on the selected chain when it was made is never taken for
        the beginning of an order that begins differently. */
    lemma {:induction false} TruthfulOnChain()
      requires Core() && CacheInv() && PlaceInv()
      requires checkpoint.Some? ==> checkpoint.value.lastId in Chain(engine.g, engine.manager.gd, frozenTip)
      ensures Truthful(Order())
    {
      hide Core, Linear, Chain, StateAfter, GdOk;
      OrderKnown();
      if checkpoint.Some? && 0 < checkpoint.value.len <= |Order()| &&
        Order()[checkpoint.value.len - 1] == checkpoint.value.lastId {
        MatchIsExact(engine.g, engine.manager.gd, frozenTip, engine.tip, checkpoint.value.len);
      }
    }

    lemma {:induction false} Expected(order: seq<Hash>)
      requires order == Linear(engine.g, engine.manager.gd, engine.tip)
      ensures order == Order() && TrueState() == StateAfter(Book(), order)
      ensures (Continues() ==> CacheInv() && frozen <= order) &&
        (Recoverable() ==> CacheInv() && Truthful(order) && AtHand(full, blockTxs, genesis, order))
    {
    }

    lemma {:induction false} CoreEngine()
      requires Core()
      ensures engine.Valid() && engine.Started() && engine.genesis == genesis
    {
    }

    lemma {:induction false} CacheReady(order: seq<Hash>)
      requires CacheInv() && frozen <= order && forall b :: b in order ==> b in headers
      ensures CacheOk(Book(), blockTxs, historyPruned, base.Some?,
        Cache(Some(StateAfter(Book(), order)), order, checkpoint), frozen)
    {
      CacheNow(Book(), blockTxs, historyPruned, base.Some?, Cache(state, executed, checkpoint), frozen, order);
    }

    /** The cache holds the current order, and the checkpoint a prefix of it no shorter than before. */
    ghost predicate UpToDate(before: seq<Hash>)
      reads this, engine, engine.manager
    {
      CacheInv() && executed == Order() && before <= frozen <= Order()
    }

    /** Once twice the finality depth lies behind the last checkpoint, there is one at that depth below
        the tip, with the state there; before that, and without a finality depth, it stays. */
    ghost predicate MovedOn(before: Option<Checkpoint<S>>)
      reads this`engine, this`genesis, this`headers, this`full, this`base, this`checkpoint, this`finalityDepth,
        engine, engine.manager
    {
      var order, done := Order(), if before.Some? then before.value.len else 0;
      if finalityDepth == 0 || |order| < done + 2 * finalityDepth then checkpoint == before
      else
        var len := |order| - finalityDepth;
        checkpoint == Some(Checkpoint(len, order[len - 1], StateAfter(Book(), order[..len])))
    }

    lemma {:induction false} Refreshed()
      requires state.Some? && state.value == StateAfter(Book(), executed)
      requires CacheOk(Book(), blockTxs, historyPruned, base.Some?,
        Cache(Some(StateAfter(Book(), executed)), executed, checkpoint), frozen)
      ensures CacheInv()
    {
    }

    lemma {:induction false} Settled(before: seq<Hash>, last: Option<Checkpoint<S>>)
      requires CacheInv() && executed == Order() && before <= frozen <= executed
      requires var done := if last.Some? then last.value.len else 0;
        if finalityDepth == 0 || |executed| < done + 2 * finalityDepth then checkpoint == last
        else
          var len := |executed| - finalityDepth;
          checkpoint == Some(Checkpoint(len, executed[len - 1], StateAfter(Book(), executed[..len])))
      ensures UpToDate(before) && MovedOn(last)
    {
    }

    /** Moves the checkpoint forward once enough blocks lie behind it. */
    method MaybeAdvanceCheckpoint()
      modifies this`checkpoint, this`frozen, this`frozenTip
      ensures old(CacheInv()) && state.Some? && Distinct(executed) ==> CacheInv() && old(frozen) <= frozen <= executed
      ensures CheckpointOf(old(frozen), old(frozenTip), frozen, frozenTip, executed, stateTip)
      ensures var done := if old(checkpoint).Some? then old(checkpoint).value.len else 0;
        if finalityDepth == 0 || |executed| < done + 2 * finalityDepth then
          checkpoint == old(checkpoint) && frozen == old(frozen)
        else
          old(CacheInv()) && state.Some? && Distinct(executed) ==>
            var len := |executed| - finalityDepth;
            && frozen == executed[..len]
            && checkpoint == Some(Checkpoint(len, executed[len - 1], StateAfter(Book(), frozen)))
    {
      var depth := finalityDepth;
      CacheFacts();
      hide CacheOk, Run, Distinct;
      if depth == 0 {
        return;
      }
      var done := if checkpoint.Some? then checkpoint.value.len else 0;
      if |executed| < done + 2 * depth {
        return;
      }
      var target := |executed| - depth;
      if target <= done {
        return;
      }
      var ok, s;
      if checkpoint.Some? {
        ok, s :=
          ReplayBlocks(step, reward, headers, blockTxs, genesis, checkpoint.value.accounts, executed[done..target]);
      } else {
        ok, s := ReplayBlocks(step, reward, headers, blockTxs, genesis, BaseState(), executed[..target]);
      }
      ghost var fine := CacheInv() && state.Some? && Distinct(executed);
      if fine {
        AdvanceFacts(done, target);
        frozen, frozenTip := executed[..target], stateTip;
      }
      if !ok {
        return;
      }
      checkpoint := Some(Checkpoint(target, executed[target - 1], s));
    }

    lemma {:induction false} CacheFacts()
      ensures CacheInv() && state.Some? ==> frozen <= executed && forall b :: b in executed ==> b in headers
    {
    }

    lemma {:induction false} AdvanceFacts(done: nat, target: nat)
      requires CacheInv() && state.Some? && Distinct(executed) && done < target <= |executed| &&
        done == if checkpoint.Some? then checkpoint.value.len else 0
      ensures |frozen| == done && frozen <= executed
      ensures Run(step, headers, blockTxs, genesis, if checkpoint.Some? then checkpoint.value.accounts
        else BaseState(), executed[done..target])
        == StateAfter(Book(), executed[..target])
      ensures CacheOk(Book(), blockTxs, historyPruned, base.Some?,
        Cache(state, executed, Some(Checkpoint(target, executed[target - 1], StateAfter(Book(), executed[..target])))),
          executed[..target])
    {
      NextCheckpoint(Book(), blockTxs, frozen, executed, target);
      CacheAdvanced(Book(), blockTxs, historyPruned, base.Some?, Cache(state, executed, checkpoint), frozen, target);
    }

    function DaaParams(): Params {
      Params(if blockTime < 1 then 1 else blockTime, if lwmaWindow < 2 then 2 else lwmaWindow)
    }

    /** The target of a block on top of `sp`, from the window of its selected chain. */
    method SelectedChainTarget(sp: Hash) returns (target: U256)
      requires Core() && sp in engine.manager.gd && sp != ORIGIN
      ensures target ==
        TargetAfter(SamplesOf(headers, Last(Chain(engine.g, engine.manager.gd, sp), lwmaWindow + 1)), DaaParams(),
        genesisTarget)
      ensures sp in headers
      ensures lwmaWindow < 2 || |Chain(engine.g, engine.manager.gd, sp)| <= lwmaWindow ==>
        target == headers[sp].target
    {
      hide Core, GdOk, DagEngine.Valid, Chain, TargetAfter, SamplesOf, Last;
      OrderKnown();
      ChainHeaders(sp);
      if lwmaWindow < 2 || |Chain(engine.g, engine.manager.gd, sp)| <= lwmaWindow {
        TargetHeld(headers, Chain(engine.g, engine.manager.gd, sp), lwmaWindow, blockTime, genesisTarget);
      }
      var chain := RecentChain(sp);
      target := NextTarget(SamplesOf(headers, chain), DaaParams(), genesisTarget);
    }

    lemma {:induction false} ChainHeaders(sp: Hash)
      requires Core() && sp in engine.manager.gd && sp != ORIGIN
      ensures var chain := Chain(engine.g, engine.manager.gd, sp);
        |chain| > 0 && chain[|chain| - 1] == sp && forall b :: b in chain ==> b in headers
    {
      CoreParts();
      hide GdOk, Chain, DagEngine.Valid, Linear, TipsOk, Lean;
      ChainLinks(engine.g, engine.manager.gd, sp);
      GraphParts(engine.g, engine.manager.gd);
    }

    /** On-time blocks on the selected chain keep the work that the next block must do. */
    lemma {:induction false} OnTimeChain(sp: Hash, work: int)
      requires Core() && sp in engine.manager.gd && sp != ORIGIN && lwmaWindow >= 2 && blockTime >= 1
      requires var chain := Chain(engine.g, engine.manager.gd, sp);
        && |chain| > lwmaWindow
        && forall i {:trigger chain[i]} :: |chain| - lwmaWindow <= i < |chain| ==>
          && chain[i] in headers && chain[i - 1] in headers && WorkForTarget(headers[chain[i]].target) == work
          && headers[chain[i]].timestamp - headers[chain[i - 1]].timestamp == blockTime
      requires 1 <= work && work * work <= TWO_256
      requires work * (blockTime * (lwmaWindow * (lwmaWindow + 1) / 2)) <= U256_MAX
      ensures var next :=
          TargetAfter(SamplesOf(headers, Last(Chain(engine.g, engine.manager.gd, sp), lwmaWindow + 1)), DaaParams(),
          genesisTarget);
        WorkForTarget(next) == work || WorkForTarget(next) == work - 1
    {
      hide Core, Chain, TargetAfter, SamplesOf, Last;
      ChainHeaders(sp);
      TargetSteady(headers, Chain(engine.g, engine.manager.gd, sp), lwmaWindow, blockTime, genesisTarget, work);
    }

    /** The last blocks of the selected chain of `sp`, a window and one more. */
    method RecentChain(sp: Hash) returns (chain: seq<Hash>)
      requires GdOk(engine.g, engine.manager.gd) && engine.g.genesis == genesis && sp in engine.manager.gd &&
        sp != ORIGIN
      ensures chain == Last(Chain(engine.g, engine.manager.gd, sp), lwmaWindow + 1)
    {
      hide GdOk, Chain, Front, Linear;
      ghost var g, gd := engine.g, engine.manager.gd;
      GraphParts(g, gd);
      var take := lwmaWindow + 1;
      var cur := sp;
      chain := [];
      while true
        invariant cur in gd && cur in g.past && cur != ORIGIN && engine.manager.gd == gd
        invariant |chain| < take && Chain(g, gd, sp) == Chain(g, gd, cur) + chain
        decreases g.past[cur]
      {
        LastIsBlock(g, gd, cur);
        assert Chain(g, gd, sp) == Front(Chain(g, gd, cur)) + ([cur] + chain);
        chain := [cur] + chain;
        if |chain| >= take {
          LastOfBoth(Front(Chain(g, gd, cur)), chain, take);
          break;
        }
        if cur == genesis {
          OneAlone(g, gd, cur);
          break;
        }
        LinearStep(g, gd, cur);
        cur := engine.manager.gd[cur].selectedParent;
      }
    }

    /** The parents of a new block: all tips, or the heaviest and some others if there are too many. */
    method NewParents() returns (parents: seq<Hash>)
      requires Core()
      ensures 0 < |parents| <= MAX_PARENTS && Distinct(parents) &&
        Heaviest(engine.manager.gd, Listed(parents), engine.tip)
      ensures |tips| <= MAX_PARENTS ==> parents == tips
      ensures |tips| > MAX_PARENTS ==> |parents| == MAX_PARENTS
      ensures Unrelated(parents)
    {
      hide Core, GdOk, DagEngine.Valid, TipsOk, Less, Heaviest, Unrelated, Distinct;
      OrderKnown();
      TipsHeaviest();
      var heaviest := engine.tip;
      parents := Capped(tips, heaviest);
      FewerTips(parents);
    }

    /** Known blocks, none in the past of another. */
    ghost predicate Unrelated(ps: seq<Hash>)
      reads this`engine, this`blocks, engine
    {
      forall p, q :: p in ps && q in ps ==> p in blocks && q in engine.g.past && p !in engine.g.past[q]
    }

    lemma {:induction false} TipsHeaviest()
      requires Core()
      ensures Distinct(tips) && engine.tip in tips && |tips| > 0
      ensures forall p :: p in tips ==> p in blocks
      ensures Heaviest(engine.manager.gd, engine.manager.gd.Keys - {ORIGIN}, engine.tip)
      ensures forall p :: p in tips ==> p in engine.manager.gd.Keys - {ORIGIN}
      ensures forall p, q :: p in tips && q in tips ==> q in engine.g.past && p !in engine.g.past[q]
    {
      engine.ValidIndex();
      HeaviestIsTip(engine.g, engine.manager.gd, tips, engine.tip);
      GraphParts(engine.g, engine.manager.gd);
      forall p, q | p in tips && q in tips
        ensures q in engine.g.past && p !in engine.g.past[q]
      {
        TipsUnrelated(engine.g, tips, p, q);
      }
    }

    lemma {:induction false} FewerTips(ps: seq<Hash>)
      requires Core() && engine.tip in ps && forall p :: p in ps ==> p in tips
      ensures Heaviest(engine.manager.gd, Listed(ps), engine.tip) && Unrelated(ps)
    {
      TipsHeaviest();
    }

    /** What a block must fulfil to be stored. */
    ghost predicate Acceptable(header: DagHeader, sp: Hash)
      reads this, engine, engine.manager
    {
      && identify(header) !in blocks && identify(header) <= header.target
      && 0 < |header.parents| <= MAX_PARENTS && Distinct(header.parents) &&
        (forall p :: p in header.parents ==> p in blocks)
      && Heaviest(engine.manager.gd, Listed(header.parents), sp) && sp in headers
      && header.target ==
        TargetAfter(SamplesOf(headers, Last(Chain(engine.g, engine.manager.gd, sp), lwmaWindow + 1)), DaaParams(),
        genesisTarget)
      && header.timestamp >= headers[sp].timestamp - MAX_TIMESTAMP_DRIFT
      && header.interlink == Interlink(headers[sp].interlink, Level(sp, headers[sp]), sp)
    }

    /** What each refusal says of a block with the selected parent `sp`. */
    ghost predicate Breaks(header: DagHeader, sp: Hash, v: Verdict)
      reads this, engine, engine.manager
    {
      match v
      case AlreadyKnown => identify(header) in blocks
      case BadWork => header.target < identify(header)
      case NoParents => header.parents == []
      case TooManyParents => |header.parents| > 16
      case DuplicateParent =>
        exists i, j :: 0 <= i < j < |header.parents| && header.parents[i] == header.parents[j]
      case Orphan => exists p :: p in header.parents && p !in blocks
      case WrongTarget =>
        header.target !=
          TargetAfter(SamplesOf(headers, Last(Chain(engine.g, engine.manager.gd, sp), lwmaWindow + 1)),
            Params(if blockTime < 1 then 1 else blockTime, if lwmaWindow < 2 then 2 else lwmaWindow), genesisTarget)
      case Backdated => sp in headers && header.timestamp < headers[sp].timestamp - 600
      case BadInterlink =>
        sp in headers && header.interlink != Interlink(headers[sp].interlink, Level(sp, headers[sp]), sp)
      case Stored => false
      case Failed => false
    }

    /** The order of the checks. */
    ghost function Turn(v: Verdict): nat {
      match v
      case AlreadyKnown => 0
      case BadWork => 1
      case NoParents => 2
      case TooManyParents => 3
      case DuplicateParent => 4
      case Orphan => 5
      case WrongTarget => 6
      case Backdated => 7
      case BadInterlink => 8
      case Stored => 9
      case Failed => 9
    }

    /** The checks on a block from outside, in order; `Stored` means that it may be stored on top of `sp`,
        every other verdict is the first rule that the block breaks. */
    method Check(header: DagHeader) returns (v: Verdict, sp: Hash)
      requires Core()
      ensures v != Failed && (v == Stored <==> Acceptable(header, sp))
      ensures v != Stored ==> Breaks(header, sp, v) && forall q :: !Acceptable(header, q)
      ensures forall u :: Turn(u) < Turn(v) ==> !Breaks(header, sp, u)
      ensures Turn(v) >= 6 ==> Heaviest(engine.manager.gd, Listed(header.parents), sp) && sp in headers
      ensures v == Stored ==>
        && identify(header) !in blocks && identify(header) <= header.target
        && 1 <= |header.parents| <= 16 && (forall p :: p in header.parents ==> p in blocks)
        && (forall i, j :: 0 <= i < j < |header.parents| ==> header.parents[i] != header.parents[j])
        && sp in header.parents && sp in headers && Heaviest(engine.manager.gd, Listed(header.parents), sp)
        && header.target ==
          TargetAfter(SamplesOf(headers, Last(Chain(engine.g, engine.manager.gd, sp), lwmaWindow + 1)),
            Params(if blockTime < 1 then 1 else blockTime, if lwmaWindow < 2 then 2 else lwmaWindow), genesisTarget)
        && header.timestamp >= headers[sp].timestamp - 600
        && header.interlink == Interlink(headers[sp].interlink, Level(sp, headers[sp]), sp)
    {
      hide Core, TargetAfter, SamplesOf, Chain, Interlink, GdOk, DagEngine.Valid, Level, Heaviest, Last, Linear;
      sp := NONE;
      if identify(header) in blocks {
        return AlreadyKnown, sp;
      }
      if identify(header) > header.target {
        return BadWork, sp;
      }
      if |header.parents| == 0 {
        return NoParents, sp;
      }
      if |header.parents| > MAX_PARENTS {
        return TooManyParents, sp;
      }
      if !AllDistinct(header.parents) {
        return DuplicateParent, sp;
      }
      if exists p :: p in header.parents && p !in blocks {
        return Orphan, sp;
      }
      ParentsOf(header.parents);
      sp := engine.manager.FindSelectedParent(header.parents);
      SelectedKnown(header.parents, sp);
      var expected := SelectedChainTarget(sp);
      var interlink := InterlinkForParent(headers, sp);
      v := CheckAgainst(header, sp, expected, interlink);
    }

    /** The checks that depend on the selected parent. */
    method CheckAgainst(header: DagHeader, sp: Hash, expected: U256, interlink: seq<Hash>) returns (v: Verdict)
      requires sp in headers
      ensures v == if header.target != expected then WrongTarget
        else if header.timestamp < headers[sp].timestamp - MAX_TIMESTAMP_DRIFT then Backdated
        else if header.interlink != interlink then BadInterlink else Stored
    {
      if header.target != expected {
        return WrongTarget;
      }
      if header.timestamp < headers[sp].timestamp - MAX_TIMESTAMP_DRIFT {
        return Backdated;
      }
      if header.interlink != interlink {
        return BadInterlink;
      }
      return Stored;
    }

    /** Validates a block from outside and stores it. Redundant parents are not checked for. */
    method Accept(header: DagHeader, txs: seq<nat>) returns (r: Verdict, ghost sp: Hash)
      requires Core() && StemInv() && Injective(identify) && identify(header) != NONE && identify(header) != ORIGIN
      requires forall p, q :: p in header.parents && q in header.parents && p in blocks && q in blocks ==>
        q in engine.g.past && p !in engine.g.past[q]
      modifies this`blocks, this`tips, this`headers, this`blockTxs, this`full, this`history, this`ever
      modifies engine, engine.manager, engine.manager.reach
      ensures r == Stored || r == Failed <==> exists p :: old(Acceptable(header, p))
      ensures r != Stored && r != Failed ==> old(Breaks(header, sp, r))
      ensures r == Stored || r == Failed ==>
        sp in old(headers) && old(Heaviest(engine.manager.gd, Listed(header.parents), sp))
      ensures forall u :: Turn(u) < Turn(r) ==> old(!Breaks(header, sp, u))
      ensures r != Stored && r != Failed ==>
        unchanged(this) && unchanged(engine) && unchanged(engine.manager) && unchanged(engine.manager.reach)
      ensures r == Failed ==> unchanged(this)
      ensures r == Stored ==> Grown(old(blocks), old(headers), old(full), old(blockTxs), identify(header), header, txs)
      ensures r == Stored ==>
        && blocks == old(blocks) + {identify(header)} && headers == old(headers)[identify(header) := header]
        && blockTxs == if txs == [] then old(blockTxs) else old(blockTxs)[identify(header) := txs]
      ensures r == Stored && old(CacheInv()) ==> CacheInv()
      ensures r == Stored && old(Sound()) ==> Sound()
      ensures forall n: nat :: n > 0 && old(engine.Room(n)) ==> r != Failed && (r == Stored ==> engine.Room(n - 1))
    {
      hide Core, StemInv, CacheInv, Sound, Acceptable, Grown, Heaviest, Injective, Interlink, Ready, DagEngine.Valid,
        DagEngine.Room, Breaks, TargetAfter, SamplesOf, Chain;
      var v, selected := Check(header);
      sp := selected;
      AcceptedFacts(header, sp);
      assert forall u :: Turn(u) < Turn(v) ==> old(!Breaks(header, sp, u));
      assert forall n: nat :: old(engine.Room(n)) ==> engine.Room(n);
      if v != Stored {
        forall q
          ensures !old(Acceptable(header, q))
        {
          assert !Acceptable(header, q);
        }
        return v, sp;
      }
      r := Apply(identify(header), header, txs, selected);
      if r == Stored {
        StoredIs(old(blocks), old(headers), old(full), old(blockTxs), identify(header), header, txs);
      }
    }

    lemma {:induction false} StoredIs(blocks0: set<Hash>, headers0: Headers, full0: Txs, txs0: Txs, id: Hash,
                                      header: DagHeader, txs: seq<nat>)
      requires Grown(blocks0, headers0, full0, txs0, id, header, txs)
      ensures blocks == blocks0 + {id} && headers == headers0[id := header] &&
        blockTxs == if txs == [] then txs0 else txs0[id := txs]
    {
    }

    lemma {:induction false} AcceptedFacts(header: DagHeader, sp: Hash)
      requires Core() && StemInv() && Injective(identify)
      requires forall p, q :: p in header.parents && q in header.parents && p in blocks && q in blocks ==>
        q in engine.g.past && p !in engine.g.past[q]
      ensures Acceptable(header, sp) ==> Ready(identify(header), header, sp)
    {
      if Acceptable(header, sp) {
        assert header.parents != [];
        NeverBack(history, stem, gone, headers, genesis, proof, historyPruned, identify, header);
      }
    }

    /** The block passed its checks and was never pruned. */
    ghost predicate Ready(id: Hash, header: DagHeader, sp: Hash)
      reads this, engine, engine.manager
    {
      && id == identify(header) <= header.target && id !in blocks && id !in gone
      && header.parents != [] && Distinct(header.parents) && (forall p :: p in header.parents ==> p in blocks) &&
        Unrelated(header.parents)
      && Heaviest(engine.manager.gd, Listed(header.parents), sp) && sp in headers &&
        header.interlink == Interlink(headers[sp].interlink, Level(sp, headers[sp]), sp)
    }

    /** The node with one more block. */
    ghost predicate Grown(blocks0: set<Hash>, headers0: Headers, full0: Txs, txs0: Txs, id: Hash, header: DagHeader,
                          txs: seq<nat>)
      reads this, engine, engine.manager, engine.manager.reach
    {
      && Core() && StemInv() && blocks == blocks0 + {id} && headers == headers0[id := header]
      && full == WithBody(full0, id, txs) && blockTxs == WithBody(txs0, id, txs)
    }

    /** Enters a checked block in the engine and in all maps. */
    method Apply(id: Hash, header: DagHeader, txs: seq<nat>, sp: Hash) returns (r: Verdict)
      requires Core() && StemInv() && Ready(id, header, sp) && id != NONE && id != ORIGIN
      modifies this`blocks, this`tips, this`headers, this`blockTxs, this`full, this`history, this`ever
      modifies engine, engine.manager, engine.manager.reach
      ensures r == Stored || r == Failed
      ensures r == Failed ==> unchanged(this)
      ensures r == Stored ==> Grown(old(blocks), old(headers), old(full), old(blockTxs), id, header, txs)
      ensures r == Stored && old(CacheInv()) ==> CacheInv()
      ensures r == Stored && old(Sound()) ==> Sound()
      ensures forall n: nat :: n > 0 && old(engine.Room(n)) ==> r != Failed && (r == Stored ==> engine.Room(n - 1))
    {
      hide Core, StemInv, CacheInv, Sound, Ready, Grown, DagEngine.Valid, DagEngine.Accepts, DagEngine.Room, After,
        CoreFrom;
      ghost var now := Snapshot();
      var parents := Prepare(id, header, txs, sp);
      assert forall n: nat :: old(engine.Room(n)) ==> engine.Room(n);
      var s, d := engine.AddBlock(id, parents);
      if s != Ok {
        return Failed;
      }
      Finish(now, id, header, txs, parents, sp, d);
      return Stored;
    }

    /** The parents for the engine, and all that is known of the node before it changes. */
    method Prepare(id: Hash, header: DagHeader, txs: seq<nat>, sp: Hash) returns (parents: seq<Hash>)
      requires Core() && StemInv() && Ready(id, header, sp) && id != NONE && id != ORIGIN
      ensures engine.Valid() && engine.Accepts(id, parents) && engine.Started() && engine.genesis == genesis &&
        engine.g.genesis == engine.genesis
      ensures CoreFrom(Snapshot(), id, header, parents, sp) && After(Snapshot(), id, header, txs, CacheInv(), Sound())
      ensures Distinct(tips) && id !in tips
    {
      hide Core, StemInv, CacheInv, Sound, DagEngine.Valid, DagEngine.Accepts, After, CoreFrom, Heaviest;
      parents := RemapReady(id, header, sp);
      CoreEngine();
      engine.ValidIndex();
      FitsNow(id, header, parents, sp);
      Later(id, header, txs);
    }

    /** Stores a block that the engine has taken. */
    method Finish(ghost m: Moment<S>, id: Hash, header: DagHeader, txs: seq<nat>, ghost ps: seq<Hash>, ghost sp: Hash,
                  ghost d: GhostdagData)
      requires engine.Valid() && engine.Started() && engine.genesis == genesis && Distinct(tips) && id !in tips
      requires CoreFrom(m, id, header, ps, sp) && engine.g == Extended(m.g, id, ps, Merged(ps, m.g.past)) &&
        engine.manager.gd == m.gd[id := d]
      requires Snapshot() == m.(g := engine.g, gd := engine.manager.gd)
      modifies this`blocks, this`tips, this`headers, this`blockTxs, this`full, this`history, this`ever
      ensures Core()
      ensures forall cached, sound :: After(m, id, header, txs, cached, sound) ==>
        Grown(m.blocks, m.book.headers, m.book.full, m.txs, id, header, txs) && (cached ==> CacheInv()) &&
          (sound ==> Sound())
    {
      hide Core, StemInv, CacheInv, Sound, Grown, DagEngine.Valid, After, CoreFrom, Distinct;
      StoreBlock(id, header, txs);
      Added(m, id, header, txs, ps, sp, d);
    }

    /** The parts of the node that storing a block changes or must fit. */
    ghost function Snapshot(): (m: Moment<S>)
      reads this, engine, engine.manager
    {
      Moment(engine.g, engine.manager.gd, Book(), tips, blocks, blockTxs, historyPruned, base.Some?,
        Cache(state, executed, checkpoint), stateTip, frozen, frozenTip,
             history, stem, gone, proof, ever, dropped)
    }

    lemma {:induction false} FitsNow(id: Hash, header: DagHeader, parents: seq<Hash>, sp: Hash)
      requires Core() && id == identify(header) <= header.target && id !in blocks && id != ORIGIN
      requires Listed(parents) == Listed(header.parents) && forall p :: p in parents ==>
        p in engine.g.past && p in engine.g.parents
      requires forall p, q :: p in parents && q in parents ==> q in engine.g.past && p !in engine.g.past[q]
      requires Heaviest(engine.manager.gd, Listed(parents), sp) && sp in headers &&
        header.interlink == Interlink(headers[sp].interlink, Level(sp, headers[sp]), sp)
      ensures CoreFrom(Snapshot(), id, header, parents, sp)
    {
      CoreParts();
      GraphParts(engine.g, engine.manager.gd);
    }

    /** What the other parts will be once the block is stored. */
    lemma {:induction false} Later(id: Hash, header: DagHeader, txs: seq<nat>)
      requires Core() && StemInv() && id !in blocks && id !in gone
      ensures After(Snapshot(), id, header, txs, CacheInv(), Sound())
    {
      KnownHere(id);
      StemMore(history, stem, gone, headers, genesis, proof, historyPruned, identify, id, header);
      hide Core, StemOk, Run, StateAfter, Linear;
      if CacheInv() {
        CacheGrows(Book(), blockTxs, historyPruned, base.Some?, Cache(state, executed, checkpoint), frozen, id, header,
          txs);
      }
      if Sound() {
        StoryMore(Book(), initial, history, ever, stem[0], dropped, gone, id, header, txs);
      }
    }

    lemma {:induction false} KnownHere(id: Hash)
      requires Core() && id !in blocks
      ensures id !in headers && genesis in headers
    {
      CoreParts();
      GraphParts(engine.g, engine.manager.gd);
    }

    /** What the engine and the tips were like before `id` was added. */
    ghost predicate CoreFrom(m: Moment<S>, id: Hash, header: DagHeader, ps: seq<Hash>, sp: Hash) {
      && GdOk(m.g, m.gd) && HeadersOk(m.book.headers, m.g, m.gd, identify) && TipsOk(m.g, m.tips) && Lean(m.g) &&
        m.blocks == Suffix(m.g)
      && m.book.genesis == m.g.genesis && id !in m.g.parents && id !in m.g.past && id != ORIGIN
      && id == identify(header) <= header.target && Listed(ps) == Listed(header.parents) &&
        (forall p :: p in ps ==> p in m.g.past && p in m.g.parents)
      && (forall p, q :: p in ps && q in ps ==> q in m.g.past && p !in m.g.past[q])
      && Heaviest(m.gd, Listed(ps), sp) && sp in m.book.headers
      && header.interlink == Interlink(m.book.headers[sp].interlink, Level(sp, m.book.headers[sp]), sp)
    }

    /** What holds of the other parts once `id` is stored. */
    ghost predicate After(m: Moment<S>, id: Hash, header: DagHeader, txs: seq<nat>, cached: bool, sound: bool) {
      var headers', history' := m.book.headers[id := header], m.history[id := header];
      var book' := m.book.(headers := headers', full := WithBody(m.book.full, id, txs));
      && StemOk(history', m.stem, m.gone, headers', m.book.genesis, m.proof, m.pruned, identify)
      && (cached ==> CacheOk(book', WithBody(m.txs, id, txs), m.pruned, m.based, m.cache, m.frozen))
      && (sound ==> cached && PlacesOk(m.g, m.gd, m.cache.executed, m.stateTip, m.frozen, m.frozenTip) && |m.stem| > 0)
      && (sound ==> Replayed(book', initial, history', m.ever[id := txs], m.stem[0], m.dropped, m.gone))
    }

    /** The node after `id` was added fits together again. */
    lemma {:induction false} Added(m: Moment<S>, id: Hash, header: DagHeader, txs: seq<nat>, ps: seq<Hash>, sp: Hash,
                                   d: GhostdagData)
      requires engine.Valid() && engine.Started() && engine.genesis == genesis
      requires CoreFrom(m, id, header, ps, sp) && engine.g == Extended(m.g, id, ps, Merged(ps, m.g.past)) &&
        engine.manager.gd == m.gd[id := d]
      requires Distinct(tips) && forall b :: b in tips <==> b == id || (b in m.tips && b !in header.parents)
      requires Snapshot() ==
        m.(g := engine.g, gd := engine.manager.gd, tips := tips, blocks := m.blocks + {id}, txs :=
        WithBody(m.txs, id, txs),
        book := m.book.(headers := m.book.headers[id := header], full := WithBody(m.book.full, id, txs)),
        history := m.history[id := header], ever := m.ever[id := txs])
      ensures Core()
      ensures forall cached, sound :: After(m, id, header, txs, cached, sound) ==>
        Grown(m.blocks, m.book.headers, m.book.full, m.txs, id, header, txs) && (cached ==> CacheInv()) &&
          (sound ==> Sound())
    {
      CoreAgain(m.g, m.gd, id, ps, header, sp, d, m.book.headers, m.tips);
      CoreParts();
      forall cached, sound | After(m, id, header, txs, cached, sound)
        ensures Grown(m.blocks, m.book.headers, m.book.full, m.txs, id, header, txs) && (cached ==> CacheInv()) &&
          (sound ==> Sound())
      {
        if sound {
          PlacesMore(m.g, m.gd, id, ps, d, m.cache.executed, m.stateTip, m.frozen, m.frozenTip);
        }
      }
    }

    lemma {:induction false} CoreParts()
      requires Core()
      ensures engine.Valid() && engine.Started() && engine.genesis == genesis == engine.g.genesis &&
        GdOk(engine.g, engine.manager.gd)
      ensures blocks == Suffix(engine.g) && HeadersOk(headers, engine.g, engine.manager.gd, identify) &&
        TipsOk(engine.g, tips) && Lean(engine.g)
    {
      engine.ValidIndex();
    }

    method StoreBlock(id: Hash, header: DagHeader, txs: seq<nat>)
      requires Distinct(tips) && id !in tips
      modifies this`blocks, this`tips, this`headers, this`blockTxs, this`full, this`history, this`ever
      ensures blockTxs == WithBody(old(blockTxs), id, txs) && full == WithBody(old(full), id, txs) &&
        headers == old(headers)[id := header] && history == old(history)[id := header]
      ensures ever == old(ever)[id := txs]
      ensures blocks == old(blocks) + {id} && Distinct(tips) && forall b :: b in tips <==>
        b == id || (b in old(tips) && b !in header.parents)
    {
      hide Distinct;
      var newTips := TipsWithout(tips, header.parents, id);
      headers, history, ever := headers[id := header], history[id := header], ever[id := txs];
      if txs != [] {
        blockTxs, full := blockTxs[id := txs], full[id := txs];
      }
      blocks, tips := blocks + {id}, newTips;
    }

    lemma {:induction false} CoreAgain(g: Graph, gd: Ghosts, id: Hash, ps: seq<Hash>, header: DagHeader, sp: Hash,
                                       d: GhostdagData, headers0: Headers, tips0: seq<Hash>)
      requires engine.Valid() && engine.Started() && engine.genesis == genesis == g.genesis && GdOk(g, gd)
      requires engine.g == Extended(g, id, ps, Merged(ps, g.past)) && engine.manager.gd == gd[id := d]
      requires HeadersOk(headers0, g, gd, identify) && TipsOk(g, tips0) && Lean(g) && id !in g.parents && id != ORIGIN
      requires id == identify(header) <= header.target && Listed(ps) == Listed(header.parents) &&
        (forall p :: p in ps ==> p in g.past && p in g.parents)
      requires forall p, q :: p in ps && q in ps ==> q in g.past && p !in g.past[q]
      requires Heaviest(gd, Listed(ps), sp) && sp in headers0 &&
        header.interlink == Interlink(headers0[sp].interlink, Level(sp, headers0[sp]), sp)
      requires headers == headers0[id := header] && blocks == Suffix(g) + {id}
      requires Distinct(tips) && forall b :: b in tips <==> b == id || (b in tips0 && b !in header.parents)
      ensures Core()
    {
      hide HeadersOk, TipsOk, Lean, GdOk, DagEngine.Valid, DataFor, Heaviest, Interlink;
      GraphParts(g, gd);
      engine.ValidIndex();
      SelectedIs(g, gd, id, ps, d, sp);
      HeadersGrow(headers0, g, gd, identify, id, header, ps, Merged(ps, g.past), d);
      LeanGrows(g, id, ps);
      ParentsClosed(g);
      assert forall b :: b in header.parents <==> b in ps by {
        forall b
          ensures b in header.parents <==> b in ps
        {
          assert b in Listed(ps) <==> b in Listed(header.parents);
        }
      }
      TipsAfter(g, tips0, id, ps, Merged(ps, g.past), tips);
    }

    /** The parents for the engine, and why it accepts them. */
    method RemapReady(id: Hash, header: DagHeader, sp: Hash) returns (parents: seq<Hash>)
      requires Core() && Ready(id, header, sp) && id != NONE && id != ORIGIN
      ensures engine.Valid() && engine.Accepts(id, parents)
      ensures id == identify(header) <= header.target && Listed(parents) == Listed(header.parents) &&
        id !in engine.g.parents && id !in tips && Distinct(tips)
      ensures forall p :: p in parents ==> p in engine.g.past && p in engine.g.parents
      ensures forall p, q :: p in parents && q in parents ==> q in engine.g.past && p !in engine.g.past[q]
      ensures Heaviest(engine.manager.gd, Listed(parents), sp) && sp in headers &&
        header.interlink == Interlink(headers[sp].interlink, Level(sp, headers[sp]), sp)
      ensures id !in blocks && id !in gone
    {
      parents := Remap(header.parents, blocks, genesis);
      ApplyReady(id, parents, header.parents);
      engine.ValidIndex();
    }

    lemma {:induction false} ApplyReady(id: Hash, parents: seq<Hash>, listed: seq<Hash>)
      requires Core() && id !in blocks && id != ORIGIN && id != NONE && listed != [] && Unrelated(listed) &&
        Listed(parents) == Listed(listed) && (forall p :: p in listed ==> p in blocks)
      ensures engine.Valid() && engine.Accepts(id, parents) && Unrelated(parents)
    {
      engine.ValidIndex();
      assert listed[0] in Listed(parents);
      forall p | p in parents
        ensures p in listed && p in blocks && p in engine.g.past && p != ORIGIN
      {
        assert p in Listed(listed);
      }
      forall q, p | Heaviest(engine.manager.gd, Listed(parents), q) && p in parents && p != q
        ensures !Below(engine.g.past, p, q)
      {
        assert q in Listed(parents);
      }
    }

    lemma {:induction false} ParentsOf(ps: seq<Hash>)
      requires Core() && forall p :: p in ps ==> p in blocks
      ensures forall p :: p in ps ==> p in engine.manager.gd && p in engine.g.past && p in headers && p != ORIGIN
    {
      engine.ValidIndex();
    }

    lemma {:induction false} SelectedKnown(ps: seq<Hash>, sp: Hash)
      requires Core() && Heaviest(engine.manager.gd, Listed(ps), sp) && forall p :: p in ps ==> p in blocks
      ensures sp in ps && sp in headers && sp in engine.manager.gd && sp != ORIGIN
      ensures forall other :: Heaviest(engine.manager.gd, Listed(ps), other) ==> other == sp
    {
      ParentsOf(ps);
      forall other | Heaviest(engine.manager.gd, Listed(ps), other)
        ensures other == sp
      {
        SameTip(engine.manager.gd, Listed(ps), sp, other);
      }
    }

    /** A block on top of the current tips; the nonce is the miner's search. If its hash meets the
        target, the node itself would accept it. */
    method BuildBlock(timestamp: int, miner: Hash, nonce: nat) returns (header: DagHeader)
      requires Core()
      ensures header.timestamp == timestamp && header.miner == miner && header.nonce == nonce
      ensures identify(header) !in blocks && identify(header) <= header.target && engine.tip in headers &&
        timestamp >= headers[engine.tip].timestamp - MAX_TIMESTAMP_DRIFT
        ==> Acceptable(header, engine.tip)
      ensures Unrelated(header.parents) && (|tips| <= MAX_PARENTS ==> header.parents == tips)
    {
      hide Core, TargetAfter, SamplesOf, Chain, Interlink, GdOk, Heaviest;
      OrderKnown();
      var parents := NewParents();
      var target := SelectedChainTarget(engine.tip);
      var interlink := InterlinkForParent(headers, engine.tip);
      header := DagHeader(parents, timestamp, target, interlink, nonce, miner);
    }

    /** Drops the transactions of the checkpointed blocks; `None` is the panic of a checkpoint longer
        than what was last executed. The state is still found from the checkpoint; a full replay, which
        is possible on a base that a prune has moved, goes wrong if it would run one of them. */
    method PruneFinalizedTransactions() returns (r: Option<nat>)
      modifies this`blockTxs, this`historyPruned, this`state, this`executed
      ensures r.None? <==> checkpoint.Some? && |old(executed)| < checkpoint.value.len
      ensures r.None? || checkpoint.None? ==> unchanged(this)
      ensures r.Some? ==> r.value == |old(blockTxs).Keys| - |blockTxs.Keys|
      ensures r.Some? && checkpoint.Some? ==> blockTxs == old(blockTxs) - Listed(old(executed)[..checkpoint.value.len])
      ensures old(CacheInv()) && r.Some? ==> CacheInv()
      ensures old(Sound()) && r.Some? ==> Sound()
      ensures old(CacheInv()) && old(BodiesAtHand()) && r.Some? ==>
        (BodiesAtHand() <==> NoneMissed(old(blockTxs)))
    {
      hide CacheInv, Core, BodiesAtHand, NoneMissed, Listed, StemInv, PlaceInv, StoryInv, Sound, Spared, AtHand,
        Linear, Book, Order, StateAfter, CacheOk, DagEngine.Valid,
        DagEngine.Started, GdOk, Heaviest, Less;
      ghost var rest := if checkpoint.Some? && |executed| >= checkpoint.value.len then
        blockTxs - Listed(executed[..checkpoint.value.len]) else blockTxs;
      if CacheInv() {
        DroppedNeeded(rest);
      }
      ghost var before, atHand, sound := blockTxs, BodiesAtHand(), Sound();
      if sound {
        SoundCache();
      }
      if checkpoint.Some? {
        var len := checkpoint.value.len;
        if |executed| < len {
          return None;
        }
        var pruned := DropFinalized(len);
        r := Some(pruned);
      } else {
        r := Some(0);
      }
      if atHand && old(CacheInv()) {
        NeededNow(before);
      }
      if sound {
        StillSound();
      }
    }

    lemma {:induction false} SoundCache()
      requires Sound()
      ensures CacheInv()
    {
    }

    /** Dropping bodies and the cached state disturbs nothing else. */
    twostate lemma {:induction false} StillSound()
      requires old(Sound()) && CacheInv()
      requires unchanged(this`engine, this`genesis, this`blocks, this`headers, this`tips, this`full, this`base,
        this`history, this`stem, this`gone)
      requires unchanged(this`ever, this`dropped, this`proof, this`frozen, this`stateTip, this`frozenTip, engine,
        engine.manager, engine.manager.reach)
      requires (executed == [] && historyPruned) || (executed == old(executed) && historyPruned == old(historyPruned))
      ensures Sound()
    {
      hide CacheInv, Linear, Chained, Solved, ProofOf, Barred, Replayed, DagEngine.Valid;
    }

    /** No block whose body was dropped since would be run by a full replay. */
    ghost predicate NoneMissed(before: Txs)
      reads this`engine, this`genesis, this`blockTxs, engine, engine.manager
    {
      Spared(before, blockTxs, genesis, Order())
    }

    lemma {:induction false} NeededNow(before: Txs)
      requires AtHand(full, blockTxs, genesis, Order()) <==> Spared(before, blockTxs, genesis, Order())
      ensures BodiesAtHand() <==> NoneMissed(before)
    {
    }

    /** Drops the bodies of the first `len` executed blocks. */
    method DropFinalized(len: nat) returns (pruned: nat)
      requires checkpoint.Some? && len == checkpoint.value.len <= |executed|
      modifies this`blockTxs, this`historyPruned, this`state, this`executed
      ensures pruned == |old(blockTxs).Keys| - |blockTxs.Keys| &&
        blockTxs == old(blockTxs) - Listed(old(executed)[..len])
      ensures old(CacheInv()) ==> CacheInv()
      ensures (executed == [] && historyPruned) || (executed == old(executed) && historyPruned == old(historyPruned))
    {
      hide CacheOk, CacheInv, Book, StateAfter, Listed;
      ghost var fine, l, based := CacheInv(), Book(), base.Some?;
      var txs;
      txs, pruned := DropBodies(blockTxs, executed[..len]);
      ghost var lost, c := historyPruned || pruned > 0, if pruned > 0 then Cache(None, [], checkpoint)
        else Cache(state, executed, checkpoint);
      if fine {
        Dropped(txs, pruned);
      }
      assert fine ==> CacheOk(l, txs, lost, based, c, frozen);
      KeepBodies(txs, pruned > 0);
      if fine {
        Left(l, c, lost);
      }
    }

    /** Keeps only the given bodies; if any was dropped, the cached state is no longer trusted. */
    method KeepBodies(txs: Txs, dropped: bool)
      modifies this`blockTxs, this`historyPruned, this`state, this`executed
      ensures blockTxs == txs
      ensures if dropped then historyPruned && state.None? && executed == []
        else historyPruned == old(historyPruned) && state == old(state) && executed == old(executed)
    {
      blockTxs := txs;
      if dropped {
        historyPruned := true;
        state := None;
        executed := [];
      }
    }

    /** The place of the pruning point: it leaves as many blocks as a window and the finality depth. */
    ghost function CutPlace(): (i: nat)
      reads this`engine, this`finalityDepth, engine, engine.manager
      ensures i < |Order()| || i == 0
    {
      CutOf(Order(), Chain(engine.g, engine.manager.gd, engine.tip), Retain())
    }

    function Retain(): nat
      reads this`finalityDepth
    {
      lwmaWindow + if finalityDepth < 1 then 1 else finalityDepth
    }

    /** A cut leaves a window and the finality depth, at least one, behind it, and no later block of the
        selected chain does. Nothing is cut if no such block past the origin leaves that many, or if the
        order is at most one block longer. */
    lemma {:induction false} CutRetains()
      ensures var i, order, chain := CutPlace(), Order(), Chain(engine.g, engine.manager.gd, engine.tip);
        var retain := lwmaWindow + if finalityDepth < 1 then 1 else finalityDepth;
        && (i > 0 ==> i < |order| && |order| - i >= retain && order[i] in chain)
        && (|order| > retain + 1 ==>
          forall j {:trigger order[j]} :: i < j < |order| && order[j] in chain ==> |order| - j < retain)
        && (i == 0 <==>
          || |order| <= retain + 1
          || forall j {:trigger order[j]} :: 0 < j < |order| && order[j] in chain ==> |order| - j < retain)
    {
      hide Linear, Chain, CutOf;
      CutLeaves(Order(), Chain(engine.g, engine.manager.gd, engine.tip),
        lwmaWindow + if finalityDepth < 1 then 1 else finalityDepth);
    }

    method FindCut(order: seq<Hash>) returns (i: nat)
      requires Core() && order == Order()
      ensures i == CutPlace() && (i > 0 ==> i < |order|)
      ensures var retain := lwmaWindow + if finalityDepth < 1 then 1 else finalityDepth;
        var chain := Chain(engine.g, engine.manager.gd, engine.tip);
        && (i > 0 ==> |order| - i >= retain && order[i] in chain)
        && (|order| > retain + 1 ==>
          forall j {:trigger order[j]} :: i < j < |order| && order[j] in chain ==> |order| - j < retain)
        && (i == 0 <==>
          || |order| <= retain + 1
          || forall j {:trigger order[j]} :: 0 < j < |order| && order[j] in chain ==> |order| - j < retain)
    {
      hide Core, Linear, Chain, DagEngine.Valid, Deepest;
      CutRetains();
      CoreEngine();
      var n, retain := |order|, Retain();
      if n <= retain + 1 {
        return 0;
      }
      var chain := engine.SelectedChain();
      var onChain := set b | b in chain;
      assert onChain == Listed(chain);
      i := if n - retain < n - 1 then n - retain else n - 1;
      i := DeepestOn(order, onChain, i);
    }

    /** The state after the first `n` blocks of the order; fails if a checkpoint lies beyond them and
        earlier bodies were dropped. */
    method NewBase(order: seq<Hash>, n: nat) returns (r: Option<S>)
      requires CacheInv() && frozen <= order && Distinct(order) && n <= |order| && forall b :: b in order ==>
        b in headers
      requires base.Some? ==> AtHand(full, blockTxs, genesis, order)
      ensures r.Some? ==>
        r.value == StateAfter(Book(), order[..n]) && forall b :: b in order[n..] && b in full && b != genesis ==>
        b in blockTxs
      ensures r.None? <==> historyPruned && base.None? && checkpoint.Some? && checkpoint.value.len > n
    {
      BaseRuns(Book(), blockTxs, historyPruned, base.Some?, Cache(state, executed, checkpoint), frozen, order, n);
      hide CacheInv, CacheOk, Run, Distinct, StateAfter, AtHand;
      var ok, s;
      if historyPruned && base.None? {
        var cp := checkpoint.value;
        if cp.len > n {
          return None;
        }
        ok, s := ReplayBlocks(step, reward, headers, blockTxs, genesis, cp.accounts, order[cp.len..n]);
      } else {
        ok, s := ReplayBlocks(step, reward, headers, blockTxs, genesis, BaseState(), order[..n]);
      }
      return Some(s);
    }

    lemma {:induction false} KnownBlock(b: Hash)
      requires engine.Valid() && b in engine.g.past
      ensures b != NONE
    {
    }

    lemma {:induction false} KnownGenesis(p: Hash)
      requires engine.Valid() && p in engine.manager.gd
      ensures p != NONE
    {
      engine.ValidIndex();
    }

    /** The parents under which a kept block is added again: all of them were kept. */
    method KeptParents(order: seq<Hash>, i: nat, j: nat) returns (parents: seq<Hash>)
      requires Core() && order == Order() && 0 < i < j < |order| &&
        order[i] in Chain(engine.g, engine.manager.gd, engine.tip)
      requires CleanAbove(engine.g, engine.tip, order[i])
      ensures order[j] in engine.g.parents && Listed(parents) == Listed(engine.g.parents[order[j]])
    {
      hide Core, DagEngine.Valid, GdOk, Linear, Chain, Lean, CleanAbove, HeadersOk, TipsOk, Antichain;
      OrderKnown();
      CoreParts();
      ghost var g, gd, tip := engine.g, engine.manager.gd, engine.tip;
      PrunePlace(g, gd, tip, i);
      ParentsPresent(g, gd, tip, order[i], order, i + 1, j);
      HeaderParents(headers, g, gd, identify, order[j]);
      var kept := set b | b in order[i..];
      var listed := headers[order[j]].parents;
      assert forall q :: q in listed ==> q in kept by {
        forall q | q in listed
          ensures q in kept
        {
          assert q in Listed(listed) && q in Listed(order[i..j]);
          assert order[i..] == order[i..j] + order[j..];
        }
      }
      parents := Remap(listed, kept, order[i]);
      ListedNone(parents);
      assert g.parents[order[j]][0] in Listed(g.parents[order[j]]);
      parents := OrAnchor(parents, order[i]);
    }

    /** Adds the block at place `j` to the engine under construction. */
    method AddKept(e: DagEngine, order: seq<Hash>, i: nat, j: nat) returns (ok: bool)
      requires Core() && order == Order() && 0 < i < j < |order| &&
        order[i] in Chain(engine.g, engine.manager.gd, engine.tip)
      requires CleanAbove(engine.g, engine.tip, order[i]) &&
        {engine, engine.manager, engine.manager.reach} !! {e, e.manager, e.manager.reach}
      requires e.Valid() && e.Started() && e.genesis == order[i] &&
        Rebuilding(engine.g, engine.manager.gd, e.g, e.manager.gd, order[i], order, i, j)
      modifies e, e.manager, e.manager.reach
      ensures ok ==>
        e.Valid() && e.Started() &&
        Rebuilding(engine.g, engine.manager.gd, e.g, e.manager.gd, order[i], order, i, j + 1)
      ensures forall n: nat :: n > 0 && old(e.Room(n)) ==> ok && e.Room(n - 1)
    {
      hide Core, DagEngine.Room, DagEngine.Valid, GdOk, Linear, Chain, Lean, CleanAbove, Rebuilding, Tidy, HeadersOk,
        TipsOk, DagEngine.Accepts;
      OrderKnown();
      CoreParts();
      ghost var g, gd, g', gd' := engine.g, engine.manager.gd, e.g, e.manager.gd;
      var parents := KeptParents(order, i, j);
      NextAccepted(g, gd, g', gd', engine.tip, order[i], order, i, j, parents);
      KnownBlock(order[j]);
      EngineAccepts(e, order[j], parents);
      assert forall n: nat :: old(e.Room(n)) ==> e.Room(n);
      var r, d := e.AddBlock(order[j], parents);
      ok := r == Ok;
      if ok {
        e.ValidIndex();
        e.StaysStarted(g', order[j], parents);
        NextRebuilt(g, gd, g', gd', order[i], order, i, j, parents, d);
      }
    }

    /** A new engine with the block at place `i` as its genesis. */
    method StartEngine(order: seq<Hash>, i: nat) returns (ok: bool, e: DagEngine)
      requires Core() && order == Order() && 0 < i < |order| &&
        order[i] in Chain(engine.g, engine.manager.gd, engine.tip)
      ensures fresh(e) && fresh(e.manager) && fresh(e.manager.reach)
      ensures ok ==>
        e.Valid() && e.Started() && e.genesis == order[i] &&
        Rebuilding(engine.g, engine.manager.gd, e.g, e.manager.gd, order[i], order, i, i + 1)
      ensures ok && e.Room(CAPACITY - 1)
    {
      hide Core, DagEngine.Valid, DagEngine.Room, GdOk, Linear, Chain, Rebuilding, HeadersOk, TipsOk, Lean;
      OrderKnown();
      CoreParts();
      ghost var g, gd, tip := engine.g, engine.manager.gd, engine.tip;
      var p := order[i];
      PrunePlace(g, gd, tip, i);
      KnownGenesis(p);
      e := new DagEngine(engine.manager.k, p);
      FirstAccepted(e);
      var r, _ := e.AddBlock(p, [ORIGIN]);
      ok := r == Ok;
      if ok {
        FirstRebuilt(e, g, gd, order, i);
      }
    }

    /** A new engine that starts at `p`, the block at place `i`, with everything after it added again.
        It fails only if the labels do not suffice. */
    method Rebuild(order: seq<Hash>, i: nat) returns (ok: bool, e: DagEngine)
      requires Core() && order == Order() && 0 < i < |order| &&
        order[i] in Chain(engine.g, engine.manager.gd, engine.tip)
      requires CleanAbove(engine.g, engine.tip, order[i])
      ensures fresh(e) && fresh(e.manager) && fresh(e.manager.reach)
      ensures ok ==> Rebuilt(e, i)
      ensures |order| - i <= CAPACITY ==> ok && e.Room(CAPACITY - (|order| - i))
    {
      hide Core, DagEngine.Valid, DagEngine.Room, GdOk, Linear, Chain, Lean, CleanAbove, Rebuilding, Tidy, HeadersOk,
        TipsOk;
      ghost var g, gd := engine.g, engine.manager.gd;
      var p := order[i];
      ok, e := StartEngine(order, i);
      if !ok {
        return;
      }
      for j := i + 1 to |order|
        invariant fresh(e) && fresh(e.manager) && fresh(e.manager.reach)
        invariant e.Valid() && e.Started() && e.genesis == p && g == engine.g && gd == engine.manager.gd
        invariant Rebuilding(g, gd, e.g, e.manager.gd, p, order, i, j)
        invariant |order| - i <= CAPACITY ==> e.Room(CAPACITY - (j - i))
      {
        var added := AddKept(e, order, i, j);
        if !added {
          return false, e;
        }
      }
      e.ValidIndex();
      return true, e;
    }

    /** The target that a block on the current tip must use. */
    ghost function TipTarget(): U256
      reads this`engine, this`headers, engine, engine.manager
    {
      TargetAfter(SamplesOf(headers, Last(Chain(engine.g, engine.manager.gd, engine.tip), lwmaWindow + 1)),
        DaaParams(), genesisTarget)
    }

    /** The proof of a chain block is short enough for the walk that builds it. */
    ghost predicate ShortProof(p: Hash)
      reads this`engine, this`history, this`stem, engine, engine.manager
    {
      var whole := WholeChain(stem, engine.g, engine.manager.gd, p);
      |whole| > 0 && |Places(history, whole, |whole| - 1)| <= GUARD + 1
    }

    /** Makes a finalized chain block the new origin and drops everything before it. The tip, the order
        from that block on and the state stay as they are, and so does the next target if the chain from
        that block to the tip still fills the window. `None` is an error: a checkpoint beyond the cut
        without the earlier bodies, or more blocks than there are labels for. */
    method Prune() returns (r: Option<nat>)
      requires Core() && StemInv() && Continues() && (base.Some? ==> BodiesAtHand()) && CutFits()
      modifies this
      ensures r.None? || old(CutPlace()) == 0 ==> unchanged(this)
      ensures old(CutPlace()) == 0 ==> r == Some(0)
      ensures old(CutPlace()) > 0 && old(Fits()) ==> (r.None? <==> old(BaseLost()))
      ensures r.Some? && old(CutPlace()) > 0 ==>
        old(CutPlace()) < |old(Order())| && Pruned(old(Order()), old(CutPlace()), old(engine.tip), old(TrueState()))
      ensures r.Some? && old(CutPlace()) > 0 && old(Fits()) ==>
        |Order()| <= CAPACITY && engine.Room(CAPACITY - |Order()|)
      ensures r.Some? ==> r.value == |old(blocks)| - |blocks|
      ensures r.Some? && old(CutPlace()) > 0 ==>
        |Order()| >= lwmaWindow + if finalityDepth < 1 then 1 else finalityDepth
      ensures r.Some? && old(CutPlace()) > 0 && old(ChainLeft()) >= lwmaWindow + 1 ==> TipTarget() == old(TipTarget())
      ensures r.Some? && old(Sound()) ==> Sound()
      ensures blocks <= old(blocks)
      ensures engine == old(engine) || (fresh(engine) && fresh(engine.manager) && fresh(engine.manager.reach))
    {
      hide Core, CacheInv, StemInv, Sound, Linear, Chain, DagEngine.Valid, DagEngine.Room, CleanAbove, Rebuilding,
        Rebuilt, Pruned, TargetAfter, SamplesOf, Last, StateAfter,
        ShortProof, GdOk, HeadersOk, TipsOk, Lean, StemOk, CacheOk, Heaviest, Restricted, WholeChain, Chained, ProofOf,
          AtHand, ChainLeft, CutOf, CutFits, Fits, BaseLost;
      OrderKnown();
      CoreEngine();
      var order := engine.TotalOrder();
      var i := FindCut(order);
      if i == 0 {
        return Some(0);
      }
      CutFound(i);
      var ok, e, newBase, newProof := Plan(order, i);
      if !ok {
        return None;
      }
      LeftIs(i);
      var count := Reanchor(e, order, i, newBase, newProof);
      OrderNow(order, i);
      return Some(count);
    }

    /** All that a prune needs, before anything is changed: proof, base and engine. */
    method Plan(order: seq<Hash>, i: nat) returns (ok: bool, e: DagEngine, newBase: S, newProof: seq<DagHeader>)
      requires Core() && StemInv() && CacheInv() && frozen <= order &&
        (base.Some? ==> AtHand(full, blockTxs, genesis, order))
      requires order == Order() && 0 < i < |order| && order[i] in Chain(engine.g, engine.manager.gd, engine.tip)
      requires CleanAbove(engine.g, engine.tip, order[i]) && ShortProof(order[i])
      ensures fresh(e) && fresh(e.manager) && fresh(e.manager.reach)
      ensures ok ==> Rebuilt(e, i) && newBase == StateAfter(Book(), order[..i + 1])
      ensures ok ==> forall b :: b in order[i + 1..] && b in full ==> b in blockTxs
      ensures ok ==> var whole := WholeChain(stem, engine.g, engine.manager.gd, order[i]);
        |whole| > 0 && Chained(history, whole) && newProof == ProofOf(history, whole, |whole| - 1)
      ensures |order| - i <= CAPACITY ==>
        (!ok <==> historyPruned && base.None? && checkpoint.Some? && checkpoint.value.len > i + 1)
      ensures ok && |order| - i <= CAPACITY ==> e.Room(CAPACITY - (|order| - i))
    {
      hide Core, CacheInv, StemInv, Linear, Chain, DagEngine.Valid, DagEngine.Room, CleanAbove, Rebuilding, Rebuilt,
        StateAfter, ShortProof, GdOk, WholeChain, Chained,
        ProofOf, AtHand;
      OrderKnown();
      PrunePlace(engine.g, engine.manager.gd, engine.tip, i);
      newProof := ProofAt(order[i]);
      var made := NewBase(order, i + 1);
      ok, e := Rebuild(order, i);
      newBase := BaseState();
      if made.None? {
        ok := false;
      } else {
        newBase := made.value;
        KeptBodies(order, i);
      }
    }

    lemma {:induction false} LeftIs(i: nat)
      requires i == CutPlace() < |Order()|
      ensures ChainLeft() ==
        |Chain(engine.g, engine.manager.gd, engine.tip)| - |Chain(engine.g, engine.manager.gd, Order()[i])| + 1
    {
    }

    lemma {:induction false} OrderNow(order0: seq<Hash>, i: nat)
      requires i < |order0| && Order() == order0[i..]
      ensures |Order()| == |order0| - i
    {
    }

    /** Every kept block descends from the block at the cut, whose proof is short enough to be built. */
    ghost predicate CutFits()
      reads this`engine, this`finalityDepth, this`history, this`stem, engine, engine.manager
    {
      0 < CutPlace() < |Order()| ==>
        CleanAbove(engine.g, engine.tip, Order()[CutPlace()]) && ShortProof(Order()[CutPlace()])
    }

    /** A new engine has labels for all kept blocks. */
    ghost predicate Fits()
      reads this`engine, this`finalityDepth, engine, engine.manager
    {
      |Order()| - CutPlace() <= CAPACITY
    }

    lemma {:induction false} CutFound(i: nat)
      requires i == CutPlace() && 0 < i < |Order()| && CutFits()
      ensures CleanAbove(engine.g, engine.tip, Order()[i]) && ShortProof(Order()[i])
      ensures Fits() <==> |Order()| - i <= CAPACITY
      ensures BaseLost() <==> historyPruned && base.None? && checkpoint.Some? && checkpoint.value.len > i + 1
    {
    }

    lemma {:induction false} KeptBodies(order: seq<Hash>, i: nat)
      requires Core() && order == Order() && i < |order|
      requires forall b :: b in order[i + 1..] && b in full && b != genesis ==> b in blockTxs
      ensures forall b :: b in order[i + 1..] && b in full ==> b in blockTxs
    {
      OrderKnown();
      GenesisFirst(engine.g, engine.manager.gd, engine.tip);
      var later := order[i + 1..];
      forall b | b in later
        ensures b != genesis
      {
        LaterBlock(order, i, b);
      }
    }

    /** The bodies below a checkpoint beyond the cut are gone, and there is no base to replay from. */
    ghost predicate BaseLost()
      reads this`engine, this`finalityDepth, this`historyPruned, this`base, this`checkpoint, engine, engine.manager
    {
      historyPruned && base.None? && checkpoint.Some? && checkpoint.value.len > CutPlace() + 1
    }

    /** How long the selected chain is from the cut on. */
    ghost function ChainLeft(): int
      reads this`engine, this`finalityDepth, engine, engine.manager
    {
      if CutPlace() < |Order()| then
        |Chain(engine.g, engine.manager.gd, engine.tip)| - |Chain(engine.g, engine.manager.gd, Order()[CutPlace()])| + 1
      else 0
    }

    /** Makes the rebuilt engine the node's own; returns how many blocks were dropped. */
    method Reanchor(e: DagEngine, order: seq<Hash>, i: nat, newBase: S, newProof: seq<DagHeader>) returns (count: nat)
      requires Core() && CacheInv() && StemInv() && Rebuilt(e, i) && order == Order() && i > 0
      requires newBase == StateAfter(Book(), order[..i + 1]) && forall b :: b in order[i + 1..] && b in full ==>
        b in blockTxs
      requires var whole := WholeChain(stem, engine.g, engine.manager.gd, order[i]);
        |whole| > 0 && Chained(history, whole) && newProof == ProofOf(history, whole, |whole| - 1)
      modifies this
      ensures Pruned(order, i, old(engine.tip), old(TrueState())) && engine == e && blocks <= old(blocks) &&
        Order() == order[i..] && finalityDepth == old(finalityDepth) && count == |old(blocks)| - |blocks|
      ensures (old(|Chain(engine.g, engine.manager.gd, engine.tip)|)
        - old(|Chain(engine.g, engine.manager.gd, order[i])|) >= lwmaWindow) ==> TipTarget() == old(TipTarget())
      ensures old(Sound()) ==> Sound()
    {
      hide Core, CacheInv, StemInv, Sound, Linear, Chain, DagEngine.Valid, Rebuilding, Rebuilt, Pruned, TargetAfter,
        SamplesOf, Last, StateAfter, GdOk,
        HeadersOk, TipsOk, Lean, StemOk, CacheOk, Heaviest, Restricted, WholeChain, Chained, ProofOf, Replayed,
          PlacesOk;
      ghost var tip0, state0, target0, sound := engine.tip, TrueState(), TipTarget(), Sound();
      LaterCore(e, i);
      LaterState(e, i, newBase);
      LaterStem(e, i, newProof);
      LaterTarget(e, i);
      RebuiltEngine(e, i);
      LaterBlocks(e, i);
      if sound {
        LaterStory(e, i, newBase);
      }
      var before := |blocks|;
      CommitGhost(order[i], order[..i]);
      Commit(e, order, i, newBase, newProof);
      PrunedNow(order, i, tip0, state0);
      if sound {
        SoundNow(order, i, tip0, state0);
      }
      SubsetCount(blocks, old(blocks));
      count := before - |blocks|;
    }

    lemma {:induction false} LaterBlocks(e: DagEngine, i: nat)
      requires Core() && Rebuilt(e, i)
      ensures i < |Order()| && Listed(Order()[i..]) <= blocks && engine.manager.gd.Keys != {} &&
        Order()[i] in engine.g.past
    {
      RebuiltParts(e, i);
      OrderKnown();
      HeaderKeys(headers, engine.g, engine.manager.gd, identify);
      forall b | b in Listed(Order()[i..])
        ensures b in blocks
      {
        assert b in Order();
      }
    }

    lemma {:induction false} LaterStory(e: DagEngine, i: nat, newBase: S)
      requires Sound() && Rebuilt(e, i) && newBase == StateAfter(Book(), Order()[..i + 1]) && i > 0
      requires forall b :: b in Order()[i + 1..] && b in full ==> b in blockTxs
      ensures |stem| > 0
      ensures var order, kept := Order(), Listed(Order()[i..]);
        && Order()[i] in engine.g.past
        && |WholeChain(stem, engine.g, engine.manager.gd, order[i])| > 0 &&
          WholeChain(stem, engine.g, engine.manager.gd, order[i])[0] == stem[0]
        && Replayed(Ledger(step, order[i], Restricted(headers, kept), Restricted(blockTxs, kept), newBase), initial,
          history, ever, stem[0], dropped + order[..i],
                    gone + (engine.g.past[order[i]] - {ORIGIN}))
    {
      hide GdOk, HeadersOk, Linear, Chain, Reanchored, Lean, TipsOk, Heaviest, Rebuilt, Front, Run, StateAfter, StemOk,
        Replayed, PlacesOk;
      RebuiltParts(e, i);
      OrderKnown();
      GenesisFirst(engine.g, engine.manager.gd, engine.tip);
      BodiesKept();
      var order, kept, p := Order(), Listed(Order()[i..]), Order()[i];
      var l' := Ledger(step, p, Restricted(headers, kept), Restricted(blockTxs, kept), newBase);
      StemParts(history, stem, gone, headers, genesis, proof, historyPruned, identify);
      WholeAt(stem, engine.g, engine.manager.gd, p);
      LastIsBlock(engine.g, engine.manager.gd, p);
      assert WholeChain(stem, engine.g, engine.manager.gd, p)[..|stem|][0] == stem[0];
      LinearCovers(engine.g, engine.manager.gd, p);
      assert Listed(order[..i]) <= engine.g.past[p] - {ORIGIN} by {
        forall b | b in Listed(order[..i])
          ensures b in engine.g.past[p] - {ORIGIN}
        {
          var j :| 0 <= j < i && order[..i][j] == b;
          assert order[..i + 1][j] == b && b in Listed(order[..i + 1]) && order[j] != order[i];
        }
      }
      forall b | b in order[i + 1..]
        ensures TxsOf(l'.full, b) == TxsOf(full, b)
      {
        LaterBlock(order, i, b);
      }
      StoryPruned(Book(), l', initial, history, ever, stem[0], dropped, gone, gone + (engine.g.past[p] - {ORIGIN}),
        order, i);
    }

    lemma {:induction false} SoundNow(order0: seq<Hash>, i: nat, tip0: Hash, state0: S)
      requires i < |order0| && Pruned(order0, i, tip0, state0) && executed == [] && frozen == []
      requires |stem| > 0 && Replayed(Book(), initial, history, ever, stem[0], dropped, gone)
      ensures Sound()
    {
    }

    lemma {:induction false} RebuiltEngine(e: DagEngine, i: nat)
      requires Rebuilt(e, i)
      ensures i < |Order()| && e.Valid() && e.Started() && e.genesis == Order()[i]
    {
    }

    /** The proof for chain block `p`, built before anything is dropped. */
    method ProofAt(p: Hash) returns (newProof: seq<DagHeader>)
      requires Core() && StemInv() && p in engine.manager.gd && p != ORIGIN && ShortProof(p)
      ensures ghost var whole := WholeChain(stem, engine.g, engine.manager.gd, p);
        |whole| > 0 && Chained(history, whole) && newProof == ProofOf(history, whole, |whole| - 1)
    {
      hide Core, GdOk, HeadersOk, StemOk, Linear, Chain, WholeChain, Chained, Retained, ProofOf, Places;
      CoreParts();
      ghost var whole := WholeChain(stem, engine.g, engine.manager.gd, p);
      StemRetained(history, stem, gone, headers, proof, historyPruned, identify, engine.g, engine.manager.gd, p);
      RetainedChain(headers, historyPruned, proof, history, whole, |stem| - 1, identify);
      RetainedPlace(headers, historyPruned, proof, history, whole, |stem| - 1, identify);
      newProof := BuildProofFor(headers, historyPruned, proof, p, identify, history, whole, |stem| - 1, |whole| - 1);
    }

    /** The node at its new origin. */
    ghost predicate Pruned(order0: seq<Hash>, i: nat, tip0: Hash, state0: S)
      requires i < |order0|
      reads this, engine, engine.manager, engine.manager.reach
    {
      && Core() && CacheInv() && StemInv()
      && genesis == order0[i] && engine.tip == tip0 && Order() == order0[i..]
      && base.Some? && historyPruned && full == blockTxs && TrueState() == state0
    }

    /** The chain back to the first genesis now reaches down to `p`. */
    ghost method CommitGhost(p: Hash, front: seq<Hash>)
      modifies this`stem, this`gone, this`dropped
      ensures stem == WholeChain(old(stem), engine.g, engine.manager.gd, p) && dropped == old(dropped) + front
      ensures p in engine.g.past ==> gone == old(gone) + (engine.g.past[p] - {ORIGIN})
    {
      dropped := dropped + front;
      stem := WholeChain(stem, engine.g, engine.manager.gd, p);
      gone := gone + ((if p in engine.g.past then engine.g.past[p] else {}) - {ORIGIN});
    }

    /** Switches to the rebuilt engine and drops what is not kept. */
    method Commit(e: DagEngine, order: seq<Hash>, i: nat, newBase: S, newProof: seq<DagHeader>)
      requires i < |order|
      modifies this
      ensures engine == e && genesis == order[i] && base == Some(newBase) && historyPruned && checkpoint == None &&
        state == None && executed == [] && frozen == []
      ensures blocks == Listed(order[i..]) && headers == Restricted(old(headers), blocks) &&
        blockTxs == Restricted(old(blockTxs), blocks) && full == blockTxs
      ensures tips == [e.tip] && proof == newProof && unchanged(`history) && unchanged(`finalityDepth) &&
        unchanged(`stem) && unchanged(`gone)
      ensures unchanged(`ever) && unchanged(`dropped)
    {
      hide Restricted;
      var kept := set b | b in order[i..];
      assert kept == Listed(order[i..]);
      hide Listed;
      Keep(kept);
      Forget();
      StartAt(e, order[i], newBase, newProof);
    }

    /** Nothing is cached any more. */
    method Forget()
      modifies this`checkpoint, this`state, this`executed, this`frozen
      ensures checkpoint == None && state == None && executed == [] && frozen == []
    {
      checkpoint, state, executed, frozen := None, None, [], [];
    }

    method StartAt(e: DagEngine, p: Hash, newBase: S, newProof: seq<DagHeader>)
      modifies this`engine, this`genesis, this`base, this`historyPruned, this`tips, this`proof
      ensures engine == e && genesis == p && base == Some(newBase) && historyPruned && tips == [e.tip] &&
        proof == newProof
    {
      engine, genesis, base, historyPruned := e, p, Some(newBase), true;
      tips, proof := [e.tip], newProof;
    }

    method Keep(kept: set<Hash>)
      modifies this`blocks, this`headers, this`blockTxs, this`full
      ensures blocks == kept && headers == Restricted(old(headers), kept) &&
        blockTxs == Restricted(old(blockTxs), kept) && full == blockTxs
    {
      blocks, headers, blockTxs := kept, Restricted(headers, kept), Restricted(blockTxs, kept);
      full := blockTxs;
    }

    /** The rebuilt engine was made for the block at place `i`. */
    ghost predicate Rebuilt(e: DagEngine, i: nat)
      reads this`engine, engine, engine.manager, e, e.manager, e.manager.reach
    {
      && i < |Order()| && Order()[i] in Chain(engine.g, engine.manager.gd, engine.tip)
      && e.Valid() && e.Started() && e.genesis == Order()[i] && e.g.genesis == e.genesis
      && Rebuilding(engine.g, engine.manager.gd, e.g, e.manager.gd, Order()[i], Order(), i, |Order()|)
    }

    lemma {:induction false} RebuiltParts(e: DagEngine, i: nat)
      requires Core() && Rebuilt(e, i)
      ensures var g, gd, p := engine.g, engine.manager.gd, Order()[i];
        && Reanchored(g, gd, e.g, e.manager.gd, p) && Suffix(e.g) == Listed(Order()[i..]) &&
          engine.tip in Suffix(e.g) && p in gd && p in g.past && p != ORIGIN
        && GdOk(g, gd) && GdOk(e.g, e.manager.gd) && e.g.genesis == p && HeadersOk(headers, g, gd, identify) && Lean(g)
        && Heaviest(gd, gd.Keys - {ORIGIN}, engine.tip) && Heaviest(e.manager.gd, e.manager.gd.Keys - {ORIGIN}, e.tip)
        && Linear(g, gd, p) == Order()[..i + 1] && (forall b :: b in Suffix(e.g) ==> Below(g.past, b, engine.tip))
    {
      hide Core, GdOk, HeadersOk, Linear, Chain, Reanchored, Lean, DagEngine.Valid, Heaviest;
      CoreParts();
      OrderKnown();
      engine.ValidIndex();
      e.ValidIndex();
      var g, gd, order, tip := engine.g, engine.manager.gd, Order(), engine.tip;
      assert order[i..|order|] == order[i..];
      PrunePlace(g, gd, tip, i);
      KeptBelowTip(g, gd, tip, i);
    }

    lemma {:induction false} LaterCore(e: DagEngine, i: nat)
      requires Core() && Rebuilt(e, i)
      ensures var kept := Listed(Order()[i..]);
        && Suffix(e.g) == kept && HeadersOk(Restricted(headers, kept), e.g, e.manager.gd, identify) &&
          TipsOk(e.g, [e.tip]) && Lean(e.g)
      ensures e.tip == engine.tip && Linear(e.g, e.manager.gd, e.tip) == Order()[i..]
    {
      hide Core, GdOk, HeadersOk, Linear, Chain, Reanchored, Lean, TipsOk, Heaviest, Rebuilt, Front;
      RebuiltParts(e, i);
      var g, gd, g', gd', p, tip := engine.g, engine.manager.gd, e.g, e.manager.gd, Order()[i], engine.tip;
      TipFromAnchor(g, gd, g', gd', p, tip);
      SameTip(gd', gd'.Keys - {ORIGIN}, tip, e.tip);
      PrunedHeaders(headers, g, gd, g', gd', p, identify);
      PrunedTips(g, gd, g', gd', p, tip);
      PrunedLean(g, gd, g', gd', p);
      OrderFromAnchor(g, gd, g', gd', p, tip);
      FrontOf(Order(), i);
      CancelFront(Front(Linear(g, gd, p)), Linear(g', gd', tip), Order()[i..]);
    }

    lemma {:induction false} LaterState(e: DagEngine, i: nat, newBase: S)
      requires Core() && CacheInv() && Rebuilt(e, i) && newBase == StateAfter(Book(), Order()[..i + 1])
      requires forall b :: b in Order()[i + 1..] && b in full ==> b in blockTxs
      ensures var kept := Listed(Order()[i..]);
        var l := Ledger(step, Order()[i], Restricted(headers, kept), Restricted(blockTxs, kept), newBase);
        && StateAfter(l, Order()[i..]) == StateAfter(Book(), Order())
        && CacheOk(l, Restricted(blockTxs, kept), true, true, Cache(None, [], None), [])
    {
      hide Core, GdOk, HeadersOk, Linear, Chain, Reanchored, Lean, TipsOk, Heaviest, Rebuilt, Front, Run, StateAfter;
      RebuiltParts(e, i);
      OrderKnown();
      var order, kept := Order(), Listed(Order()[i..]);
      var l := Ledger(step, order[i], Restricted(headers, kept), Restricted(blockTxs, kept), newBase);
      assert order[..i] + [order[i]] == order[..i + 1] && order == order[..i] + order[i..];
      GenesisFirst(engine.g, engine.manager.gd, engine.tip);
      BodiesKept();
      forall b | b in order[i..][1..]
        ensures b != order[i] && b != genesis && MinerOf(headers, b) == MinerOf(l.headers, b) &&
          TxsOf(full, b) == TxsOf(l.full, b)
      {
        assert order[i..][1..] == order[i + 1..];
        LaterBlock(order, i, b);
      }
      PrunedState(Book(), l, order[..i], order[i], order, order[i..]);
    }

    lemma {:induction false} BodiesKept()
      requires CacheInv()
      ensures forall b :: b in blockTxs ==> b in full && blockTxs[b] == full[b]
    {
    }

    lemma {:induction false} LaterStem(e: DagEngine, i: nat, newProof: seq<DagHeader>)
      requires Core() && StemInv() && Rebuilt(e, i)
      requires var whole := WholeChain(stem, engine.g, engine.manager.gd, Order()[i]);
        |whole| > 0 && Chained(history, whole) && newProof == ProofOf(history, whole, |whole| - 1)
      ensures var p := Order()[i];
        && p in engine.g.past
        && StemOk(history, WholeChain(stem, engine.g, engine.manager.gd, p), gone + (engine.g.past[p] - {ORIGIN}),
          Restricted(headers, Listed(Order()[i..])), p, newProof, true, identify)
    {
      hide Core, GdOk, HeadersOk, Linear, Chain, Reanchored, Lean, TipsOk, Heaviest, Rebuilt, Front, StemOk,
        WholeChain, Chained, ProofOf;
      RebuiltParts(e, i);
      CoreParts();
      StemLonger(history, stem, gone, headers, proof, historyPruned, identify, engine.g, engine.manager.gd, e.g,
        e.manager.gd, Order()[i], newProof);
    }

    lemma {:induction false} LaterTarget(e: DagEngine, i: nat)
      requires Core() && Rebuilt(e, i)
      ensures i < |Order()|
      ensures |Chain(engine.g, engine.manager.gd, engine.tip)| - |Chain(engine.g, engine.manager.gd,
        Order()[i])| >= lwmaWindow ==>
        TargetAfter(SamplesOf(Restricted(headers, Listed(Order()[i..])),
          Last(Chain(e.g, e.manager.gd, e.tip), lwmaWindow + 1)), DaaParams(), genesisTarget) == TipTarget()
    {
      hide Core, GdOk, HeadersOk, Linear, Chain, Reanchored, Lean, TipsOk, Heaviest, Rebuilt, TargetAfter, SamplesOf;
      RebuiltParts(e, i);
      LaterCore(e, i);
      var g, gd, g', gd', p, tip, n :=
        engine.g, engine.manager.gd, e.g, e.manager.gd, Order()[i], engine.tip, lwmaWindow + 1;
      OrderFromAnchor(g, gd, g', gd', p, tip);
      LastIsBlock(g, gd, p);
      if |Chain(g, gd, tip)| - |Chain(g, gd, p)| >= lwmaWindow {
        WindowFromAnchor(g, gd, g', gd', p, tip, n);
        KeptBlock(g, gd, g', gd', p, tip);
        WindowKept(g', gd', tip, n);
        HeaderKeys(headers, g, gd, identify);
        var window := Last(Chain(g', gd', tip), n);
        forall b | b in window
          ensures b in headers && b in Restricted(headers, Suffix(g'))
        {
          KeptBlock(g, gd, g', gd', p, b);
        }
        SamplesSame(headers, Restricted(headers, Suffix(g')), window);
      }
    }

    lemma {:induction false} PrunedNow(order0: seq<Hash>, i: nat, tip0: Hash, state0: S)
      requires i < |order0| && engine.Valid() && engine.Started() && engine.genesis == genesis == order0[i]
      requires blocks == Suffix(engine.g) && HeadersOk(headers, engine.g, engine.manager.gd, identify) &&
        TipsOk(engine.g, tips) && Lean(engine.g)
      requires StemOk(history, stem, gone, headers, genesis, proof, historyPruned, identify)
      requires CacheOk(Book(), blockTxs, historyPruned, base.Some?, Cache(state, executed, checkpoint), frozen)
      requires engine.tip == tip0 && Order() == order0[i..] && base.Some? && historyPruned && full == blockTxs &&
        StateAfter(Book(), order0[i..]) == state0
      ensures Pruned(order0, i, tip0, state0)
    {
    }

    lemma {:induction false} Dropped(rest: Txs, count: nat)
      requires CacheInv() && checkpoint.Some? && checkpoint.value.len <= |executed|
      requires rest == blockTxs - Listed(executed[..checkpoint.value.len]) && (count == 0 <==> rest == blockTxs)
      ensures CacheOk(Book(), rest, historyPruned || count > 0, base.Some?, if count > 0 then
        Cache(None, [], checkpoint) else Cache(state, executed, checkpoint), frozen)
    {
      Dropping(Book(), blockTxs, historyPruned, base.Some?, Cache(state, executed, checkpoint), frozen, rest, count);
    }

    /** Every dropped body held transactions, so it is missed wherever its block would be run. */
    lemma {:induction false} DroppedNeeded(rest: Txs)
      requires CacheInv() && forall b :: b in rest ==> b in blockTxs && rest[b] == blockTxs[b]
      ensures BodiesAtHand() ==> (AtHand(full, rest, genesis, Order()) <==> Spared(blockTxs, rest, genesis, Order()))
    {
      if BodiesAtHand() && AtHand(full, rest, genesis, Order()) {
        forall b | b in blockTxs && b !in rest && b in Order()
          ensures b == genesis
        {
          assert b in full && full[b] != [] && TxsOf(rest, b) == [];
        }
      }
    }

    lemma {:induction false} Left(l: Ledger<S>, c: Cache<S>, lost: bool)
      requires l == Book() && c == Cache(state, executed, checkpoint) && lost == historyPruned &&
        CacheOk(l, blockTxs, lost, base.Some?, c, frozen)
      ensures CacheInv()
    {
    }
  }

  lemma {:induction false} PrefixTrans(u: seq<Hash>, v: seq<Hash>, w: seq<Hash>)
    requires u <= v <= w
    ensures u <= w
  {
  }

  lemma {:induction false} HeaderParents(headers: Headers, g: Graph, gd: Ghosts, identify: DagHeader -> Hash, b: Hash)
    requires HeadersOk(headers, g, gd, identify) && b in g.parents && b != ORIGIN && b != g.genesis
    ensures b in headers && Listed(headers[b].parents) == Listed(g.parents[b])
  {
    assert HeaderOk(headers, g, gd, identify, b);
  }

  lemma {:induction false} RetainedPlace(headers: Headers, pruned: bool, proof: seq<DagHeader>, all: Headers,
                                         chain: seq<Hash>, o: nat, identify: DagHeader -> Hash)
    requires Retained(headers, pruned, proof, all, chain, o, identify)
    ensures o <= |chain| - 1
  {
  }

  lemma {:induction false} FrontOf(order: seq<Hash>, i: nat)
    requires i < |order|
    ensures Front(order[..i + 1]) == order[..i] && order == order[..i] + order[i..]
  {
  }

  lemma {:induction false} CancelFront(u: seq<Hash>, v: seq<Hash>, w: seq<Hash>)
    requires u + v == u + w
    ensures v == w
  {
    assert v == (u + v)[|u|..] && w == (u + w)[|u|..];
  }

  /** A block after place `i` is neither the block there nor the first. */
  lemma {:induction false} LaterBlock(order: seq<Hash>, i: nat, b: Hash)
    requires Distinct(order) && i < |order| && b in order[i + 1..]
    ensures b != order[i] && b != order[0] && b in Listed(order[i..]) && b in order
  {
    var j :| 0 <= j < |order| - i - 1 && order[i + 1..][j] == b;
    assert order[i + 1 + j] == b && order[i..][j + 1] == b;
  }

  lemma {:induction false} WindowKept(g: Graph, gd: Ghosts, b: Hash, n: nat)
    requires GdOk(g, gd) && b in gd && b != ORIGIN
    ensures forall x :: x in Last(Chain(g, gd, b), n) ==> x in Suffix(g)
  {
    hide Chain, GdOk;
    ChainDistinct(g, gd, b);
    forall x | x in Last(Chain(g, gd, b), n)
      ensures x in Suffix(g)
    {
      assert x in Chain(g, gd, b);
    }
  }

  lemma {:induction false} FirstAccepted(e: DagEngine)
    requires e.Valid() && e.g == EmptyGraph(e.genesis, e.g.k)
    ensures e.Accepts(e.genesis, [ORIGIN])
  {
  }

  lemma {:induction false} FirstRebuilt(e: DagEngine, g: Graph, gd: Ghosts, order: seq<Hash>, i: nat)
    requires e.Valid() && e.Started() && i < |order| && order[i] == e.genesis &&
      e.g.parents.Keys == {ORIGIN, e.genesis} && e.g.k == g.k
    requires GdOk(g, gd) && e.genesis in gd && e.genesis != ORIGIN
    ensures Rebuilding(g, gd, e.g, e.manager.gd, e.genesis, order, i, i + 1)
  {
    e.ValidIndex();
    RestartedAt(g, gd, e.genesis, e.g, e.manager.gd);
    assert order[i..i + 1] == [e.genesis];
  }

  lemma {:induction false} EngineAccepts(e: DagEngine, b: Hash, ps: seq<Hash>)
    requires e.Valid() && e.Started() && b !in e.g.past && b != NONE && |ps| > 0 && ORIGIN !in ps &&
      (forall q :: q in ps ==> q in e.g.past) && Tidy(e.g.past, e.manager.gd, ps)
    ensures e.Accepts(b, ps)
  {
  }

  /** The listed blocks, each once, with `anchor` in place of blocks that were not kept. */
  method Remap(listed: seq<Hash>, kept: set<Hash>, anchor: Hash) returns (parents: seq<Hash>)
    ensures Distinct(parents) && forall p :: p in parents <==> exists q :: q in listed && p == Anchored(kept, anchor, q)
    ensures (forall q :: q in listed && q in kept ==> q in parents) &&
      ((exists q :: q in listed && q !in kept) ==> anchor in parents)
    ensures forall p :: p in parents ==>
      (p in listed && p in kept) || (p == anchor && exists q :: q in listed && q !in kept)
    ensures (forall q :: q in listed ==> q in kept) ==> Listed(parents) == Listed(listed)
  {
    parents := [];
    for i := 0 to |listed|
      invariant Distinct(parents)
      invariant forall p :: p in parents <==> exists q :: q in listed[..i] && p == Anchored(kept, anchor, q)
    {
      assert listed[..i + 1] == listed[..i] + [listed[i]];
      var d := Anchored(kept, anchor, listed[i]);
      if d !in parents {
        DistinctSnoc(parents, d);
        parents := parents + [d];
      }
    }
    assert listed[..|listed|] == listed;
    forall q | q in listed
      ensures if q in kept then q in parents else anchor in parents
    {
      assert Anchored(kept, anchor, q) in parents;
    }
    if forall q :: q in listed ==> q in kept {
      forall p
        ensures p in parents <==> p in listed
      {
        if p in listed {
          assert p == Anchored(kept, anchor, p);
        }
      }
    }
  }

  function OrAnchor(parents: seq<Hash>, anchor: Hash): seq<Hash> {
    if |parents| == 0 then [anchor] else parents
  }

  function Anchored(kept: set<Hash>, anchor: Hash, p: Hash): Hash {
    if p in kept then p else anchor
  }

  method TipsWithout(tips: seq<Hash>, parents: seq<Hash>, id: Hash) returns (r: seq<Hash>)
    requires Distinct(tips) && id !in tips
    ensures Distinct(r) && forall b :: b in r <==> b == id || (b in tips && b !in parents)
  {
    r := [];
    for i := 0 to |tips|
      invariant Distinct(r) && forall b :: b in r <==> b in tips[..i] && b !in parents
    {
      assert tips[..i + 1] == tips[..i] + [tips[i]];
      if tips[i] !in parents {
        DistinctSnoc(r, tips[i]);
        r := r + [tips[i]];
      }
    }
    assert tips[..|tips|] == tips;
    DistinctSnoc(r, id);
    r := r + [id];
  }

  /** All tips, or if there are too many the heaviest and the first of the others. */
  method Capped(tips: seq<Hash>, heaviest: Hash) returns (parents: seq<Hash>)
    requires Distinct(tips) && heaviest in tips
    ensures 0 < |parents| <= MAX_PARENTS && Distinct(parents) && heaviest in parents && forall p :: p in parents ==>
      p in tips
    ensures |Others(tips, heaviest)| == |tips| - 1
    ensures parents == if |tips| <= MAX_PARENTS then tips else [heaviest] + Others(tips, heaviest)[..MAX_PARENTS - 1]
  {
    OthersSize(tips, heaviest);
    parents := tips;
    if |parents| > MAX_PARENTS {
      parents := WithoutItem(tips, heaviest);
      parents := parents[..if |parents| < MAX_PARENTS - 1 then |parents| else MAX_PARENTS - 1];
      parents := [heaviest] + parents;
    }
  }

  predicate AllDistinct(s: seq<Hash>)
    ensures AllDistinct(s) <==> Distinct(s)
  {
    forall i, j :: 0 <= i < j < |s| ==> s[i] != s[j]
  }

  method DeepestOn(order: seq<Hash>, chain: set<Hash>, from: nat) returns (i: nat)
    requires from < |order|
    ensures i == Deepest(order, chain, from)
  {
    i := from;
    while i > 0 && order[i] !in chain
      invariant i < |order| && Deepest(order, chain, i) == Deepest(order, chain, from)
    {
      i := i - 1;
    }
  }

  /** The list without `x`. */
  ghost function Others(s: seq<Hash>, x: Hash): seq<Hash> {
    if |s| == 0 then [] else
      Others(s[..|s| - 1], x) + if s[|s| - 1] == x then [] else [s[|s| - 1]]
  }

  lemma {:induction false} OthersSize(s: seq<Hash>, x: Hash)
    requires Distinct(s)
    ensures |Others(s, x)| == |s| - (if x in s then 1 else 0) && Distinct(Others(s, x))
    ensures forall b :: b in Others(s, x) <==> b in s && b != x
  {
    if |s| > 0 {
      var front, b := s[..|s| - 1], s[|s| - 1];
      OthersSize(front, x);
      assert s == front + [b] && b !in front;
      if b != x {
        assert b !in Listed(Others(front, x));
        DistinctSnoc(Others(front, x), b);
      }
    }
  }

  method WithoutItem(s: seq<Hash>, x: Hash) returns (r: seq<Hash>)
    ensures r == Others(s, x)
  {
    r := [];
    for i := 0 to |s|
      invariant r == Others(s[..i], x)
    {
      assert s[..i + 1][..i] == s[..i];
      if s[i] != x {
        r := r + [s[i]];
      }
    }
    assert s[..|s|] == s;
  }

  method DropBodies(txs: Txs, prefix: seq<Hash>) returns (rest: Txs, pruned: nat)
    ensures rest == txs - Listed(prefix) && pruned == |txs.Keys| - |rest.Keys| && (pruned == 0 <==> rest == txs)
  {
    rest, pruned := txs, 0;
    assert Listed(prefix[..0]) == {};
    for i := 0 to |prefix|
      invariant rest == txs - Listed(prefix[..i])
      invariant pruned == |txs.Keys| - |rest.Keys| && (pruned == 0 ==> rest == txs)
    {
      DropOne(txs, prefix, i);
      if prefix[i] in rest {
        OneFewer(rest, prefix[i]);
        rest := rest - {prefix[i]};
        pruned := pruned + 1;
      }
    }
    assert prefix[..|prefix|] == prefix;
  }

  lemma {:induction false} DropOne(txs: Txs, prefix: seq<Hash>, i: nat)
    requires i < |prefix|
    ensures var rest := txs - Listed(prefix[..i]);
      txs - Listed(prefix[..i + 1]) == if prefix[i] in rest then rest - {prefix[i]} else rest
  {
    assert prefix[..i + 1] == prefix[..i] + [prefix[i]];
    ListedSnoc(prefix[..i], prefix[i]);
  }

  lemma {:induction false} OneFewer(txs: Txs, b: Hash)
    requires b in txs
    ensures |(txs - {b}).Keys| == |txs.Keys| - 1
  {
    assert txs.Keys == (txs - {b}).Keys + {b};
    OneMore((txs - {b}).Keys, b);
  }

  /** Only genesis among the listed blocks lost its body. */
  ghost predicate Spared(before: Txs, after: Txs, genesis: Hash, order: seq<Hash>) {
    forall b :: b in before && b !in after && b in order ==> b == genesis
  }

  /** Without the bodies of the checkpointed blocks the cache is still right. */
  lemma {:induction false} Dropping<S>(l: Ledger<S>, txs: Txs, pruned: bool, based: bool, c: Cache<S>,
                                       frozen: seq<Hash>, rest: Txs, count: nat)
    requires CacheOk(l, txs, pruned, based, c, frozen) && c.checkpoint.Some? && c.checkpoint.value.len <= |c.executed|
    requires rest == txs - Listed(c.executed[..c.checkpoint.value.len]) && (count == 0 <==> rest == txs)
    ensures if count > 0 then CacheOk(l, rest, true, based, Cache(None, [], c.checkpoint), frozen)
      else CacheOk(l, rest, pruned, based, c, frozen)
  {
    if count > 0 {
      assert c.executed[..|frozen|] == frozen;
    }
  }

  /** Headers and stem of a chain that holds genesis alone. */
  lemma {:induction false} Opened(g: Graph, gd: Ghosts, header: DagHeader, identify: DagHeader -> Hash)
    requires GdOk(g, gd) && g.parents.Keys == {ORIGIN, g.genesis} && identify(header) == g.genesis &&
      header.parents == [] && header.interlink == []
    ensures HeadersOk(map[g.genesis := header], g, gd, identify) && Lean(g)
    ensures StemOk(map[g.genesis := header], [g.genesis], {}, map[g.genesis := header], g.genesis, [], false, identify)
  {
    assert LinkOk(map[g.genesis := header], [g.genesis], 0);
  }

  lemma {:induction false} FreshCache<S>(l: Ledger<S>)
    requires l.full == map[]
    ensures CacheOk(l, map[], false, false, Cache(None, [], None), [])
  {
  }

  lemma {:induction false} GenesisTips(g: Graph)
    requires Rooted(g) && g.parents.Keys == {ORIGIN, g.genesis}
    ensures Suffix(g) == {g.genesis} && TipsOk(g, [g.genesis])
  {
    assert Childless(g, g.genesis) by {
      forall c | c in g.parents
        ensures g.genesis !in g.parents[c]
      {
        assert c == ORIGIN || c == g.genesis;
      }
    }
  }
}
