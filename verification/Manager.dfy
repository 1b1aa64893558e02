/**
 The Manager of block/block.go, block/manager.go, block/pruning.go and block/retriever.go:
 the code that drives the recovery protocol, statement by statement. Every method shows, in a
 ghost result, the protocol events it went through; since the protocol may crash after any of
 them, whatever is proved of every run holds wherever the process stops.
 */
module Manager {
  import opened Wrappers
  import opened Chain
  import opened Kv
  import opened Recovery
  import opened RecoveryInvariant
  import opened RecoveryResults
  import opened RecoveryTheorems
  import opened Store
  import opened CanonicalChain
  import opened RecoverySteps
  import opened SyncSpec
  import opened RecoveryFloor

  /** Signatures of acceptable size that verify. */
  ghost predicate Signs(w: World, sign: Header -> seq<nat>) {
    forall h :: |sign(h)| <= MAX_SIGNATURE_SIZE && w.verifies(sign(h), h)
  }

  /** The base after an application of a block whose pruning does not fail. */
  ghost function PrunedTo(base: nat, height: nat, syncTarget: nat, retainHeight: int): nat {
    if 0 < retainHeight && base <= retainHeight <= height && retainHeight <= syncTarget then retainHeight else base
  }

  /** Saving a block leaves the validators alone; saving its execution adds the set that was next. */
  lemma SavedSets(d: Disk, d1: Disk, st: State, block: Block, commit: Chain.Commit, responses: Responses)
    requires d1 == SaveBlock(d, block, commit)
    ensures var height := block.header.height;
            forall h :: LoadValidators(SaveExecution(d1, height, responses, UpdateState(st, block)), h) ==
                        if h == height then Some(st.nextValidators) else LoadValidators(d, h)
  {
    forall h
      ensures LoadValidators(SaveExecution(d1, block.header.height, responses, UpdateState(st, block)), h) ==
              if h == block.header.height then Some(st.nextValidators) else LoadValidators(d, h)
    {
      SaveExecutionFrame(d1, block.header.height, responses, UpdateState(st, block), h);
    }
  }

  /** The state is stored apart from the validators of the heights. */
  lemma StateAside(d: Disk)
    ensures forall state, h :: LoadValidators(d.(state := state), h) == LoadValidators(d, h)
  {
  }

  datatype Production = CannotLoad | SkippedEmpty | NotGossiped | Done(outcome: Outcome)

  /** The application behind the proxy: what it committed, and the data it executes on. */
  class AppConn {
    var app: App
    var start: Option<AppData>

    constructor (app: App, start: Option<AppData>)
      ensures this.app == app && this.start == start
    {
      this.app, this.start := app, start;
    }

    method Commit(block: Block, commit: Chain.Commit, ran: Execution)
      modifies this
      ensures start == Some(ran.after)
      ensures app == App(Some(ran.after), block.header.height,
                         old(app.log) + [Commitment(block, commit, old(start), ran)])
    {
      app := App(Some(ran.after), block.header.height, app.log + [Commitment(block, commit, start, ran)]);
      start := Some(ran.after);
    }
  }

  class Manager {
    const w: World
    const store: DefaultStore
    const conn: AppConn
    var lastState: State
    var syncTarget: nat
    ghost var hub: seq<nat>
    ghost var cut: nat

    ghost function At(phase: Phase): Node
      reads this, store, conn
    {
      Node(store.db, conn.app, Memory(store.height, store.base, lastState, syncTarget, conn.start), phase, hub, cut)
    }

    ghost predicate Valid()
      reads this, store, conn
    {
      Inv(w, At(Idle))
    }

    /** NewManager on a disk and an application, as a process finds them after a crash. */
    constructor (w: World, store: DefaultStore, conn: AppConn, ghost down: Node)
      requires Inv(w, down) && Enabled(w, down, Restart)
      requires store.db == down.disk && store.height == 0 && store.base == 0 && conn.app == down.app
      modifies store, conn
      ensures this.store == store && this.conn == conn && this.w == w
      ensures At(Idle) == Apply(w, down, Restart) && Valid()
    {
      hide Inv;
      this.w, this.store, this.conn := w, store, conn;
      this.syncTarget := 0;
      this.hub, this.cut := down.hub, down.cut;
      var s := GenesisState(w);
      if store.db.state.Some? {
        s := FromProto(store.db.state.value);
        store.height, store.base := s.lastStoreHeight, s.baseHeight;
      }
      conn.start := conn.app.data;
      if s.lastBlockHeight + 1 == INITIAL_HEIGHT {
        conn.start := Some(w.genesis);
        s := InitChainState(w, s);
        store.db := store.db.(state := Some(s));
      }
      this.lastState := s;
      new;
      StepKeeps(w, down, Restart);
    }

    /** The first half of applyBlock: save, validate, execute, persist responses and state. */
    method ExecuteBlock(block: Block, commit: Chain.Commit, faults: Faults)
      returns (r: Outcome, ran: Execution, ghost events: seq<Event>)
      requires Valid() && block.header.height == store.height + 1 && conn.app.height != block.header.height
      modifies this`lastState, store
      ensures Legal(w, old(At(Idle)), events)
      ensures r in {Applied, Failed, Panicked}
      ensures Run(w, old(At(Idle)), events) ==
              if r.Applied? then At(Persisted(block, commit, ran))
              else if r.Panicked? then At(Down) else At(Idle)
      ensures var verdict := Validate(w, old(lastState), block, commit);
              && (r.Applied? <==> !faults.save && !faults.execute && !faults.persist && verdict == Accept)
              && (r.Panicked? <==> !faults.save && verdict == Panic)
      ensures r.Applied? ==> lastState == UpdateState(old(lastState), block)
      ensures r.Applied? ==> forall h ::
                LoadValidators(store.db, h) == if h == block.header.height then Some(old(lastState.nextValidators))
                                               else LoadValidators(old(store.db), h)
      ensures Silent(events)
      ensures store.height == old(store.height) && lastState.slStateIndex == old(lastState.slStateIndex)
      ensures store.base == old(store.base)
    {
      hide Inv, Legal, Run, SaveBlock, SaveExecution, UpdateState, Validate, LoadValidators;
      ghost var s0 := At(Idle);
      AttemptRun(w, s0, block, commit);
      ran := w.execute(conn.start, block);
      EmptyRun(w, s0);
      if faults.save {
        return Failed, ran, [];
      }
      store.db := SaveBlock(store.db, block, commit);
      events := [Receive(block, commit)];
      var verdict := Validate(w, lastState, block, commit);
      if verdict == Panic {
        GiveUp(w, s0, events);
        return Panicked, ran, events + [Crash];
      }
      if verdict == Reject || faults.execute {
        GiveUp(w, s0, events);
        return Failed, ran, events + [Fail];
      }
      lastState := UpdateState(lastState, block);
      events := [Receive(block, commit), Execute];
      if faults.persist {
        GiveUp(w, s0, events);
        return Failed, ran, events + [Fail];
      }
      SavedSets(old(store.db), store.db, old(lastState), block, commit, ran.responses);
      store.db := SaveExecution(store.db, block.header.height, ran.responses, lastState);
      return Applied, ran, [Receive(block, commit), Execute, Persist];
    }

    /** alignStoreWithApp, once the application turned out to be at the block's height already. */
    method AlignStoreWithApp(block: Block, loadFails: bool, writeFails: bool)
      returns (ok: bool, ghost events: seq<Event>)
      requires Valid() && conn.app.height == block.header.height == store.height + 1
      modifies this`lastState, store
      ensures Legal(w, old(At(Idle)), events) && Run(w, old(At(Idle)), events) == At(Idle)
      ensures ok == (!loadFails && !writeFails) && lastState.slStateIndex == old(lastState.slStateIndex)
      ensures lastState.appHash == w.digest(conn.app.data.value) && lastState.lastStoreHeight == block.header.height
      ensures if loadFails then lastState.lastResultsHash == old(lastState.lastResultsHash)
              else ResultsRight(w, conn.app.log, lastState)
      ensures ok ==> store.height == block.header.height && store.db.state == Some(lastState)
      ensures ok ==> lastState.lastBlockHeight == lastState.lastStoreHeight == block.header.height
      ensures Silent(events)
    {
      hide Inv, Legal, Run, ResultsRight;
      ghost var s0 := At(Idle);
      Repairable(w, s0);
      Ahead(w, s0);
      AlignRun(w, s0);
      HalfAlignRun(w, s0);
      AlignedResults(w, s0);
      events := [Align(block.header.height)];
      lastState := lastState.(appHash := w.digest(conn.app.data.value));
      lastState := lastState.(lastStoreHeight := block.header.height);
      lastState := lastState.(lastValidators := lastState.validators);
      if loadFails {
        return false, [HalfAlign(block.header.height)];
      }
      var responses := LoadResponses(store.db, block.header.height).value;
      lastState := lastState.(lastResultsHash := w.resultsHash(responses));
      if writeFails {
        GiveUp(w, s0, events);
        return false, events + [Fail];
      }
      AlignedRun(w, s0, events);
      store.db := store.db.(state := Some(lastState));
      store.SetHeight(block.header.height);
      return true, events + [WriteAligned, FinishAligned];
    }

    /** The second half of applyBlock: application commit, pruning, final state and height. */
    method CommitBlock(block: Block, commit: Chain.Commit, ran: Execution, faults: Faults, retainHeight: int,
                       ghost s0: Node, ghost done: seq<Event>)
      returns (r: Outcome, ghost events: seq<Event>)
      requires Legal(w, s0, done) && Run(w, s0, done) == At(Persisted(block, commit, ran))
      requires block.header.height == store.height + 1
      modifies this, store, conn
      ensures Legal(w, s0, events) && Run(w, s0, events) == At(Idle)
      ensures r in {Applied, Failed}
      ensures r.Applied? <==> !faults.commitApp && !faults.publish && !faults.write
      ensures r.Applied? ==> store.height == block.header.height
      ensures conn.app.log == old(conn.app.log) ||
              conn.app.log == old(conn.app.log) + [Commitment(block, commit, old(conn.start), ran)]
      ensures r.Applied? ==> conn.app.log != old(conn.app.log)
      ensures r.Applied? ==> store.db.state == Some(lastState)
      ensures r.Applied? ==> lastState == CompleteState(w, old(lastState), ran, block.header.height, store.base)
      ensures Silent(done) ==> Silent(events)
      ensures forall h: nat | h < old(store.base) || retainHeight <= h || old(store.height) < h ::
                LoadValidators(store.db, h) == LoadValidators(old(store.db), h)
      ensures r.Applied? && faults.pruneAt == None ==>
                lastState.baseHeight == store.base == old(PrunedTo(store.base, store.height, syncTarget, retainHeight))
      ensures hub == old(hub) && lastState.slStateIndex == old(lastState.slStateIndex)
    {
      hide Legal, Run, CompleteState, LoadValidators;
      if faults.commitApp {
        GiveUp(w, s0, done);
        return Failed, done + [Fail];
      }
      CommittedRun(w, s0, done, retainHeight);
      events := done + [CommitApp(retainHeight)];
      ghost var retain := PruneTarget(At(Idle).mem, retainHeight);
      conn.Commit(block, commit, ran);
      if faults.publish {
        GiveUp(w, s0, events);
        return Failed, events + [Fail];
      }
      assert Run(w, s0, events) == At(Committed(block, ran, retain));
      if retainHeight > 0 {
        events := PruneBlocks(retainHeight, faults.pruneAt, block, ran, retain, s0, events);
      }
      if faults.write {
        GiveUp(w, s0, events);
        return Failed, events + [Fail];
      }
      WrittenRun(w, s0, events);
      StateAside(store.db);
      var newState := CompleteState(w, lastState, ran, block.header.height, store.base);
      store.db := store.db.(state := Some(newState));
      lastState := newState;
      store.SetHeight(block.header.height);
      return Applied, events + [WriteState, Finish];
    }

    /** applyBlock. `retainHeight` is what the application answers to its commit. */
    method ApplyBlock(block: Block, commit: Chain.Commit, faults: Faults, retainHeight: int)
      returns (r: Outcome, ghost events: seq<Event>)
      requires Valid()
      modifies this, store, conn
      ensures Legal(w, old(At(Idle)), events)
      ensures Run(w, old(At(Idle)), events) == At(if r.Panicked? then Down else Idle)
      ensures !r.Panicked? ==> Valid()
      ensures r.Skipped? <==> block.header.height != old(store.height) + 1
      ensures r.Skipped? ==> At(Idle) == old(At(Idle))
      ensures r.Repaired? ==> conn.app == old(conn.app) && store.height == block.header.height == conn.app.height
      ensures r.Applied? ==>
                && store.height == block.header.height
                && conn.app.log == old(conn.app.log) +
                   [Commitment(block, commit, old(conn.start), w.execute(old(conn.start), block))]
                && (faults.pruneAt == None ==>
                      && lastState.baseHeight == store.base
                      && store.base == old(PrunedTo(store.base, store.height, syncTarget, retainHeight)))
      ensures r.Applied? ==>
                && lastState.validators == lastState.lastValidators == old(lastState.nextValidators)
                && lastState.nextValidators.powers == old(lastState.nextValidators.powers)
                && (lastState.nextValidators.powers != map[] ==>
                      lastState.nextValidators.turn == old(lastState.nextValidators.turn) + 1)
                && LoadValidators(store.db, block.header.height) == Some(old(lastState.nextValidators))
                && forall h: nat | h != block.header.height && (h < old(store.base) || retainHeight <= h) ::
                     LoadValidators(store.db, h) == LoadValidators(old(store.db), h)
      ensures r.Applied? || r.Repaired? ==>
                && store.db.state == Some(lastState)
                && lastState.lastBlockHeight == lastState.lastStoreHeight == block.header.height
                && ResultsRight(w, conn.app.log, lastState)
                && conn.app.log != []
                && var last := conn.app.log[|conn.app.log| - 1].block.header;
                   lastState.lastBlockID == HashOf(last) && lastState.lastBlockTime == last.time
      ensures r.Panicked? <==>
                && !faults.appInfo && !faults.save
                && block.header.height == old(store.height) + 1 && old(conn.app.height) != block.header.height
                && Validate(w, old(lastState), block, commit) == Panic
      ensures Silent(events)
      ensures faults == NO_FAULTS && !r.Skipped? ==>
                if old(conn.app.height) == block.header.height then r.Repaired?
                else r.Applied? <==> Validate(w, old(lastState), block, commit) == Accept
      ensures hub == old(hub) && lastState.slStateIndex == old(lastState.slStateIndex)
    {
      hide Inv, Legal, Run, Validate, PrunedTo, ResultsRight, LoadValidators;
      ghost var s0 := At(Idle);
      EmptyRun(w, s0);
      if block.header.height != store.height + 1 {
        return Skipped, [];
      }
      if faults.appInfo {
        return Failed, [];
      }
      if conn.app.height == block.header.height {
        var ok;
        ok, events := AlignStoreWithApp(block, faults.load, faults.write);
        r := if ok then Repaired else Failed;
      } else {
        var ran;
        r, ran, events := ExecuteBlock(block, commit, faults);
        if r.Applied? {
          RanIs(w, s0, events, block, commit, ran);
          AppliedResults(w, s0, Commitment(block, commit, conn.start, ran));
          r, events := CommitBlock(block, commit, ran, faults, retainHeight, s0, events);
        }
      }
      RunKeeps(w, s0, events);
      if r.Applied? || r.Repaired? {
        AtHeight(w, At(Idle));
        LastBlockNamed(w, At(Idle));
      }
    }

    /** One block from the data availability layer. */
    method FollowBlock(block: Block, commit: Chain.Commit, env: Circumstances, ghost chain: seq<Signed>)
      returns (r: SyncResult, ghost events: seq<Event>)
      requires Valid() && Canonical(w, chain)
      modifies this, store, conn
      ensures Legal(w, old(At(Idle)), events)
      ensures Run(w, old(At(Idle)), events) == At(if r.Died? then Down else Idle)
      ensures !r.Died? ==> Valid()
      ensures r.Synced? ==> store.height == if block.header.height == old(store.height) + 1
                                            then block.header.height else old(store.height)
      ensures Faultless(env) && InChain(block, commit, chain) && old(OnChain(w, At(Idle), chain)) ==>
                r.Synced? && OnChain(w, At(Idle), chain)
      ensures hub == old(hub) && lastState.slStateIndex == old(lastState.slStateIndex)
      ensures Silent(events) && !r.Starved?
    {
      ghost var s := At(Idle);
      var (faults, retainHeight) := env(block);
      var outcome;
      outcome, events := ApplyBlock(block, commit, faults, retainHeight);
      r := match outcome case Failed => Stopped case Panicked => Died case _ => Synced;
      if Faultless(env) && InChain(block, commit, chain) && OnChain(w, s, chain) {
        StaysOnChain(w, s, At(Idle), chain, block, commit, outcome);
      }
    }

    /** The inner loop of processNextDABatch: the blocks of one batch, in order. */
    method ApplyBatch(batch: Batch, env: Circumstances, ghost chain: seq<Signed>)
      returns (r: SyncResult, ghost events: seq<Event>)
      requires Valid() && Canonical(w, chain)
      modifies this, store, conn
      ensures Legal(w, old(At(Idle)), events)
      ensures Run(w, old(At(Idle)), events) == At(if r.Died? then Down else Idle)
      ensures !r.Died? ==> Valid()
      ensures r.Synced? ==> Reached(batch, old(store.height), |batch.blocks|, store.height)
      ensures r.Synced? ==> old(store.height) <= store.height
      ensures Faultless(env) && FromChain(batch, chain) && old(OnChain(w, At(Idle), chain)) ==>
                r.Synced? && OnChain(w, At(Idle), chain)
      ensures hub == old(hub) && lastState.slStateIndex == old(lastState.slStateIndex)
      ensures Silent(events) && !r.Starved?
    {
      ghost var s0 := At(Idle);
      ghost var good := Faultless(env) && FromChain(batch, chain) && OnChain(w, s0, chain);
      events := [];
      assert Legal(w, s0, []) && Run(w, s0, []) == s0 && Silent([]);
      hide Inv, Legal, Run, OnChain, LosesGenesis, Faultless, Canonical, InChain, Silent;
      for i := 0 to |batch.blocks|
        invariant Legal(w, s0, events) && Run(w, s0, events) == At(Idle) && Valid()
        invariant Reached(batch, s0.mem.height, i, store.height) && s0.mem.height <= store.height
        invariant good ==> OnChain(w, At(Idle), chain)
        invariant hub == old(hub) && lastState.slStateIndex == old(lastState.slStateIndex)
        invariant Silent(events)
      {
        if i >= |batch.commits| {
          CrashRun(w, s0, events);
          assert Silent([Crash]);
          SilentConcat(events, [Crash]);
          return Died, events + [Crash];
        }
        ghost var more;
        r, more := FollowBlock(batch.blocks[i], batch.commits[i], env, chain);
        RunConcat(w, s0, events, more);
        SilentConcat(events, more);
        events := events + more;
        if !r.Synced? {
          return;
        }
      }
      r := Synced;
    }

    /** processNextDABatch, on what the data availability layer returned. */
    method ProcessNextDABatch(batches: seq<Batch>, env: Circumstances, ghost chain: seq<Signed>)
      returns (r: SyncResult, ghost events: seq<Event>)
      requires Valid() && Canonical(w, chain)
      modifies this, store, conn
      ensures Legal(w, old(At(Idle)), events)
      ensures Run(w, old(At(Idle)), events) == At(if r.Died? then Down else Idle)
      ensures !r.Died? ==> Valid()
      ensures r.Synced? ==> forall k | 0 <= k < |batches| ::
                Reached(batches[k], old(store.height), |batches[k].blocks|, store.height)
      ensures Faultless(env) && AllFromChain(batches, chain) && old(OnChain(w, At(Idle), chain)) ==>
                r.Synced? && OnChain(w, At(Idle), chain)
      ensures hub == old(hub) && lastState.slStateIndex == old(lastState.slStateIndex)
      ensures Silent(events) && !r.Starved?
    {
      ghost var s0 := At(Idle);
      ghost var good := Faultless(env) && AllFromChain(batches, chain) && OnChain(w, s0, chain);
      events := [];
      assert Legal(w, s0, []) && Run(w, s0, []) == s0 && Silent([]);
      hide Inv, Legal, Run, OnChain, LosesGenesis, Faultless, Canonical, FromChain, Reached, Covers, Silent;
      for i := 0 to |batches|
        invariant Legal(w, s0, events) && Run(w, s0, events) == At(Idle) && Valid()
        invariant s0.mem.height <= store.height
        invariant forall k | 0 <= k < i :: Reached(batches[k], s0.mem.height, |batches[k].blocks|, store.height)
        invariant good ==> OnChain(w, At(Idle), chain)
        invariant hub == old(hub) && lastState.slStateIndex == old(lastState.slStateIndex)
        invariant Silent(events)
      {
        ghost var mid := store.height;
        ghost var more;
        r, more := ApplyBatch(batches[i], env, chain);
        RunConcat(w, s0, events, more);
        SilentConcat(events, more);
        events := events + more;
        if !r.Synced? {
          return;
        }
        ReachedOn(batches, i, s0.mem.height, mid, store.height);
      }
      r := Synced;
    }

    /** updateStateIndex: the index is stored in memory first and may stay there. */
    method UpdateStateIndex(fails: bool) returns (ok: bool, ghost events: seq<Event>)
      requires Valid() && lastState.slStateIndex < |hub|
      modifies this`lastState, store
      ensures Legal(w, old(At(Idle)), events) && Run(w, old(At(Idle)), events) == At(Idle) && Valid()
      ensures ok == !fails && lastState == old(lastState).(slStateIndex := old(lastState.slStateIndex) + 1)
      ensures ok ==> store.db.state == Some(lastState)
      ensures store.height == old(store.height) && hub == old(hub)
      ensures NotesEarly(w, old(At(Idle)), events) <==> End(hub, lastState.slStateIndex) > store.height
    {
      hide Inv, Legal, Run, LosesGenesis, NotesEarly;
      ghost var s0 := At(Idle);
      EmptyRun(w, s0);
      lastState := lastState.(slStateIndex := lastState.slStateIndex + 1);
      RunSnoc(w, s0, [], NoteBatch);
      events := [] + [NoteBatch];
      if !fails {
        store.db := store.db.(state := Some(lastState));
        RunSnoc(w, s0, events, WriteIndex);
        events := events + [WriteIndex];
      }
      RunKeeps(w, s0, events);
      NoteRun(w, s0, events);
      ok := !fails;
    }

    /** One round of syncUntilTarget, with the batch retrieved: apply all batches found at its data
        availability height, record the state index. */
    method SyncBatch(batches: seq<HubBatch>, da: map<nat, seq<Batch>>, env: Circumstances,
                     writeFails: nat -> bool, ghost chain: seq<Signed>)
      returns (r: SyncResult, ghost events: seq<Event>)
      requires Valid() && Canonical(w, chain) && Ends(batches) == hub && lastState.slStateIndex < |hub|
      modifies this, store, conn
      ensures Legal(w, old(At(Idle)), events)
      ensures Run(w, old(At(Idle)), events) == At(if r.Died? then Down else Idle)
      ensures !r.Died? ==> Valid()
      ensures hub == old(hub) && !r.Starved?
      ensures r.Synced? ==> lastState.slStateIndex == old(lastState.slStateIndex) + 1
      ensures Tiled(batches, da) && old(SyncedBelow(hub, lastState, store.height)) ==>
                && !NotesEarly(w, old(At(Idle)), events)
                && (r.Synced? ==> SyncedBelow(hub, lastState, store.height))
                && (Undisturbed(env, writeFails, da, chain) && old(OnChain(w, At(Idle), chain)) ==>
                      r.Synced? && OnChain(w, At(Idle), chain))
    {
      hide Inv, Legal, Run, OnChain, LosesGenesis, Faultless, Canonical, AllFromChain, Tiled, Reached, Silent,
           NotesEarly;
      ghost var s0 := At(Idle);
      ghost var tiled := Tiled(batches, da) && SyncedBelow(hub, lastState, store.height);
      EmptyRun(w, s0);
      NoNotes(w, s0);
      var index := lastState.slStateIndex + 1;
      var batch := batches[index - 1];
      if tiled {
        Recorded(batches, da, index);
      }
      if batch.daHeight !in da {
        return Stopped, [];
      }
      ghost var from := store.height;
      r, events := ProcessNextDABatch(da[batch.daHeight], env, chain);
      SilentRun(w, s0, events);
      if !r.Synced? {
        return;
      }
      if tiled {
        BatchReached(batches, da, index, from, store.height);
      }
      ghost var s := At(Idle);
      var ok;
      ghost var more;
      ok, more := UpdateStateIndex(writeFails(index));
      ExtendNote(w, s0, events, more);
      events := events + more;
      SameApplication(w, s, At(Idle), chain);
      r := if ok then Synced else Stopped;
    }

    /** syncUntilTarget. A retrieval that fails is tried again; `retrieves` tells for which indices it
        succeeds in the end. */
    method SyncUntilTarget(target: nat, batches: seq<HubBatch>, retrieves: nat -> bool, da: map<nat, seq<Batch>>,
                           env: Circumstances, writeFails: nat -> bool, ghost chain: seq<Signed>)
      returns (r: SyncResult, ghost events: seq<Event>)
      requires Valid() && Canonical(w, chain) && Ends(batches) == hub
      modifies this, store, conn
      ensures Legal(w, old(At(Idle)), events)
      ensures Run(w, old(At(Idle)), events) == At(if r.Died? then Down else Idle)
      ensures !r.Died? ==> Valid()
      ensures r.Synced? ==> target <= store.height
      ensures Tiled(batches, da) && old(SyncedBelow(hub, lastState, store.height)) ==>
                && !NotesEarly(w, old(At(Idle)), events)
                && (Available(batches, da, retrieves, target) ==> !r.Starved?)
                && (Undisturbed(env, writeFails, da, chain) && old(OnChain(w, At(Idle), chain)) ==>
                      && (r.Synced? || r.Starved?) && OnChain(w, At(Idle), chain))
    {
      hide Inv, Legal, Run, OnChain, LosesGenesis, Undisturbed, Canonical, Tiled, NotesEarly;
      ghost var s0 := At(Idle);
      ghost var tiled := Tiled(batches, da) && SyncedBelow(hub, lastState, store.height);
      ghost var good := tiled && Undisturbed(env, writeFails, da, chain) && OnChain(w, s0, chain);
      events := [];
      EmptyRun(w, s0);
      NoNotes(w, s0);
      KnownIndex(w, s0);
      while store.height < target
        invariant Legal(w, s0, events) && Run(w, s0, events) == At(Idle) && Valid()
        invariant hub == old(hub) && lastState.slStateIndex <= |hub|
        invariant tiled ==> SyncedBelow(hub, lastState, store.height) && !NotesEarly(w, s0, events)
        invariant good ==> OnChain(w, At(Idle), chain)
        decreases |hub| - lastState.slStateIndex
      {
        if tiled && target <= Latest(hub) {
          BatchLeft(w, At(Idle), target);
        }
        if lastState.slStateIndex == |batches| || !retrieves(lastState.slStateIndex + 1) {
          return Starved, events;
        }
        ghost var more;
        r, more := SyncBatch(batches, da, env, writeFails, chain);
        ExtendNote(w, s0, events, more);
        events := events + more;
        if !r.Synced? {
          return;
        }
      }
      r := Synced;
    }

    /** produceBlock: builds on the last stored block, or takes up a block already stored at the next
        height, gossips it and applies it. */
    method ProduceBlock(p: Proposal, sign: Header -> seq<nat>, allowEmpty: bool, gossipFails: bool,
                        faults: Faults, retainHeight: int)
      returns (r: Production, proposed: Option<Signed>, ghost events: seq<Event>)
      requires Valid()
      modifies this, store, conn
      ensures Legal(w, old(At(Idle)), events)
      ensures Run(w, old(At(Idle)), events) == At(if r == Done(Panicked) then Down else Idle)
      ensures r != Done(Panicked) ==> Valid()
      ensures r != CannotLoad
      ensures r == SkippedEmpty <==> old(LoadBlock(store.db, store.height + 1)) == None && !allowEmpty && p.txs == []
      ensures r == NotGossiped <==> r != SkippedEmpty && gossipFails
      ensures proposed.Some? <==> r != SkippedEmpty
      ensures proposed.Some? ==> proposed.value.block.header.height == old(store.height) + 1
      ensures old(LoadBlock(store.db, store.height + 1)).Some? && proposed.Some? ==>
                && Some(proposed.value.block) == old(LoadBlock(store.db, store.height + 1))
                && Some(proposed.value.commit) == old(LoadCommit(store.db, store.height + 1))
      ensures old(LoadBlock(store.db, store.height + 1)) == None && proposed.Some? && old(store.height) > 0 ==>
                && old(store.height) <= old(|conn.app.log|)
                && var parent := old(conn.app.log[store.height - 1]);
                   && proposed.value.block.header.lastHeaderHash == HashOf(parent.block.header)
                   && proposed.value.block.lastCommit == parent.commit
      ensures old(LoadBlock(store.db, store.height + 1)) == None && proposed.Some? ==>
                var Signed(block, commit) := proposed.value;
                && block.txs == p.txs && block.header.time == p.time
                && block.header.proposer == p.proposer && block.header.rest == p.rest
                && block.header.version == old(lastState.version) && block.header.appHash == old(lastState.appHash)
                && block.header.lastResultsHash == old(lastState.lastResultsHash)
                && commit == Chain.Commit(old(store.height) + 1, HashOf(block.header), [sign(block.header)])
      ensures old(LoadBlock(store.db, store.height + 1)) == None && proposed.Some? && old(store.height) == 0 ==>
                && proposed.value.block.header.lastHeaderHash == NoHash
                && proposed.value.block.lastCommit == Chain.Commit(0, NoHash, [])
      ensures faults == NO_FAULTS && !gossipFails && allowEmpty && p.proposer != [] && Signs(w, sign) ==>
                (old(LoadBlock(store.db, store.height + 1)) == None ==> r == Done(Applied))
      ensures faults == NO_FAULTS && !gossipFails && old(LoadBlock(store.db, store.height + 1)).Some? ==>
                && proposed.Some? && r.Done?
                && var verdict := Validate(w, old(lastState), proposed.value.block, proposed.value.commit);
                   && (r.outcome.Repaired? <==> old(conn.app.height) == old(store.height) + 1)
                   && (!r.outcome.Repaired? ==>
                         && (r.outcome.Applied? <==> verdict == Accept)
                         && (r.outcome.Panicked? <==> verdict == Panic))
    {
      hide Inv, Legal, Run, Validate;
      ghost var s0 := At(Idle);
      EmptyRun(w, s0);
      var height := store.height;
      var lastCommit := Chain.Commit(height, NoHash, []);
      var lastHash := NoHash;
      if height + 1 != INITIAL_HEIGHT {
        ParentLoads(w, s0);
        var loaded := LoadCommit(store.db, height);
        var parent := LoadBlock(store.db, height);
        if loaded == None || parent == None {
          return CannotLoad, None, [];
        }
        lastCommit, lastHash := loaded.value, HashOf(parent.value.header);
      }
      var block, commit;
      var pending := LoadBlock(store.db, height + 1);
      if pending.Some? {
        PendingComplete(w, s0, height + 1);
        block, commit := pending.value, LoadCommit(store.db, height + 1).value;
      } else {
        block := CreateBlock(height + 1, lastCommit, lastHash, lastState, p);
        if !allowEmpty && block.txs == [] {
          return SkippedEmpty, None, [];
        }
        commit := Chain.Commit(height + 1, HashOf(block.header), [sign(block.header)]);
      }
      proposed := Some(Signed(block, commit));
      if gossipFails {
        return NotGossiped, proposed, [];
      }
      if pending == None && p.proposer != [] && Signs(w, sign) {
        OwnBlockAccepted(w, s0, lastCommit, lastHash, p, commit);
      }
      var outcome;
      outcome, events := ApplyBlock(block, commit, faults, retainHeight);
      r := Done(outcome);
    }

    /** pruneBlocks: refuses to prune what the settlement layer has not accepted, then prunes. Errors
        are logged and dropped. */
    method PruneBlocks(retainHeight: int, failAt: Option<nat>, ghost block: Block, ghost ran: Execution,
                       ghost retain: Option<nat>, ghost s0: Node, ghost done: seq<Event>)
      returns (ghost events: seq<Event>)
      requires Legal(w, s0, done) && Run(w, s0, done) == At(Committed(block, ran, retain))
      requires retain == PruneTarget(At(Idle).mem, retainHeight)
      modifies this`cut, store
      ensures Legal(w, s0, events) && Run(w, s0, events) == At(Committed(block, ran, retain))
      ensures store.height == old(store.height) && (Silent(done) ==> Silent(events))
      ensures forall h: nat | h < old(store.base) || retainHeight <= h || store.height < h ::
                LoadValidators(store.db, h) == LoadValidators(old(store.db), h)
      ensures failAt == None ==> store.base == if retain.Some? then retain.value else old(store.base)
    {
      hide Legal, Run, LoadValidators;
      if retainHeight > syncTarget {
        return done;
      }
      ghost var t := Run(w, s0, done);
      var r;
      ghost var cuts;
      r, cuts := store.PruneBlocks(retainHeight, failAt);
      ghost var cut';
      events, cut' := CutsRun(w, s0, done, cuts);
      cut := cut';
    }
  }
}
