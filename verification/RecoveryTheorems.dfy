/**
 What the recovery protocol guarantees over every run: any interleaving of block
 applications, failures, sync-target updates, crashes and restarts.
 */
module RecoveryTheorems {
  import opened Wrappers
  import opened Chain
  import opened Kv
  import opened Recovery
  import opened RecoveryInvariant
  import opened RecoveryResults

  lemma {:induction false} RunKeeps(w: World, s: Node, events: seq<Event>)
    requires Inv(w, s) && Legal(w, s, events)
    ensures Inv(w, Run(w, s, events))
    decreases |events|
  {
    hide Inv, Enabled, Apply;
    if events != [] {
      StepKeeps(w, s, events[0]);
      RunKeeps(w, Apply(w, s, events[0]), events[1..]);
    }
  }

  lemma Reachable(w: World, s: Node, events: seq<Event>)
    requires Fresh(s) && Legal(w, s, events)
    ensures Inv(w, Run(w, s, events))
  {
    FreshInv(w, s);
    RunKeeps(w, s, events);
  }

  /** Exactly-once application: the application's commits are heights 1, 2, 3, ... without gap or
      repetition, each block names the application hash its predecessor left and has its header
      signed, and the application is at the store height or one above it. */
  lemma ExactlyOnce(w: World, s: Node, events: seq<Event>)
    requires Fresh(s) && Legal(w, s, events)
    ensures var t := Run(w, s, events);
            && t.app.height == |t.app.log|
            && (forall i | 0 <= i < |t.app.log| ::
                  && t.app.log[i].block.header.height == i + 1
                  && Extends(w, t.app.log[..i], t.app.log[i].block, t.app.log[i].commit))
            && DiskHeight(t.disk) <= t.app.height <= DiskHeight(t.disk) + 1
            && (!t.phase.Down? ==> t.mem.height <= t.app.height <= t.mem.height + 1)
  {
    Reachable(w, s, events);
    var t := Run(w, s, events);
    hide Run, Legal, Extends;
    forall i | 0 <= i < |t.app.log|
      ensures Extends(w, t.app.log[..i], t.app.log[i].block, t.app.log[i].commit)
    {
      assert EntryInv(w, t.app.log, i);
    }
  }

  /** What was committed is never taken back: a run only ever appends to the log. */
  lemma {:induction false} LogGrows(w: World, s: Node, events: seq<Event>)
    requires Legal(w, s, events)
    ensures s.app.log <= Run(w, s, events).app.log
    decreases |events|
  {
    if events != [] {
      LogGrows(w, Apply(w, s, events[0]), events[1..]);
    }
  }

  /** The ledger of a node that never crashes: a fold over the blocks that knows nothing of
      phases, disks or restarts. */
  datatype Ledger = Ledger(height: nat, data: AppData, digest: Digest, results: Digest, blockID: Hash, time: nat)

  function CrashFree(w: World, blocks: seq<Block>): Ledger {
    if blocks == [] then Ledger(0, w.genesis, w.genesisDigest, w.emptyResults, NoHash, w.genesisTime)
    else
      var before := CrashFree(w, blocks[..|blocks| - 1]);
      var block := blocks[|blocks| - 1];
      var x := w.execute(Some(before.data), block);
      Ledger(before.height + 1, x.after, w.digest(x.after), w.resultsHash(x.responses),
             HashOf(block.header), block.header.time)
  }

  function Blocks(log: seq<Commitment>): (blocks: seq<Block>)
    ensures |blocks| == |log| && forall i | 0 <= i < |log| :: blocks[i] == log[i].block
  {
    seq(|log|, i requires 0 <= i < |log| => log[i].block)
  }

  /** A log whose first block ran on the genesis data is the crash-free ledger of its blocks. */
  lemma {:induction false} LogIsCrashFree(w: World, app: App, k: nat)
    requires LogInv(w, app) && k <= |app.log|
    requires app.log != [] ==> app.log[0].from == Some(w.genesis)
    ensures var l := CrashFree(w, Blocks(app.log)[..k]);
            && l.height == k && l.digest == DigestAt(w, app.log, k) && l.results == ResultsAt(w, app.log, k)
            && (k > 0 ==> l.data == app.log[k - 1].ran.after
                          && l.blockID == HashOf(app.log[k - 1].block.header)
                          && l.time == app.log[k - 1].block.header.time)
  {
    if k > 0 {
      LogIsCrashFree(w, app, k - 1);
      assert EntryInv(w, app.log, k - 1);
      hide LogInv, Extends;
      assert Blocks(app.log)[..k][..k - 1] == Blocks(app.log)[..k - 1];
    }
  }

  /** A state against the crash-free ledger of the blocks the application committed: application hash and
      store height of the height it claims to have stored, block id and time of the last block, unless
      it already names the next one. Proposer rotation, base height and settlement index are left out. */
  predicate Matches(w: World, st: State, blocks: seq<Block>) {
    && st.lastStoreHeight <= |blocks| <= st.lastBlockHeight <= st.lastStoreHeight + 1
    && var l := CrashFree(w, blocks[..st.lastStoreHeight]);
    && st.lastStoreHeight == l.height && st.appHash == l.digest
    && (st.lastBlockHeight == |blocks| ==>
          var last := CrashFree(w, blocks);
          st.lastBlockHeight == last.height && st.lastBlockID == last.blockID && st.lastBlockTime == last.time)
    && PowersKept(w, st)
  }

  predicate ResultsMatch(w: World, st: State, blocks: seq<Block>) {
    st.lastStoreHeight <= |blocks| && st.lastResultsHash == CrashFree(w, blocks[..st.lastStoreHeight]).results
  }

  lemma StateMatches(w: World, app: App, st: State)
    requires LogInv(w, app) && StateInv(w, app.log, st)
    requires app.log != [] ==> app.log[0].from == Some(w.genesis)
    ensures Matches(w, st, Blocks(app.log))
    ensures ResultsRight(w, app.log, st) ==> ResultsMatch(w, st, Blocks(app.log))
  {
    LogIsCrashFree(w, app, st.lastStoreHeight);
    LogIsCrashFree(w, app, |app.log|);
    assert Blocks(app.log)[..|app.log|] == Blocks(app.log);
    hide LogInv, EntryInv;
    LedgerAtGenesis(w);
  }

  lemma LedgerAtGenesis(w: World)
    ensures CrashFree(w, []).blockID == NoHash && CrashFree(w, []).time == w.genesisTime
  {
  }

  /** The stored and the in-memory state match the ledger of what the application committed, and its data
      is that of the ledger. `torn` tells that memory lacks the results hash of the last block. */
  predicate Refined(w: World, t: Node, torn: bool) {
    var blocks := Blocks(t.app.log);
    && (t.app.log != [] ==> t.app.data == Some(CrashFree(w, blocks).data))
    && (t.disk.state.Some? ==>
          Matches(w, t.disk.state.value, blocks) && ResultsMatch(w, t.disk.state.value, blocks))
    && (!t.phase.Down? ==> Matches(w, t.mem.state, blocks) && (!torn ==> ResultsMatch(w, t.mem.state, blocks)))
  }

  lemma DataIsLedger(w: World, app: App)
    requires LogInv(w, app) && (app.log != [] ==> app.log[0].from == Some(w.genesis))
    ensures app.log != [] ==> app.data == Some(CrashFree(w, Blocks(app.log)).data)
  {
    hide EntryInv, CrashFree;
    LogIsCrashFree(w, app, |app.log|);
    assert Blocks(app.log)[..|app.log|] == Blocks(app.log);
  }

  lemma GenuineIsRefined(w: World, t: Node, torn: bool)
    requires Inv(w, t) && ResultsInv(w, t, torn)
    requires t.app.log != [] ==> t.app.log[0].from == Some(w.genesis)
    ensures Refined(w, t, torn)
  {
    hide StorageInv, SetsInv, IndexWithin, CrashFree, PhaseInv, LogInv, StateInv, Matches, ResultsMatch, ResultsRight,
         Blocks;
    DataIsLedger(w, t.app);
    if t.disk.state.Some? {
      StateMatches(w, t.app, t.disk.state.value);
    }
    if !t.phase.Down? {
      StateMatches(w, t.app, t.mem.state);
    }
  }

  /** Recovery refines the crash-free run, whatever the crashes, as long as none of them loses the
      genesis data and no index update tears. */
  lemma RefinesCrashFree(w: World, s: Node, events: seq<Event>)
    requires Fresh(s) && Legal(w, s, events) && !LosesGenesis(w, s, events) && !Tears(w, s, events, false)
    ensures Refined(w, Run(w, s, events), TornAfterAll(false, events))
  {
    hide Inv, Refined, LosesGenesis, Run, Legal, Tears, ResultsInv;
    Reachable(w, s, events);
    GenesisFate(w, s, events);
    ResultsExactly(w, s, events);
    GenuineIsRefined(w, Run(w, s, events), TornAfterAll(false, events));
  }

  /** Nodes agree: wherever the blocks that two nodes committed are the same, so are the data and the
      responses, whatever crashes either of them went through. Headers alone do not decide it, since
      nothing ties a header to the transactions of its block. */
  lemma NodesAgree(w: World, s: Node, xs: seq<Event>, s': Node, ys: seq<Event>, k: nat)
    requires Fresh(s) && Legal(w, s, xs) && !LosesGenesis(w, s, xs)
    requires Fresh(s') && Legal(w, s', ys) && !LosesGenesis(w, s', ys)
    requires var a, b := Run(w, s, xs).app.log, Run(w, s', ys).app.log;
             1 <= k <= |a| && k <= |b| && Blocks(a)[..k] == Blocks(b)[..k]
    ensures var a, b := Run(w, s, xs).app.log, Run(w, s', ys).app.log;
            a[k - 1].ran.after == b[k - 1].ran.after && DigestAt(w, a, k) == DigestAt(w, b, k)
            && ResultsAt(w, a, k) == ResultsAt(w, b, k)
  {
    hide Inv, LosesGenesis, Run, Legal, CrashFree, DigestAt, ResultsAt;
    Reachable(w, s, xs);
    Reachable(w, s', ys);
    GenesisFate(w, s, xs);
    GenesisFate(w, s', ys);
    LogOf(w, Run(w, s, xs));
    LogOf(w, Run(w, s', ys));
    LogIsCrashFree(w, Run(w, s, xs).app, k);
    LogIsCrashFree(w, Run(w, s', ys).app, k);
  }

  lemma LogOf(w: World, s: Node)
    requires Inv(w, s)
    ensures LogInv(w, s.app)
  {
  }

  /** The stored state of a height that is complete, without reservations: it is the ledger of everything
      the application committed. */
  predicate Complete(w: World, t: Node) {
    var l := CrashFree(w, Blocks(t.app.log));
    t.disk.state.Some? &&
    var st := t.disk.state.value;
    && st.lastBlockHeight == st.lastStoreHeight == l.height == t.app.height
    && st.appHash == l.digest && st.lastResultsHash == l.results
    && st.lastBlockID == l.blockID && st.lastBlockTime == l.time && PowersKept(w, st)
  }

  /** The events that write the state of a completed height, and those that end its application. */
  predicate Completes(e: Event) {
    e.WriteState? || e.Finish? || e.WriteAligned? || e.FinishAligned?
  }

  lemma StepCompletes(w: World, s: Node, e: Event)
    requires Inv(w, s) && Enabled(w, s, e) && Completes(e)
    ensures var t := Apply(w, s, e);
            && t.app.log != [] && t.disk.state.Some?
            && t.disk.state.value.lastBlockHeight == t.disk.state.value.lastStoreHeight == |t.app.log|
            && t.disk.state.value.lastResultsHash == ResultsAt(w, t.app.log, |t.app.log|)
            && (t.phase.Idle? ==> t.mem.state == t.disk.state.value && t.mem.height == |t.app.log|)
  {
    hide StorageInv, SetsInv, IndexWithin, EntryInv, DigestAt, PowersKept, LastBlockIs;
  }

  /** The last event of a run. */
  lemma {:induction false} RunLast(w: World, s: Node, events: seq<Event>, e: Event)
    requires Legal(w, s, events + [e])
    ensures Legal(w, s, events) && Enabled(w, Run(w, s, events), e)
    ensures Run(w, s, events + [e]) == Apply(w, Run(w, s, events), e)
    decreases |events|
  {
    hide Enabled, Apply;
    if events == [] {
      assert (events + [e])[1..] == [];
    } else {
      assert (events + [e])[0] == events[0] && (events + [e])[1..] == events[1..] + [e];
      RunLast(w, Apply(w, s, events[0]), events[1..], e);
    }
  }

  /** Whenever the state of a height is written for good, directly or through alignment, it is that of
      the crash-free node after the same blocks, heights, block id and time included; and once the
      application of the block ends, memory agrees with it. */
  lemma CompletedRefines(w: World, s: Node, events: seq<Event>, e: Event)
    requires Fresh(s) && Legal(w, s, events + [e]) && Completes(e) && !LosesGenesis(w, s, events + [e])
    ensures var t := Run(w, s, events + [e]);
            Complete(w, t) && (t.phase.Idle? ==> t.mem.state == t.disk.state.value && t.mem.height == t.app.height)
  {
    hide Inv, Legal, Run, LosesGenesis, CrashFree;
    RunLast(w, s, events, e);
    Reachable(w, s, events);
    StepCompletes(w, Run(w, s, events), e);
    StepKeeps(w, Run(w, s, events), e);
    GenesisFate(w, s, events + [e]);
    CompleteAtLast(w, Run(w, s, events + [e]));
  }

  lemma CompleteAtLast(w: World, t: Node)
    requires Inv(w, t) && t.app.log != [] && t.app.log[0].from == Some(w.genesis) && t.disk.state.Some?
    requires t.disk.state.value.lastBlockHeight == t.disk.state.value.lastStoreHeight == |t.app.log|
    requires t.disk.state.value.lastResultsHash == ResultsAt(w, t.app.log, |t.app.log|)
    ensures Complete(w, t)
  {
    hide StorageInv, SetsInv, IndexWithin, EntryInv, CrashFree, PhaseInv;
    LogIsCrashFree(w, t.app, |t.app.log|);
    assert Blocks(t.app.log)[..|t.app.log|] == Blocks(t.app.log);
  }

  /** Restarting here skips InitChain although the application never committed its work. */
  predicate GenesisWindow(s: Node) {
    s.phase.Down? && s.app.height == 0 && s.disk.state.Some? && s.disk.state.value.lastBlockHeight > 0
  }

  predicate LosesGenesis(w: World, s: Node, events: seq<Event>)
    requires Legal(w, s, events)
    decreases |events|
  {
    events != [] &&
    ((events[0].Restart? && GenesisWindow(s)) || LosesGenesis(w, Apply(w, s, events[0]), events[1..]))
  }

  /** `lost` tells whether some restart so far fell into the genesis window. */
  predicate FateInv(w: World, s: Node, lost: bool) {
    && (s.app.log != [] ==> s.app.log[0].from == if lost then None else Some(w.genesis))
    && (s.app.log == [] && !s.phase.Down? ==> s.mem.start == if lost then None else Some(w.genesis))
    && (s.app.log == [] && lost ==> s.disk.state.Some? && s.disk.state.value.lastBlockHeight > 0)
    && (s.app.log == [] && lost && !s.phase.Down? ==> s.mem.state.lastBlockHeight > 0)
  }

  lemma FateStep(w: World, s: Node, e: Event, lost: bool)
    requires Inv(w, s) && Enabled(w, s, e) && FateInv(w, s, lost)
    ensures FateInv(w, Apply(w, s, e), lost || (e.Restart? && GenesisWindow(s)))
  {
    hide StorageInv, SetsInv, IndexWithin, Extends, IndexSound, EntryInv, PowersKept;
  }

  lemma {:induction false} FateRun(w: World, s: Node, events: seq<Event>, lost: bool)
    requires Inv(w, s) && Legal(w, s, events) && FateInv(w, s, lost)
    ensures FateInv(w, Run(w, s, events), lost || LosesGenesis(w, s, events))
    decreases |events|
  {
    hide Inv, Enabled, Apply, FateInv, GenesisWindow;
    if events != [] {
      StepKeeps(w, s, events[0]);
      FateStep(w, s, events[0], lost);
      FateRun(w, Apply(w, s, events[0]), events[1..], lost || (events[0].Restart? && GenesisWindow(s)));
    }
  }

  /** The first block runs on the genesis data if and only if no restart fell into the genesis window. */
  lemma GenesisFate(w: World, s: Node, events: seq<Event>)
    requires Fresh(s) && Legal(w, s, events)
    ensures var t := Run(w, s, events);
            t.app.log != [] ==> (t.app.log[0].from == Some(w.genesis) <==> !LosesGenesis(w, s, events))
  {
    FreshInv(w, s);
    FateRun(w, s, events, false);
  }

  /** Two legal runs in a row are one. */
  lemma {:induction false} RunConcat(w: World, s: Node, xs: seq<Event>, ys: seq<Event>)
    requires Legal(w, s, xs) && Legal(w, Run(w, s, xs), ys)
    ensures Legal(w, s, xs + ys) && Run(w, s, xs + ys) == Run(w, Run(w, s, xs), ys)
    ensures LosesGenesis(w, s, xs + ys) == (LosesGenesis(w, s, xs) || LosesGenesis(w, Run(w, s, xs), ys))
    decreases |xs|
  {
    hide Enabled, Apply, GenesisWindow;
    if xs == [] {
      assert xs + ys == ys;
    } else {
      RunConcat(w, Apply(w, s, xs[0]), xs[1..], ys);
      assert (xs + ys)[0] == xs[0] && (xs + ys)[1..] == xs[1..] + ys;
    }
  }

  /** Extends a run by one event. */
  lemma RunSnoc(w: World, s: Node, events: seq<Event>, e: Event)
    requires Legal(w, s, events) && Enabled(w, Run(w, s, events), e)
    ensures Legal(w, s, events + [e]) && Run(w, s, events + [e]) == Apply(w, Run(w, s, events), e)
    ensures LosesGenesis(w, s, events + [e]) ==
            (LosesGenesis(w, s, events) || (e.Restart? && GenesisWindow(Run(w, s, events))))
  {
    hide Enabled, Apply, GenesisWindow;
    var t := Run(w, s, events);
    assert [e][1..] == [] && Legal(w, Apply(w, t, e), []);
    RunConcat(w, s, events, [e]);
  }

  /** One attempt at a first block, up to the write of its responses and state. */
  lemma Attempt(w: World, s: Node, prefix: seq<Event>, block: Block, commit: Commit) returns (events: seq<Event>)
    requires Legal(w, s, prefix)
    requires var t := Run(w, s, prefix);
             && Enabled(w, t, Receive(block, commit))
             && Validate(w, t.mem.state, block, commit) == Accept
    ensures Legal(w, s, events) && LosesGenesis(w, s, events) == LosesGenesis(w, s, prefix)
    ensures var t := Run(w, s, prefix);
            var t' := Run(w, s, events);
            && t'.phase == Persisted(block, commit, w.execute(t.mem.start, block))
            && t'.mem == t.mem.(state := UpdateState(t.mem.state, block)) && t'.app == t.app
            && t'.disk.state == Some(t'.mem.state)
  {
    hide Legal, Run, LosesGenesis, Validate, GenesisWindow;
    RunSnoc(w, s, prefix, Receive(block, commit));
    events := prefix + [Receive(block, commit)];
    RunSnoc(w, s, events, Execute);
    events := events + [Execute];
    RunSnoc(w, s, events, Persist);
    events := events + [Persist];
  }

  /** A block that was attempted once is accepted again: an unfinished attempt leaves no trace that
      validation sees. */
  lemma AcceptedAgain(w: World, st: State, block: Block, commit: Commit)
    requires Validate(w, st, block, commit) == Accept && block.header.height == st.lastStoreHeight + 1
    ensures Validate(w, UpdateState(st, block), block, commit) == Accept
  {
  }

  lemma Reboot(w: World, s: Node, prefix: seq<Event>) returns (events: seq<Event>)
    requires Legal(w, s, prefix)
    requires var t := Run(w, s, prefix);
             t.disk.state.Some? && t.disk.state.value.lastBlockHeight == 1 && t.app.height == 0
    ensures Legal(w, s, events) && LosesGenesis(w, s, events)
    ensures var t := Run(w, s, prefix);
            var st := t.disk.state.value;
            Run(w, s, events) == t.(phase := Idle, mem := Memory(st.lastStoreHeight, st.baseHeight, st, 0, t.app.data))
  {
    hide Legal, Run, LosesGenesis;
    RunSnoc(w, s, prefix, Crash);
    events := prefix + [Crash];
    RunSnoc(w, s, events, Restart);
    events := events + [Restart];
  }

  /** The genesis window is real, for every first block the node accepts: a crash between its state
      write and the application's first commit, and the block runs on an application that never saw
      InitChain. */
  lemma GenesisLost(w: World, s: Node, block: Block, commit: Commit) returns (events: seq<Event>)
    requires Fresh(s) && w.sequencers != map[]
    requires block.header.height == INITIAL_HEIGHT
    requires Validate(w, InitChainState(w, GenesisState(w)), block, commit) == Accept
    ensures Legal(w, s, events) && LosesGenesis(w, s, events)
    ensures Run(w, s, events).app.data == Some(w.execute(None, block).after)
  {
    assert Legal(w, s, []) && Run(w, s, []) == s && !LosesGenesis(w, s, []);
    var st := InitChainState(w, GenesisState(w));
    AcceptedAgain(w, st, block, commit);
    hide Legal, Run, LosesGenesis, Validate;
    RunSnoc(w, s, [], Restart);
    assert Run(w, s, [] + [Restart]).mem.state == st;
    events := Attempt(w, s, [] + [Restart], block, commit);
    events := Reboot(w, s, events);
    events := Attempt(w, s, events, block, commit);
    RunSnoc(w, s, events, CommitApp(0));
    events := events + [CommitApp(0)];
  }

  /** The store agrees with the application at every height that was not pruned, although blocks are
      saved before they are validated: index, block, commit and responses are those the application
      ran, and a validator set with the powers of the sequencers is stored. A block that was only
      received sits alone, right above everything stored. */
  lemma StoreAgrees(w: World, s: Node, events: seq<Event>)
    requires Fresh(s) && Legal(w, s, events)
    ensures var t := Run(w, s, events);
            && (forall i | t.cut - 1 <= i < |t.app.log| ::
                  0 <= i && Holds(t.disk, t.app.log[i].block, t.app.log[i].commit)
                  && LoadResponses(t.disk, i + 1) == Some(t.app.log[i].ran.responses)
                  && LoadValidators(t.disk, i + 1).Some?
                  && LoadValidators(t.disk, i + 1).value.powers == w.sequencers)
            && (forall h | h in t.disk.index && h > |t.app.log| :: h == DiskHeight(t.disk) + 1 == |t.app.log| + 1)
  {
    Reachable(w, s, events);
    var t := Run(w, s, events);
    hide Run, Legal, Extends, StateInv, EntryInv;
    forall i | t.cut - 1 <= i < |t.app.log|
      ensures Holds(t.disk, t.app.log[i].block, t.app.log[i].commit)
      ensures LoadResponses(t.disk, i + 1) == Some(t.app.log[i].ran.responses)
      ensures LoadValidators(t.disk, i + 1).Some? && LoadValidators(t.disk, i + 1).value.powers == w.sequencers
    {
      assert StoredAs(t.disk, t.app.log[i]);
    }
  }

  /** Retained heights are a contiguous suffix, also after a crash in the middle of pruning. The cut
      never passes what the settlement layer accepted, so the parent block and every unsubmitted
      block of the running node can be loaded. */
  lemma RetainedSuffix(w: World, s: Node, events: seq<Event>)
    requires Fresh(s) && Legal(w, s, events)
    ensures var t := Run(w, s, events);
            && (forall h: nat | h < t.cut ::
                  && LoadBlock(t.disk, h) == None && LoadCommit(t.disk, h) == None
                  && LoadResponses(t.disk, h) == None && LoadValidators(t.disk, h) == None)
            && (forall h | t.cut <= h <= DiskHeight(t.disk) :: Loadable(t.disk, h))
            && t.cut <= Max(1, Latest(t.hub))
            && (t.disk.state.Some? ==> t.disk.state.value.baseHeight <= t.cut)
            && (!t.phase.Down? ==>
                  && t.mem.base <= t.cut
                  && (t.mem.height > 0 ==> Loadable(t.disk, t.mem.height))
                  && (forall h | Latest(t.hub) < h <= t.mem.height :: Loadable(t.disk, h)))
  {
    Reachable(w, s, events);
    var t := Run(w, s, events);
    hide Run, Legal, Extends, EntryInv;
    forall h | t.cut <= h <= DiskHeight(t.disk)
      ensures Loadable(t.disk, h)
    {
      assert StoredAs(t.disk, t.app.log[h - 1]);
    }
  }

  /** Every stored state has its two heights equal or one apart, so the compatibility branch of
      FromProto never fires and a restart resumes at the stored height. */
  lemma HeightBookkeeping(w: World, s: Node, events: seq<Event>)
    requires Fresh(s) && Legal(w, s, events)
    ensures var t := Run(w, s, events);
            t.disk.state.Some? ==>
              var st := t.disk.state.value;
              && st.lastStoreHeight <= st.lastBlockHeight <= st.lastStoreHeight + 1
              && FromProto(st) == st
              && var b := Boot(w, t);
                 && b.mem.height == st.lastStoreHeight && b.mem.base == st.baseHeight && b.mem.syncTarget == 0
                 && b.phase.Idle? && b.app == t.app && b.hub == t.hub && b.cut == t.cut
                 && (st.lastBlockHeight > 0 ==> b.mem.state == st && b.disk == t.disk && b.mem.start == t.app.data)
                 && (st.lastBlockHeight == 0 ==>
                       && b.mem.start == Some(w.genesis) && b.disk == t.disk.(state := Some(b.mem.state))
                       && b.mem.state.slStateIndex == st.slStateIndex && b.mem.state.lastBlockHeight == 0)
  {
    Reachable(w, s, events);
    hide Run, Legal, LogInv, StorageInv, SetsInv;
  }

  /** The height a node stands at, or would resume at. */
  function Floor(s: Node): nat {
    if s.phase.Down? then DiskHeight(s.disk) else s.mem.height
  }

  lemma FloorStep(w: World, s: Node, e: Event)
    requires Inv(w, s) && Enabled(w, s, e)
    ensures Floor(s) <= Floor(Apply(w, s, e))
  {
    hide LogInv, StorageInv, SetsInv, IndexWithin, Extends;
  }

  /** Neither crashes nor restarts ever lower the store height. */
  lemma {:induction false} HeightNeverDrops(w: World, s: Node, events: seq<Event>)
    requires Inv(w, s) && Legal(w, s, events)
    ensures Floor(s) <= Floor(Run(w, s, events))
    decreases |events|
  {
    hide Inv, Enabled, Apply, Floor;
    if events != [] {
      StepKeeps(w, s, events[0]);
      FloorStep(w, s, events[0]);
      HeightNeverDrops(w, Apply(w, s, events[0]), events[1..]);
    }
  }
}
