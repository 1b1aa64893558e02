/**
 What a few consecutive protocol events amount to, in terms of the node they start from. The
 Manager's methods use these to show the run they went through.
 */
module RecoverySteps {
  import opened Wrappers
  import opened Chain
  import opened Kv
  import opened Recovery
  import opened RecoveryInvariant
  import opened RecoveryResults
  import opened RecoveryTheorems
  import opened RecoveryFloor

  lemma EmptyRun(w: World, s: Node)
    ensures Legal(w, s, []) && Run(w, s, []) == s
  {
  }

  lemma NoNotes(w: World, s: Node)
    ensures !NotesEarly(w, s, [])
  {
  }

  /** A run that goes on silently. */
  lemma Extend(w: World, s: Node, events: seq<Event>, more: seq<Event>)
    requires Legal(w, s, events) && Legal(w, Run(w, s, events), more) && Silent(more)
    ensures Legal(w, s, events + more) && Run(w, s, events + more) == Run(w, Run(w, s, events), more)
    ensures NotesEarly(w, s, events + more) == NotesEarly(w, s, events)
  {
    hide Legal, Run, NotesEarly, LosesGenesis, Silent;
    RunConcat(w, s, events, more);
    NotesConcat(w, s, events, more);
    SilentRun(w, Run(w, s, events), more);
  }

  lemma ExtendNote(w: World, s: Node, events: seq<Event>, more: seq<Event>)
    requires Legal(w, s, events) && Legal(w, Run(w, s, events), more)
    ensures Legal(w, s, events + more) && Run(w, s, events + more) == Run(w, Run(w, s, events), more)
    ensures NotesEarly(w, s, events + more) == (NotesEarly(w, s, events) || NotesEarly(w, Run(w, s, events), more))
  {
    hide Legal, Run, NotesEarly, LosesGenesis;
    RunConcat(w, s, events, more);
    NotesConcat(w, s, events, more);
  }

  lemma KnownIndex(w: World, s: Node)
    requires Inv(w, s) && s.phase.Idle?
    ensures s.mem.state.slStateIndex <= |s.hub|
  {
  }

  /** Both ways a block goes once it is saved: `phase` is where it got to. */
  lemma AttemptRun(w: World, s: Node, block: Block, commit: Commit)
    requires s.phase.Idle? && block.header.height == s.mem.height + 1 && s.app.height != block.header.height
    ensures UpdateState(s.mem.state, block).slStateIndex == s.mem.state.slStateIndex
    ensures Legal(w, s, [Receive(block, commit)])
    ensures Run(w, s, [Receive(block, commit)]) ==
            s.(disk := SaveBlock(s.disk, block, commit), phase := Saved(block, commit))
    ensures Validate(w, s.mem.state, block, commit) == Accept ==>
              var ran := w.execute(s.mem.start, block);
              var st := UpdateState(s.mem.state, block);
              var d := SaveBlock(s.disk, block, commit);
              && Legal(w, s, [Receive(block, commit), Execute])
              && Run(w, s, [Receive(block, commit), Execute]) ==
                 s.(disk := d, mem := s.mem.(state := st), phase := Executed(block, commit, ran))
              && Legal(w, s, [Receive(block, commit), Execute, Persist])
              && Run(w, s, [Receive(block, commit), Execute, Persist]) ==
                 s.(disk := SaveExecution(d, block.header.height, ran.responses, st),
                    mem := s.mem.(state := st), phase := Persisted(block, commit, ran))
  {
    var e := Receive(block, commit);
    assert Legal(w, s, []) && Run(w, s, []) == s;
    hide Legal, Run, LosesGenesis, SaveBlock, SaveExecution, UpdateState, Validate;
    RunSnoc(w, s, [], e);
    assert [] + [e] == [e] && [e] + [Execute] == [e, Execute];
    if Validate(w, s.mem.state, block, commit) == Accept {
      RunSnoc(w, s, [e], Execute);
      assert [e, Execute] + [Persist] == [e, Execute, Persist];
      RunSnoc(w, s, [e, Execute], Persist);
    }
  }

  /** What a persisted attempt ran is the block on the data it started from. */
  lemma RanIs(w: World, s: Node, events: seq<Event>, block: Block, commit: Commit, ran: Execution)
    requires Inv(w, s) && Legal(w, s, events) && Run(w, s, events).phase == Persisted(block, commit, ran)
    ensures ran == w.execute(Run(w, s, events).mem.start, block)
  {
    RunKeeps(w, s, events);
  }

  /** Whenever the application is ahead, it has data and its responses are stored. */
  lemma Repairable(w: World, s: Node)
    requires Inv(w, s) && s.phase.Idle? && s.app.height == s.mem.height + 1
    ensures s.app.data.Some? && s.app.height in s.disk.responses
  {
    assert StoredAs(s.disk, s.app.log[|s.app.log| - 1]);
  }

  /** An error return ends the attempt and changes nothing else; so does a panic, with the process. */
  lemma GiveUp(w: World, s: Node, events: seq<Event>)
    requires Legal(w, s, events) && Run(w, s, events).phase !in {Down, Idle}
    ensures Legal(w, s, events + [Fail]) && Run(w, s, events + [Fail]) == Run(w, s, events).(phase := Idle)
    ensures Legal(w, s, events + [Crash]) && Run(w, s, events + [Crash]) == Run(w, s, events).(phase := Down)
  {
    hide Legal, Run, LosesGenesis;
    RunSnoc(w, s, events, Fail);
    RunSnoc(w, s, events, Crash);
  }

  lemma CrashRun(w: World, s: Node, events: seq<Event>)
    requires Legal(w, s, events)
    ensures Legal(w, s, events + [Crash]) && Run(w, s, events + [Crash]) == Run(w, s, events).(phase := Down)
  {
    hide Legal, Run, LosesGenesis;
    RunSnoc(w, s, events, Crash);
  }

  lemma AlignRun(w: World, s: Node)
    requires s.phase.Idle? && s.app.height == s.mem.height + 1
    requires s.app.data.Some? && s.app.height in s.disk.responses
    ensures Legal(w, s, [Align(s.app.height)])
    ensures Run(w, s, [Align(s.app.height)]) == s.(mem := s.mem.(state := AlignedState(w, s)), phase := Aligning)
  {
    assert Legal(w, s, []) && Run(w, s, []) == s;
    hide Legal, Run, LosesGenesis, AlignedState;
    RunSnoc(w, s, [], Align(s.app.height));
    assert [] + [Align(s.app.height)] == [Align(s.app.height)];
  }

  lemma HalfAlignRun(w: World, s: Node)
    requires s.phase.Idle? && s.app.height == s.mem.height + 1 && s.app.data.Some?
    ensures Legal(w, s, [HalfAlign(s.app.height)])
    ensures Run(w, s, [HalfAlign(s.app.height)]) == s.(mem := s.mem.(state := HalfAlignedState(w, s)))
  {
    assert Legal(w, s, []) && Run(w, s, []) == s;
    hide Legal, Run, LosesGenesis, HalfAlignedState;
    RunSnoc(w, s, [], HalfAlign(s.app.height));
    assert [] + [HalfAlign(s.app.height)] == [HalfAlign(s.app.height)];
  }

  /** What alignment takes from the responses is the results hash of the application's last block. */
  lemma AlignedResults(w: World, s: Node)
    requires Inv(w, s) && s.phase.Idle? && s.app.height == s.mem.height + 1
    requires s.app.data.Some? && s.app.height in s.disk.responses
    ensures ResultsRight(w, s.app.log, AlignedState(w, s))
  {
    AlignResults(w, s, Align(s.app.height));
  }

  /** What the final state of a block takes from its execution is the results hash of the last block. */
  lemma AppliedResults(w: World, s: Node, c: Commitment)
    requires Inv(w, s) && s.phase.Idle? && s.app.height != s.mem.height + 1 == c.block.header.height
    ensures forall st, base: nat ::
              ResultsRight(w, s.app.log + [c], CompleteState(w, st, c.ran, c.block.header.height, base))
  {
    hide EntryInv, StorageInv, SetsInv, IndexWithin;
  }

  lemma AlignedRun(w: World, s: Node, events: seq<Event>)
    requires Legal(w, s, events)
    requires var t := Run(w, s, events); t.phase.Aligning? && t.mem.height < t.mem.state.lastStoreHeight
    ensures Legal(w, s, events + [WriteAligned, FinishAligned])
    ensures var t := Run(w, s, events);
            Run(w, s, events + [WriteAligned, FinishAligned]) ==
            t.(disk := t.disk.(state := Some(t.mem.state)),
               mem := t.mem.(height := t.mem.state.lastStoreHeight), phase := Idle)
  {
    hide Legal, Run, LosesGenesis;
    RunSnoc(w, s, events, WriteAligned);
    RunSnoc(w, s, events + [WriteAligned], FinishAligned);
    assert events + [WriteAligned] + [FinishAligned] == events + [WriteAligned, FinishAligned];
  }

  lemma Ahead(w: World, s: Node)
    requires Inv(w, s) && s.phase.Idle? && s.app.height != s.mem.height
    ensures s.app.height == s.mem.height + 1 == s.mem.state.lastBlockHeight
  {
    hide EntryInv, StorageInv, SetsInv, IndexWithin;
  }

  lemma StateOf(w: World, s: Node)
    requires Inv(w, s) && s.phase.Idle?
    ensures StateInv(w, s.app.log, s.mem.state)
  {
  }

  /** Every crash point is repaired: wherever the application got ahead of the store, the responses
      alignment needs are there, and aligning brings store, disk and memory to the application's
      height with the hashes of its last block. */
  lemma AlignmentRepairs(w: World, s: Node)
    requires Inv(w, s) && s.phase.Idle? && s.app.height != s.mem.height
    ensures var events := [Align(s.app.height)] + [WriteAligned, FinishAligned];
            && Legal(w, s, events)
            && var t := Run(w, s, events);
               && t.phase.Idle? && t.app == s.app
               && t.mem.height == t.app.height == t.mem.state.lastStoreHeight == t.mem.state.lastBlockHeight
               && t.disk == s.disk.(state := Some(t.mem.state))
               && StateInv(w, t.app.log, t.mem.state) && ResultsRight(w, t.app.log, t.mem.state)
  {
    hide Inv, Legal, Run, StateInv, ResultsRight;
    Ahead(w, s);
    Repairable(w, s);
    AlignRun(w, s);
    AlignedResults(w, s);
    AlignedRun(w, s, [Align(s.app.height)]);
    var events := [Align(s.app.height)] + [WriteAligned, FinishAligned];
    RunKeeps(w, s, events);
    StateOf(w, Run(w, s, events));
  }

  lemma CommittedRun(w: World, s: Node, events: seq<Event>, retainHeight: int)
    requires Legal(w, s, events) && Run(w, s, events).phase.Persisted?
    ensures Legal(w, s, events + [CommitApp(retainHeight)])
    ensures var t := Run(w, s, events);
            var Persisted(block, commit, ran) := t.phase;
            Run(w, s, events + [CommitApp(retainHeight)]) ==
            t.(app := App(Some(ran.after), block.header.height,
                          t.app.log + [Commitment(block, commit, t.mem.start, ran)]),
               mem := t.mem.(start := Some(ran.after)),
               phase := Committed(block, ran, PruneTarget(t.mem, retainHeight)))
  {
    hide Legal, Run, LosesGenesis, PruneTarget;
    RunSnoc(w, s, events, CommitApp(retainHeight));
  }

  /** The flushes of a pruning, as events. */
  lemma {:induction false} CutsRun(w: World, s: Node, done: seq<Event>, cuts: seq<Cut>)
    returns (events: seq<Event>, cut: nat)
    requires Legal(w, s, done)
    requires Run(w, s, done).phase.Committed?
    requires cuts != [] ==> Run(w, s, done).phase.retain.Some?
                            && Forward(Run(w, s, done).mem.base, cuts, Run(w, s, done).phase.retain.value)
    ensures Legal(w, s, events) && (Silent(done) ==> Silent(events))
    ensures var t := Run(w, s, done);
            Run(w, s, events) == t.(disk := AfterCuts(t.disk, t.mem.base, cuts),
                                    mem := t.mem.(base := LastBase(t.mem.base, cuts)), cut := cut)
  {
    hide Legal, Run, LosesGenesis, Prune;
    if cuts == [] {
      return done, Run(w, s, done).cut;
    }
    var last := cuts[|cuts| - 1];
    events, cut := CutsRun(w, s, done, cuts[..|cuts| - 1]);
    RunSnoc(w, s, events, Flush(last.upTo, last.newBase));
    events, cut := events + [Flush(last.upTo, last.newBase)], Max(cut, last.upTo);
  }

  lemma WrittenRun(w: World, s: Node, events: seq<Event>)
    requires Legal(w, s, events)
    requires var t := Run(w, s, events); t.phase.Committed? && t.mem.height < t.phase.block.header.height
    ensures Legal(w, s, events + [WriteState, Finish])
    ensures var t := Run(w, s, events);
            var final := CompleteState(w, t.mem.state, t.phase.ran, t.phase.block.header.height, t.mem.base);
            && final.slStateIndex == t.mem.state.slStateIndex && final.baseHeight == t.mem.base
            && Run(w, s, events + [WriteState, Finish]) ==
            t.(disk := t.disk.(state := Some(final)),
               mem := t.mem.(state := final, height := t.phase.block.header.height), phase := Idle)
  {
    hide Legal, Run, LosesGenesis;
    RunSnoc(w, s, events, WriteState);
    RunSnoc(w, s, events + [WriteState], Finish);
    assert events + [WriteState] + [Finish] == events + [WriteState, Finish];
  }

  lemma AtHeight(w: World, s: Node)
    requires Inv(w, s) && s.phase.Idle?
    ensures s.mem.state.lastBlockHeight == s.mem.height > 0 ==> s.app.height == s.mem.height
  {
    hide StorageInv, SetsInv, IndexWithin, EntryInv;
  }

  /** A state that names the application's height names its last block. */
  lemma LastBlockNamed(w: World, s: Node)
    requires Inv(w, s) && s.phase.Idle? && s.app.height > 0 && s.mem.state.lastBlockHeight == s.app.height
    ensures s.app.log != []
    ensures var last := s.app.log[|s.app.log| - 1].block.header;
            s.mem.state.lastBlockID == HashOf(last) && s.mem.state.lastBlockTime == last.time
  {
    hide StorageInv, SetsInv, IndexWithin, EntryInv;
  }

  /** The block below the next height is always there, and it is the one the application ran. */
  lemma ParentLoads(w: World, s: Node)
    requires Inv(w, s) && s.phase.Idle? && s.mem.height > 0
    ensures s.mem.height <= |s.app.log|
    ensures var parent := s.app.log[s.mem.height - 1];
            && LoadBlock(s.disk, s.mem.height) == Some(parent.block)
            && LoadCommit(s.disk, s.mem.height) == Some(parent.commit)
            && BasicCommit(parent.commit)
  {
    hide IndexWithin;
    var i := s.mem.height - 1;
    assert StoredAs(s.disk, s.app.log[i]) && EntryInv(w, s.app.log, i);
  }

  /** Block and commit are stored together. */
  lemma PendingComplete(w: World, s: Node, h: nat)
    requires Inv(w, s) && h in s.disk.index
    ensures LoadBlock(s.disk, h).Some? && LoadBlock(s.disk, h).value.header.height == h
    ensures LoadCommit(s.disk, h).Some?
  {
  }

  /** When the application is ahead, the block it ran is the pending one. */
  lemma AheadIsStored(w: World, s: Node)
    requires Inv(w, s) && s.phase.Idle?
    ensures s.app.height == s.mem.height ||
            LoadBlock(s.disk, s.mem.height + 1) == Some(s.app.log[|s.app.log| - 1].block)
  {
    hide EntryInv, IndexWithin;
    if s.app.height != s.mem.height {
      assert StoredAs(s.disk, s.app.log[s.mem.height]);
    }
  }

  /** A block built on the running state is one the node accepts. */
  lemma OwnBlockAccepted(w: World, s: Node, lastCommit: Commit, lastHash: Hash, p: Proposal, commit: Commit)
    requires Inv(w, s) && s.phase.Idle? && LoadBlock(s.disk, s.mem.height + 1) == None
    requires p.proposer != [] && BasicCommit(lastCommit)
    requires |commit.signatures| == 1 && |commit.signatures[0]| <= MAX_SIGNATURE_SIZE
    requires var block := CreateBlock(s.mem.height + 1, lastCommit, lastHash, s.mem.state, p);
             w.verifies(commit.signatures[0], block.header)
    ensures var block := CreateBlock(s.mem.height + 1, lastCommit, lastHash, s.mem.state, p);
            s.app.height == s.mem.height && Validate(w, s.mem.state, block, commit) == Accept
  {
    hide IndexWithin, EntryInv;
    AheadIsStored(w, s);
  }
}
