/**
 A commit of height 0 without signatures: it passes the basic checks, and validation panics on it
 after the block was saved.
 */
module Unsigned {
  import opened Wrappers
  import opened Chain
  import opened Kv
  import opened Recovery
  import opened RecoveryInvariant
  import opened RecoveryTheorems

  /** Every running node has such blocks at its next height, whatever they contain. */
  lemma UnsignedPanics(w: World, s: Node, lastCommit: Commit, lastHash: Hash, p: Proposal, headerHash: Hash)
    requires Inv(w, s) && s.phase.Idle? && s.app.height == s.mem.height
    requires p.proposer != [] && BasicCommit(lastCommit)
    ensures var block := CreateBlock(s.mem.height + 1, lastCommit, lastHash, s.mem.state, p);
            var commit := Commit(0, headerHash, []);
            BasicCommit(commit) && Condemned(w, s, block, commit)
  {
    hide StorageInv, SetsInv, IndexWithin, EntryInv;
  }

  /** The application is not ahead, the block is next, and validating it panics. */
  predicate Condemned(w: World, s: Node, block: Block, commit: Commit) {
    && s.phase.Idle? && s.app.height == s.mem.height && block.header.height == s.mem.height + 1
    && Validate(w, s.mem.state, block, commit) == Panic
  }

  /** What applying the block once and starting again amounts to. */
  function Round(block: Block, commit: Commit): seq<Event> {
    [Receive(block, commit), Crash, Restart]
  }

  predicate Pending(d: Disk, height: nat, block: Block, commit: Commit) {
    LoadBlock(d, height) == Some(block) && LoadCommit(d, height) == Some(commit)
  }

  /** The verdict does not depend on where a node of a certain height comes from. */
  lemma VerdictStays(w: World, s: Node, t: Node, block: Block, commit: Commit)
    requires Inv(w, s) && Inv(w, t) && t.phase.Idle? && t.app == s.app && t.mem.height == s.mem.height
    requires t.mem.state.lastResultsHash == s.mem.state.lastResultsHash && Condemned(w, s, block, commit)
    ensures Condemned(w, t, block, commit)
  {
    hide StorageInv, SetsInv, IndexWithin, EntryInv;
  }

  /** The process dies with the block saved; started again, it finds the block pending and the same
      verdict on it. */
  lemma DiesAgain(w: World, s: Node, block: Block, commit: Commit)
    requires Inv(w, s) && Condemned(w, s, block, commit) && w.sequencers != map[]
    ensures Legal(w, s, Round(block, commit))
    ensures var t := Run(w, s, Round(block, commit));
            && Inv(w, t) && Condemned(w, t, block, commit) && t.app == s.app && t.mem.height == s.mem.height
            && Pending(t.disk, t.mem.height + 1, block, commit)
  {
    hide Validate, SaveBlock, Inv, Legal, Run, Boot, NeedsInitChain, Condemned;
    assert block.header.height == s.mem.height + 1 && s.phase.Idle? && s.app.height == s.mem.height by {
      Unfold(w, s, block, commit);
    }
    RoundRun(w, s, block, commit);
    RunKeeps(w, s, Round(block, commit));
    SavedIsPending(s.disk, block, commit);
    ResumesAt(w, s, s.(disk := SaveBlock(s.disk, block, commit), phase := Down));
    VerdictStays(w, s, Run(w, s, Round(block, commit)), block, commit);
  }

  lemma Unfold(w: World, s: Node, block: Block, commit: Commit)
    requires Condemned(w, s, block, commit)
    ensures s.phase.Idle? && s.app.height == s.mem.height && block.header.height == s.mem.height + 1
  {
  }

  lemma RoundRun(w: World, s: Node, block: Block, commit: Commit)
    requires Enabled(w, s, Receive(block, commit)) && w.sequencers != map[]
    ensures Legal(w, s, Round(block, commit))
    ensures Run(w, s, Round(block, commit)) == Boot(w, s.(disk := SaveBlock(s.disk, block, commit), phase := Down))
  {
    assert Legal(w, s, []) && Run(w, s, []) == s;
    hide Legal, Run, LosesGenesis, SaveBlock, Boot;
    var e := Receive(block, commit);
    assert [] + [e] == [e] && [e] + [Crash] == [e, Crash] && [e, Crash] + [Restart] == Round(block, commit);
    RunSnoc(w, s, [], e);
    RunSnoc(w, s, [e], Crash);
    RunSnoc(w, s, [e, Crash], Restart);
  }

  lemma SavedIsPending(d: Disk, block: Block, commit: Commit)
    ensures Pending(SaveBlock(d, block, commit), block.header.height, block, commit)
    ensures SaveBlock(d, block, commit).state == d.state
  {
  }

  /** A node whose application is not ahead resumes at the height it had. */
  lemma ResumesAt(w: World, s: Node, down: Node)
    requires Inv(w, s) && s.phase.Idle? && s.app.height == s.mem.height && down.disk.state == s.disk.state
    ensures var t := Boot(w, down);
            && t.phase.Idle? && t.mem.height == s.mem.height && t.app == down.app
            && t.mem.state.lastResultsHash == s.mem.state.lastResultsHash
            && t.disk.blocks == down.disk.blocks && t.disk.commits == down.disk.commits
            && t.disk.index == down.disk.index
  {
    hide StorageInv, SetsInv, IndexWithin, EntryInv;
  }

  function Rounds(block: Block, commit: Commit, n: nat): seq<Event> {
    if n == 0 then [] else Round(block, commit) + Rounds(block, commit, n - 1)
  }

  /** So it goes on for any number of starts. */
  lemma {:induction false} DiesForever(w: World, s: Node, block: Block, commit: Commit, n: nat)
    requires Inv(w, s) && Condemned(w, s, block, commit) && w.sequencers != map[]
    ensures Legal(w, s, Rounds(block, commit, n))
    ensures var t := Run(w, s, Rounds(block, commit, n));
            && Inv(w, t) && Condemned(w, t, block, commit) && t.app == s.app && t.mem.height == s.mem.height
            && (n > 0 ==> Pending(t.disk, t.mem.height + 1, block, commit))
    decreases n
  {
    hide Inv, Condemned, Pending, Apply, Enabled, LosesGenesis;
    if n > 0 {
      DiesAgain(w, s, block, commit);
      var t := Run(w, s, Round(block, commit));
      DiesForever(w, t, block, commit, n - 1);
      RunConcat(w, s, Round(block, commit), Rounds(block, commit, n - 1));
      if n == 1 {
        assert Round(block, commit) + [] == Round(block, commit);
      }
    }
  }

  /** Runs that receive nothing but this block. */
  predicate OnlyBlock(events: seq<Event>, block: Block, commit: Commit) {
    forall e | e in events && e.Receive? :: e == Receive(block, commit)
  }

  /** Where a node can be that has nothing but a block without signature to go on with. */
  predicate Held(s: Node, app: App, results: Digest, block: Block, commit: Commit) {
    && s.app == app && commit.signatures == []
    && s.disk.state.Some? && s.disk.state.value.lastStoreHeight == app.height
    && s.disk.state.value.lastResultsHash == results
    && (!s.phase.Down? ==> s.mem.height == app.height && s.phase in {Idle, Saved(block, commit)})
  }

  lemma CondemnedHeld(w: World, s: Node, block: Block, commit: Commit)
    requires Inv(w, s) && Condemned(w, s, block, commit)
    ensures Held(s, s.app, s.mem.state.lastResultsHash, block, commit)
  {
    hide StorageInv, SetsInv, IndexWithin, EntryInv;
    ValidateExactly(w, s.mem.state, block, commit);
  }

  lemma HeldStarts(w: World, s: Node, app: App, results: Digest, block: Block, commit: Commit)
    requires Inv(w, s) && Held(s, app, results, block, commit) && s.phase.Down?
    ensures Held(Boot(w, s), app, results, block, commit)
  {
    hide StorageInv, SetsInv, IndexWithin, EntryInv, DigestAt, ResultsAt, LastBlockIs, PowersKept, Indexed, Rotate;
  }

  lemma HeldIdle(w: World, s: Node, app: App, results: Digest, block: Block, commit: Commit)
    requires Inv(w, s) && Held(s, app, results, block, commit) && s.phase.Idle?
    ensures forall height :: !Enabled(w, s, Align(height)) && !Enabled(w, s, HalfAlign(height))
    ensures s.mem.state.lastStoreHeight == app.height && s.mem.state.lastResultsHash == results
  {
    hide StorageInv, SetsInv, IndexWithin, EntryInv, DigestAt, ResultsAt, LastBlockIs, PowersKept, Indexed;
  }

  lemma HeldStep(w: World, s: Node, e: Event, app: App, results: Digest, block: Block, commit: Commit)
    requires Inv(w, s) && Held(s, app, results, block, commit) && Enabled(w, s, e)
    requires e.Receive? ==> e == Receive(block, commit)
    ensures Held(Apply(w, s, e), app, results, block, commit)
  {
    hide Inv, Boot, End;
    if e.Restart? {
      HeldStarts(w, s, app, results, block, commit);
    } else if s.phase.Idle? {
      HeldIdle(w, s, app, results, block, commit);
    }
  }

  lemma {:induction false} HeldRun(w: World, s: Node, events: seq<Event>, app: App, results: Digest,
                                   block: Block, commit: Commit)
    requires Inv(w, s) && Held(s, app, results, block, commit) && Legal(w, s, events)
    requires OnlyBlock(events, block, commit)
    ensures Held(Run(w, s, events), app, results, block, commit)
    decreases |events|
  {
    hide Inv, Held, Enabled, Apply;
    if events != [] {
      StepKeeps(w, s, events[0]);
      HeldStep(w, s, events[0], app, results, block, commit);
      assert forall e | e in events[1..] :: e in events;
      HeldRun(w, Apply(w, s, events[0]), events[1..], app, results, block, commit);
    }
  }

  lemma HeldResults(w: World, s: Node, app: App, results: Digest, block: Block, commit: Commit)
    requires Inv(w, s) && s.phase.Idle? && Held(s, app, results, block, commit)
    ensures s.mem.height == app.height && s.mem.state.lastResultsHash == results
  {
    hide StorageInv, SetsInv, IndexWithin, EntryInv;
  }

  /** In every run that receives no other block, however it crashes and starts, the application never
      moves again, and whenever the node is idle validating the block still panics. */
  lemma NeverPast(w: World, s: Node, events: seq<Event>, block: Block, commit: Commit)
    requires Inv(w, s) && Condemned(w, s, block, commit) && Legal(w, s, events) && OnlyBlock(events, block, commit)
    ensures var t := Run(w, s, events);
            t.app == s.app && (t.phase.Idle? ==> Condemned(w, t, block, commit))
  {
    ValidateExactly(w, s.mem.state, block, commit);
    hide Inv, Legal, Run, Validate, Held;
    CondemnedHeld(w, s, block, commit);
    HeldRun(w, s, events, s.app, s.mem.state.lastResultsHash, block, commit);
    RunKeeps(w, s, events);
    var t := Run(w, s, events);
    SameApp(t, s.app, s.mem.state.lastResultsHash, block, commit);
    if t.phase.Idle? {
      HeldResults(w, t, s.app, s.mem.state.lastResultsHash, block, commit);
      VerdictStays(w, s, t, block, commit);
    }
  }

  lemma SameApp(t: Node, app: App, results: Digest, block: Block, commit: Commit)
    requires Held(t, app, results, block, commit)
    ensures t.app == app
  {
  }
}
