/**
 Which blocks a submission takes from the store. It ends at the last block that the running state
 names, which may be one that the application has not run.
 */
module Submission {
  import opened Wrappers
  import opened Chain
  import opened Kv
  import opened Recovery
  import opened RecoveryInvariant
  import opened RecoveryTheorems
  import opened RecoverySteps

  /** Every block from `start` to the last one the state names is one the application ran. */
  predicate AllRan(s: Node, start: nat)
    requires 1 <= start
  {
    forall h | start <= h <= s.mem.state.lastBlockHeight ::
      && h <= |s.app.log|
      && LoadBlock(s.disk, h) == Some(s.app.log[h - 1].block)
      && LoadCommit(s.disk, h) == Some(s.app.log[h - 1].commit)
  }

  /** Everything a submission asks for loads; all of it was run if and only if the state names no block
      above the application's height. */
  lemma SubmittedRan(w: World, s: Node, start: nat)
    requires Inv(w, s) && s.phase.Idle? && s.cut <= start <= s.mem.state.lastBlockHeight
    ensures 1 <= start && forall h | start <= h <= s.mem.state.lastBlockHeight :: Loadable(s.disk, h)
    ensures AllRan(s, start) <==> s.mem.state.lastBlockHeight == s.app.height
  {
    hide EntryInv, IndexWithin, IndexSound, DigestAt, PowersKept, LastBlockIs;
    forall h | start <= h <= s.mem.state.lastBlockHeight
      ensures Loadable(s.disk, h)
      ensures h <= |s.app.log| ==> LoadBlock(s.disk, h) == Some(s.app.log[h - 1].block)
                                   && LoadCommit(s.disk, h) == Some(s.app.log[h - 1].commit)
    {
      if h <= |s.app.log| {
        assert StoredAs(s.disk, s.app.log[h - 1]);
      }
    }
    assert s.mem.state.lastBlockHeight > |s.app.log| ==> !AllRan(s, start);
  }

  /** A good block is attempted, the process dies before the application commits it, and another block of
      that height arrives: it is what the next submission takes, whatever it holds and whoever signed it. */
  lemma UnranSubmitted(w: World, s: Node, a: Block, ca: Commit, b: Block, cb: Commit)
    requires Inv(w, s) && s.phase.Idle? && s.app.height == s.mem.height
    requires a.header.height == b.header.height == s.mem.height + 1
    requires Validate(w, s.mem.state, a, ca) == Accept
    ensures var events := [Receive(a, ca), Execute, Persist, Crash, Restart, Receive(b, cb), Fail];
            && Legal(w, s, events)
            && var t := Run(w, s, events);
               && Inv(w, t) && t.phase.Idle? && t.app == s.app
               && t.mem.state.lastBlockHeight == b.header.height == t.app.height + 1
               && LoadBlock(t.disk, b.header.height) == Some(b) && LoadCommit(t.disk, b.header.height) == Some(cb)
  {
    hide Inv, Legal, Run, LosesGenesis, Validate;
    HeightIs(w, s);
    AttemptRun(w, s, a, ca);
    var events := [Receive(a, ca), Execute, Persist];
    AfterCrash(w, s, events, b, cb);
    assert events + [Crash, Restart, Receive(b, cb), Fail]
        == [Receive(a, ca), Execute, Persist, Crash, Restart, Receive(b, cb), Fail];
  }

  lemma HeightIs(w: World, s: Node)
    requires Inv(w, s) && s.phase.Idle?
    ensures s.app.height == s.mem.height ==> s.mem.state.lastStoreHeight == s.mem.height
  {
    hide EntryInv, StorageInv, SetsInv, IndexWithin;
  }

  /** From a persisted attempt on. */
  lemma AfterCrash(w: World, s: Node, events: seq<Event>, b: Block, cb: Commit)
    requires Inv(w, s) && Legal(w, s, events)
    requires var t := Run(w, s, events);
             && t.phase.Persisted? && t.app == s.app
             && b.header.height == t.mem.state.lastBlockHeight == t.app.height + 1
             && t.disk.state == Some(t.mem.state) && t.mem.state.lastStoreHeight == t.app.height
    ensures var all := events + [Crash, Restart, Receive(b, cb), Fail];
            && Legal(w, s, all)
            && var t := Run(w, s, all);
               && Inv(w, t) && t.phase.Idle? && t.app == s.app
               && t.mem.state.lastBlockHeight == b.header.height == t.app.height + 1
               && LoadBlock(t.disk, b.header.height) == Some(b) && LoadCommit(t.disk, b.header.height) == Some(cb)
  {
    hide Inv, Legal, Run, LosesGenesis;
    RunSnoc(w, s, events, Crash);
    RunSnoc(w, s, events + [Crash], Restart);
    RunSnoc(w, s, events + [Crash] + [Restart], Receive(b, cb));
    RunSnoc(w, s, events + [Crash] + [Restart] + [Receive(b, cb)], Fail);
    var all := events + [Crash, Restart, Receive(b, cb), Fail];
    assert events + [Crash] + [Restart] + [Receive(b, cb)] + [Fail] == all;
    RunKeeps(w, s, all);
  }
}
