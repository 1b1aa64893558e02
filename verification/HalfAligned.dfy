/**
 An alignment that cannot load the responses leaves a state in memory that claims the new height with
 the old results hash. What becomes of it when an index update writes it.
 */
module HalfAligned {
  import opened Wrappers
  import opened Chain
  import opened Kv
  import opened Recovery
  import opened RecoveryInvariant
  import opened RecoveryResults
  import opened RecoveryTheorems
  import opened RecoverySteps
  import opened CanonicalChain

  /** The application is ahead, and the next batch to note ends within the store, so that noting it
      applies nothing. */
  predicate Exposed(s: Node) {
    && s.phase.Idle? && s.app.height != s.mem.height
    && s.mem.state.slStateIndex < |s.hub| && End(s.hub, s.mem.state.slStateIndex + 1) <= s.mem.height
  }

  function TornEvents(s: Node): seq<Event> {
    [HalfAlign(s.app.height), NoteBatch, WriteIndex, Crash, Restart]
  }

  /** The state that the index update writes. */
  function TornState(w: World, s: Node): State
    requires s.app.data.Some?
  {
    HalfAlignedState(w, s).(slStateIndex := s.mem.state.slStateIndex + 1)
  }

  lemma TornWritten(w: World, s: Node)
    requires Inv(w, s) && Exposed(s) && s.app.data.Some? && s.app.height == s.mem.height + 1
    ensures Legal(w, s, TornEvents(s)[..3])
    ensures Run(w, s, TornEvents(s)[..3]) ==
            s.(mem := s.mem.(state := TornState(w, s)), disk := s.disk.(state := Some(TornState(w, s))))
  {
    hide Inv, Legal, Run, LosesGenesis;
    var e := HalfAlign(s.app.height);
    HalfAlignRun(w, s);
    assert [e] + [NoteBatch] == [e, NoteBatch] && [e, NoteBatch] + [WriteIndex] == TornEvents(s)[..3];
    RunSnoc(w, s, [e], NoteBatch);
    RunSnoc(w, s, [e, NoteBatch], WriteIndex);
  }

  /** Starting again, the node stands at the application's height with the results hash it had before. */
  lemma TornRun(w: World, s: Node)
    requires Inv(w, s) && Exposed(s)
    ensures Legal(w, s, TornEvents(s))
    ensures var t := Run(w, s, TornEvents(s));
            && Inv(w, t) && t.phase.Idle? && t.app == s.app && t.mem.height == t.app.height
            && t.mem.state.lastStoreHeight == t.app.height
            && t.mem.state.lastResultsHash == s.mem.state.lastResultsHash
            && t.disk.state == Some(t.mem.state)
  {
    hide Inv, Legal, Run, LosesGenesis;
    Ahead(w, s);
    Repairable(w, s);
    TornWritten(w, s);
    var written := TornEvents(s)[..3];
    assert written + [Crash] + [Restart] == TornEvents(s);
    RunSnoc(w, s, written, Crash);
    RunSnoc(w, s, written + [Crash], Restart);
    RunKeeps(w, s, TornEvents(s));
  }

  /** That run tears exactly when the two results hashes differ. */
  lemma TornTears(w: World, s: Node)
    requires Inv(w, s) && Exposed(s) && Legal(w, s, TornEvents(s))
    ensures Tears(w, s, TornEvents(s), false) <==>
            s.mem.state.lastResultsHash != ResultsAt(w, s.app.log, |s.app.log|)
  {
    hide Inv, ResultsAt;
    var e := HalfAlign(s.app.height);
    var s1 := Apply(w, s, e);
    var s2 := Apply(w, s1, NoteBatch);
    var s3 := Apply(w, s2, WriteIndex);
    var events := TornEvents(s);
    assert events[1..] == [NoteBatch, WriteIndex, Crash, Restart];
    assert events[1..][1..] == [WriteIndex, Crash, Restart];
    assert events[1..][1..][1..] == [Crash, Restart];
    assert Tears(w, s, events, false) == Tears(w, s1, events[1..], true);
    assert Tears(w, s1, events[1..], true) == Tears(w, s2, events[1..][1..], true);
    NoTears(w, s3, [Crash, Restart]);
  }

  lemma {:induction false} NoTears(w: World, s: Node, events: seq<Event>)
    requires Legal(w, s, events) && forall e | e in events :: !e.WriteIndex?
    ensures !Tears(w, s, events, true) && !Tears(w, s, events, false)
    decreases |events|
  {
    hide Enabled, Apply;
    if events != [] {
      NoTears(w, Apply(w, s, events[0]), events[1..]);
    }
  }

  /** If the hashes differ, the node rejects the next block of the chain it has followed so far. */
  lemma TornRejects(w: World, s: Node, chain: seq<Signed>)
    requires Inv(w, s) && Exposed(s) && Canonical(w, chain) && OnChain(w, s, chain)
    requires s.app.height < |chain|
    requires s.mem.state.lastResultsHash != ResultsAt(w, s.app.log, |s.app.log|)
    ensures Legal(w, s, TornEvents(s))
    ensures var t := Run(w, s, TornEvents(s));
            var next := chain[s.app.height];
            Validate(w, t.mem.state, next.block, next.commit) == Reject
  {
    hide Inv, Run, Legal, Validate, OnChain, Canonical;
    TornRun(w, s);
    Ahead(w, s);
    HeightOfLog(w, s);
    ChainNames(w, s, chain);
    WrongResults(w, Run(w, s, TornEvents(s)).mem.state, chain[s.app.height].block, chain[s.app.height].commit);
  }

  lemma HeightOfLog(w: World, s: Node)
    requires Inv(w, s)
    ensures s.app.height == |s.app.log|
  {
  }

  lemma ChainNames(w: World, s: Node, chain: seq<Signed>)
    requires Inv(w, s) && Canonical(w, chain) && OnChain(w, s, chain) && |s.app.log| < |chain| && s.app.log != []
    ensures chain[|s.app.log|].block.header.lastResultsHash == ResultsAt(w, s.app.log, |s.app.log|)
  {
    hide StorageInv, SetsInv, IndexWithin, EntryInv, CrashFree;
    var n := |s.app.log|;
    LogIsCrashFree(w, s.app, n);
    assert Blocks(s.app.log)[..n] == BlocksOf(chain)[..n];
    assert Links(w, chain, n);
  }

  lemma WrongResults(w: World, st: State, block: Block, commit: Commit)
    requires block.header.lastResultsHash != st.lastResultsHash
    ensures Validate(w, st, block, commit) == Reject
  {
  }
}
