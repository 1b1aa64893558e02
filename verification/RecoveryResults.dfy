/**
 The results hash of the stored and the running state, over every run. It is the one hash that an
 alignment can leave behind: when the responses cannot be loaded, the state already claims the new
 height.
 */
module RecoveryResults {
  import opened Wrappers
  import opened Chain
  import opened Kv
  import opened Recovery
  import opened RecoveryInvariant

  /** Whether the last alignment since the process started failed to load the responses. */
  function TornAfter(torn: bool, e: Event): bool {
    match e
    case HalfAlign(_) => true
    case Align(_) => false
    case Restart => false
    case _ => torn
  }

  function TornAfterAll(torn: bool, events: seq<Event>): bool
    decreases |events|
  {
    if events == [] then torn else TornAfterAll(TornAfter(torn, events[0]), events[1..])
  }

  /** The index update writes a half-aligned state whose results hash is not that of the responses which
      could not be loaded. */
  predicate Tear(w: World, s: Node, e: Event, torn: bool) {
    e.WriteIndex? && torn && s.mem.state.lastResultsHash != ResultsAt(w, s.app.log, |s.app.log|)
  }

  /** Some index update between a failed load and the next alignment does. */
  predicate Tears(w: World, s: Node, events: seq<Event>, torn: bool)
    requires Legal(w, s, events)
    decreases |events|
  {
    events != [] &&
    (Tear(w, s, events[0], torn) || Tears(w, Apply(w, s, events[0]), events[1..], TornAfter(torn, events[0])))
  }

  predicate ResultsRight(w: World, log: seq<Commitment>, st: State) {
    st.lastStoreHeight <= |log| && st.lastResultsHash == ResultsAt(w, log, st.lastStoreHeight)
  }

  predicate StoredRight(w: World, s: Node) {
    s.disk.state.Some? ==> ResultsRight(w, s.app.log, s.disk.state.value)
  }

  predicate StoredRightThroughout(w: World, s: Node, events: seq<Event>)
    requires Legal(w, s, events)
    decreases |events|
  {
    StoredRight(w, s) && (events != [] ==> StoredRightThroughout(w, Apply(w, s, events[0]), events[1..]))
  }

  /** Every committed block names the results its predecessor left. */
  predicate ResultsNamed(w: World, log: seq<Commitment>) {
    forall i | 0 <= i < |log| :: NamesResults(w, log, i, log[i].block)
  }

  predicate NamesResults(w: World, log: seq<Commitment>, i: nat, block: Block)
    requires i <= |log|
  {
    block.header.lastResultsHash == ResultsAt(w, log, i)
  }

  predicate ResultsInv(w: World, s: Node, torn: bool) {
    && ResultsNamed(w, s.app.log) && StoredRight(w, s)
    && (!s.phase.Down? && !torn ==> ResultsRight(w, s.app.log, s.mem.state))
    && (!s.phase.Down? && torn ==>
          s.phase.Idle? && |s.app.log| == s.mem.height + 1 == s.mem.state.lastStoreHeight)
    && (s.phase.Executed? || s.phase.Persisted? ==> NamesResults(w, s.app.log, |s.app.log|, s.phase.block))
  }

  lemma NamedSnoc(w: World, log: seq<Commitment>, c: Commitment)
    requires ResultsNamed(w, log) && NamesResults(w, log, |log|, c.block)
    ensures ResultsNamed(w, log + [c])
  {
    forall i | 0 <= i < |log + [c]|
      ensures NamesResults(w, log + [c], i, (log + [c])[i].block)
    {
      assert i < |log| ==> NamesResults(w, log, i, log[i].block);
    }
  }

  lemma CommitResults(w: World, s: Node, e: Event)
    requires Inv(w, s) && Enabled(w, s, e) && ResultsInv(w, s, false) && e.CommitApp?
    ensures ResultsInv(w, Apply(w, s, e), false)
  {
    hide LogInv, StorageInv, SetsInv, IndexWithin, Extends, IndexSound, PowersKept, LastBlockIs, ResultsNamed;
    NamedSnoc(w, s.app.log, Commitment(s.phase.block, s.phase.commit, s.mem.start, s.phase.ran));
  }

  lemma ExecuteResults(w: World, s: Node, e: Event)
    requires Inv(w, s) && Enabled(w, s, e) && ResultsInv(w, s, false) && e.Execute?
    ensures ResultsInv(w, Apply(w, s, e), false)
  {
    hide StorageInv, SetsInv, IndexWithin, Extends, IndexSound, PowersKept, LastBlockIs, ResultsNamed, EntryInv;
  }

  lemma OtherResults(w: World, s: Node, e: Event, torn: bool)
    requires Inv(w, s) && Enabled(w, s, e) && ResultsInv(w, s, torn) && !Tear(w, s, e, torn)
    requires !e.CommitApp? && !e.Execute? && !Writes(e)
    ensures ResultsInv(w, Apply(w, s, e), TornAfter(torn, e))
  {
    hide StorageInv, SetsInv, IndexWithin, Extends, IndexSound, PowersKept, LastBlockIs, ResultsNamed, EntryInv,
         Indexed;
    if e.Align? {
      AlignResults(w, s, e);
    }
  }

  lemma WriteResults(w: World, s: Node, e: Event, torn: bool)
    requires Inv(w, s) && Enabled(w, s, e) && ResultsInv(w, s, torn) && Writes(e)
    ensures ResultsInv(w, Apply(w, s, e), TornAfter(torn, e))
  {
    hide StorageInv, SetsInv, IndexWithin, Extends, IndexSound, PowersKept, LastBlockIs, ResultsNamed, EntryInv,
         Indexed;
    StepKeeps(w, s, e);
  }

  predicate Writes(e: Event) {
    e.WriteState? || e.Finish? || e.WriteAligned? || e.FinishAligned? || e.Restart?
  }

  lemma AlignResults(w: World, s: Node, e: Event)
    requires Inv(w, s) && Enabled(w, s, e) && e.Align?
    ensures ResultsRight(w, s.app.log, AlignedState(w, s))
  {
    StepKeeps(w, s, e);
    hide StorageInv, SetsInv, IndexWithin, Extends, IndexSound, PowersKept, LastBlockIs, EntryInv;
  }

  /** Only a tear leaves a wrong results hash in the store, and it does. */
  lemma ResultsStep(w: World, s: Node, e: Event, torn: bool)
    requires Inv(w, s) && Enabled(w, s, e) && ResultsInv(w, s, torn)
    ensures !Tear(w, s, e, torn) ==> ResultsInv(w, Apply(w, s, e), TornAfter(torn, e))
    ensures Tear(w, s, e, torn) ==> !StoredRight(w, Apply(w, s, e))
  {
    hide Inv;
    if Tear(w, s, e, torn) {
      assert Apply(w, s, e).disk.state == Some(s.mem.state);
    } else if e.CommitApp? {
      CommitResults(w, s, e);
    } else if e.Execute? {
      ExecuteResults(w, s, e);
    } else if Writes(e) {
      WriteResults(w, s, e, torn);
    } else {
      OtherResults(w, s, e, torn);
    }
  }

  lemma {:induction false} ResultsRun(w: World, s: Node, events: seq<Event>, torn: bool)
    requires Inv(w, s) && Legal(w, s, events) && ResultsInv(w, s, torn)
    ensures StoredRightThroughout(w, s, events) <==> !Tears(w, s, events, torn)
    ensures !Tears(w, s, events, torn) ==> ResultsInv(w, Run(w, s, events), TornAfterAll(torn, events))
    decreases |events|
  {
    hide Inv, Enabled, Apply, ResultsNamed, Tear, TornAfter;
    if events != [] {
      StepKeeps(w, s, events[0]);
      ResultsStep(w, s, events[0], torn);
      if !Tear(w, s, events[0], torn) {
        ResultsRun(w, Apply(w, s, events[0]), events[1..], TornAfter(torn, events[0]));
      } else {
        NotThroughout(w, Apply(w, s, events[0]), events[1..]);
      }
    }
  }

  lemma NotThroughout(w: World, s: Node, events: seq<Event>)
    requires Legal(w, s, events) && !StoredRight(w, s)
    ensures !StoredRightThroughout(w, s, events)
  {
  }

  /** The stored results hash is that of the stored height, throughout a run with crashes, if and only if
      no index update tears: none falls between a failed load of the responses and the next alignment,
      with a results hash that differs. Then every committed block names the results of its predecessor. */
  lemma ResultsExactly(w: World, s: Node, events: seq<Event>)
    requires Fresh(s) && Legal(w, s, events)
    ensures StoredRightThroughout(w, s, events) <==> !Tears(w, s, events, false)
    ensures !Tears(w, s, events, false) ==>
              && ResultsInv(w, Run(w, s, events), TornAfterAll(false, events))
              && ResultsNamed(w, Run(w, s, events).app.log)
  {
    FreshInv(w, s);
    hide Inv;
    ResultsRun(w, s, events, false);
  }
}
