/**
 The settlement index of a node against its store, over every run.
 */
module RecoveryFloor {
  import opened Wrappers
  import opened Chain
  import opened Kv
  import opened Recovery
  import opened RecoveryInvariant

  /** The hub batch a state says it is synced with ends at or below the given height. */
  predicate SyncedBelow(hub: seq<nat>, st: State, height: nat) {
    st.slStateIndex <= |hub| && End(hub, st.slStateIndex) <= height
  }

  /** The store is not below the end of the hub batch that the state, in memory or on disk, names. */
  predicate AboveFloor(s: Node) {
    && (s.disk.state.Some? ==> SyncedBelow(s.hub, s.disk.state.value, DiskHeight(s.disk)))
    && (!s.phase.Down? ==> SyncedBelow(s.hub, s.mem.state, s.mem.height))
  }

  /** A batch is noted whose end is not stored. */
  predicate EarlyNote(w: World, s: Node, e: Event)
    requires Enabled(w, s, e)
  {
    e.NoteBatch? && End(s.hub, s.mem.state.slStateIndex + 1) > s.mem.height
  }

  predicate NotesEarly(w: World, s: Node, events: seq<Event>)
    requires Legal(w, s, events)
    decreases |events|
  {
    events != [] && (EarlyNote(w, s, events[0]) || NotesEarly(w, Apply(w, s, events[0]), events[1..]))
  }

  predicate AboveFloorThroughout(w: World, s: Node, events: seq<Event>)
    requires Legal(w, s, events)
    decreases |events|
  {
    AboveFloor(s) && (events != [] ==> AboveFloorThroughout(w, Apply(w, s, events[0]), events[1..]))
  }

  lemma AboveFloorStep(w: World, s: Node, e: Event)
    requires Inv(w, s) && Enabled(w, s, e) && AboveFloor(s)
    ensures AboveFloor(Apply(w, s, e)) <==> !EarlyNote(w, s, e)
  {
    hide LogInv, StorageInv, SetsInv, IndexWithin, Extends, IndexSound, DigestAt, ResultsAt, PowersKept, EntryInv,
         LastBlockIs;
    if e.HubAccepts? {
      var s' := Apply(w, s, e);
      assert forall i | 0 <= i <= |s.hub| :: End(s'.hub, i) == End(s.hub, i);
    } else {
      OwnFloorStep(w, s, e);
    }
  }

  lemma OwnFloorStep(w: World, s: Node, e: Event)
    requires Inv(w, s) && Enabled(w, s, e) && AboveFloor(s) && !e.HubAccepts?
    ensures AboveFloor(Apply(w, s, e)) <==> !EarlyNote(w, s, e)
  {
    hide LogInv, StorageInv, SetsInv, IndexWithin, Extends, IndexSound, DigestAt, ResultsAt, PowersKept, EntryInv,
         LastBlockIs, End, Indexed;
    EndZero(s.hub);
    match e
    case Restart => { StepKeeps(w, s, e); }
    case _ => { }
  }

  lemma EndZero(hub: seq<nat>)
    ensures End(hub, 0) == 0
  {
  }

  lemma {:induction false} AboveFloorRun(w: World, s: Node, events: seq<Event>)
    requires Inv(w, s) && Legal(w, s, events) && AboveFloor(s)
    ensures AboveFloorThroughout(w, s, events) <==> !NotesEarly(w, s, events)
    decreases |events|
  {
    hide Inv, Enabled, Apply, AboveFloor, EarlyNote;
    if events != [] {
      StepKeeps(w, s, events[0]);
      AboveFloorStep(w, s, events[0]);
      if !EarlyNote(w, s, events[0]) {
        AboveFloorRun(w, Apply(w, s, events[0]), events[1..]);
      }
    }
  }

  /** Sync floor: through crashes, restarts and repeated fetches the store is never below the end of the
      hub batch its state names, if and only if no batch is ever noted before its end is stored. */
  lemma SyncFloor(w: World, s: Node, events: seq<Event>)
    requires Fresh(s) && Legal(w, s, events)
    ensures AboveFloorThroughout(w, s, events) <==> !NotesEarly(w, s, events)
  {
    FreshInv(w, s);
    AboveFloorRun(w, s, events);
  }

  /** Runs without notes. */
  predicate Silent(events: seq<Event>) {
    forall e | e in events :: !e.NoteBatch?
  }

  lemma {:induction false} SilentRun(w: World, s: Node, events: seq<Event>)
    requires Legal(w, s, events) && Silent(events)
    ensures !NotesEarly(w, s, events)
    decreases |events|
  {
    hide Enabled, Apply;
    if events != [] {
      SilentRun(w, Apply(w, s, events[0]), events[1..]);
    }
  }

  /** A note and what follows it silently. */
  lemma NoteRun(w: World, s: Node, events: seq<Event>)
    requires Legal(w, s, events) && events != [] && events[0].NoteBatch? && Silent(events[1..])
    ensures NotesEarly(w, s, events) <==> EarlyNote(w, s, NoteBatch)
  {
    hide Enabled, Apply;
    SilentRun(w, Apply(w, s, events[0]), events[1..]);
  }

  lemma SilentConcat(xs: seq<Event>, ys: seq<Event>)
    requires Silent(xs) && Silent(ys)
    ensures Silent(xs + ys)
  {
  }

  lemma {:induction false} NotesConcat(w: World, s: Node, xs: seq<Event>, ys: seq<Event>)
    requires Legal(w, s, xs) && Legal(w, Run(w, s, xs), ys)
    ensures Legal(w, s, xs + ys)
    ensures NotesEarly(w, s, xs + ys) == (NotesEarly(w, s, xs) || NotesEarly(w, Run(w, s, xs), ys))
    decreases |xs|
  {
    hide Enabled, Apply, EarlyNote;
    if xs == [] {
      assert xs + ys == ys;
    } else {
      NotesConcat(w, Apply(w, s, xs[0]), xs[1..], ys);
      assert (xs + ys)[0] == xs[0] && (xs + ys)[1..] == xs[1..] + ys;
    }
  }
}
