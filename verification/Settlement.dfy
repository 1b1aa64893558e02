/**
 Batch submission and acceptance: the submit loop (block/submit.go), the sync target loop
 (block/synctarget.go), waitForSync (block/produce.go), the settlement client (settlement/base.go)
 and the hub it posts to (settlement/mock/mock.go), as one transition system. Events travel
 hub -> client -> manager in order; both queues live in the process and die with it.
 */
module Settlement {
  import opened Wrappers

  datatype Batch = Batch(start: nat, end: nat)

  /** The accepted batches by state index. Indices start at 1 and the last one is the latest. */
  type Hub = seq<Batch>

  /** The start-up fetch of the sync target loop: subscribe, read the latest batch, store its end. */
  datatype Loop = LoopNew | Subscribed | LoopRead(end: Option<nat>) | Listening

  /** waitForSync: read the latest batch, store its end, wait for the store to reach the target. */
  datatype Wait = WaitNew | WaitRead(end: Option<nat>) | Stored | Producing

  datatype Submission = Idle | Flagged | Drafted(batch: Batch)

  datatype System = System(
    hub: Hub,
    height: nat,                // store
    cut: nat,                   // the lowest height that pruning has left
    up: bool,
    latestHeight: nat,          // settlement client
    syncTarget: nat,            // manager
    batchInProcess: bool,
    submission: Submission,     // where the submit loop stands
    toClient: seq<nat>,         // accepted batches the client has not heard of
    toManager: seq<nat>,        // accepted batches the manager has not heard of
    loop: Loop,
    wait: Wait)

  datatype Event =
    | Tick
    | EmptyBlock
    | Draft(end: nat)
    | GiveUp
    | Post
    | ClientHears
    | ManagerHears
    | Subscribe
    | LoopReads
    | LoopStores
    | WaitReads
    | WaitStores
    | WaitEnds
    | Produce
    | Gossip
    | Retrieve(height: nat)
    | Prune(to: nat)
    | Crash
    | Start

  /** retrieveBatchAtStateIndex */
  function BatchAt(hub: Hub, index: nat): Option<Batch> {
    if 1 <= index <= |hub| then Some(hub[index - 1]) else None
  }

  function LatestEnd(hub: Hub): Option<nat> {
    var b := BatchAt(hub, |hub|);
    if b.Some? then Some(b.value.end) else None
  }

  function Height(end: Option<nat>): nat {
    if end.Some? then end.value else 0
  }

  function Latest(s: System): nat {
    Height(LatestEnd(s.hub))
  }

  /** saveBatch */
  function Save(hub: Hub, b: Batch): Hub {
    hub + [b]
  }

  /** validateBatch; SubmitBatch panics when it fails. */
  predicate ValidBatch(latestHeight: nat, b: Batch) {
    b.start == latestHeight + 1 && b.start <= b.end
  }

  /** A draft needs the blocks from its start on, unless it has none. It ends at the last block the state
      names, which may be one above the store, or lower when the size limit cuts it, down to the height
      before its start. */
  predicate Enabled(s: System, e: Event) {
    match e
    case Tick => s.up && s.submission.Idle? && s.height != s.syncTarget && !s.batchInProcess
    case EmptyBlock => s.up && s.submission.Flagged?
    case Draft(end) =>
      && s.up && s.submission.Flagged? && s.syncTarget <= end <= s.height + 1
      && (s.cut <= s.syncTarget + 1 || s.height <= s.syncTarget)
    case GiveUp => s.up && s.submission.Flagged?
    case Post => s.up && s.submission.Drafted? && ValidBatch(s.latestHeight, s.submission.batch)
    case ClientHears => s.up && s.toClient != []
    case ManagerHears => s.up && s.toManager != [] && s.loop.Listening?
    case Subscribe => s.up && s.loop.LoopNew?
    case LoopReads => s.up && s.loop.Subscribed?
    case LoopStores => s.up && s.loop.LoopRead?
    case WaitReads => s.up && s.wait.WaitNew?
    case WaitStores => s.up && s.wait.WaitRead?
    case WaitEnds => s.up && s.wait.Stored? && s.syncTarget <= s.height
    case Produce => s.up && s.wait.Producing?
    case Gossip => s.up
    case Retrieve(height) => s.up && s.height < height <= Latest(s)
    case Prune(to) => s.up && s.cut < to <= s.height && to <= s.syncTarget
    case Crash => true
    case Start => !s.up
  }

  function Apply(s: System, e: Event): System
    requires Enabled(s, e)
  {
    match e
    case Tick => s.(batchInProcess := true, submission := Flagged)
    case EmptyBlock => s.(height := s.height + 1)
    case Draft(end) => s.(submission := Drafted(Batch(s.syncTarget + 1, end)))
    case GiveUp => s.(submission := Idle)
    case Post =>
      var b := s.submission.batch;
      s.(hub := Save(s.hub, b), toClient := s.toClient + [b.end], submission := Idle)
    case ClientHears =>
      // events published before the loop subscribed are nobody's
      s.(latestHeight := s.toClient[0], toClient := s.toClient[1..],
         toManager := if s.loop.LoopNew? then s.toManager else s.toManager + [s.toClient[0]])
    case ManagerHears =>
      s.(syncTarget := s.toManager[0], batchInProcess := false, toManager := s.toManager[1..])
    case Subscribe => s.(loop := Subscribed)
    case LoopReads => s.(loop := LoopRead(LatestEnd(s.hub)))
    case LoopStores =>
      if s.loop.end.Some? then s.(syncTarget := s.loop.end.value, loop := Listening) else s.(loop := Listening)
    case WaitReads => s.(wait := WaitRead(LatestEnd(s.hub)))
    case WaitStores =>
      s.(syncTarget := Height(s.wait.end), wait := if s.wait.end.Some? then Stored else Producing)
    case WaitEnds => s.(wait := Producing)
    case Produce => s.(height := s.height + 1)
    case Gossip => s.(height := s.height + 1)
    case Retrieve(height) => s.(height := height)
    case Prune(to) => s.(cut := to)
    case Crash => s.(up := false)
    case Start => System(s.hub, s.height, s.cut, true, Latest(s), 0, false, Idle, [], [], LoopNew, WaitNew)
  }

  predicate Legal(s: System, events: seq<Event>)
    decreases |events|
  {
    events == [] || (Enabled(s, events[0]) && Legal(Apply(s, events[0]), events[1..]))
  }

  function Run(s: System, events: seq<Event>): System
    requires Legal(s, events)
    decreases |events|
  {
    if events == [] then s else Run(Apply(s, events[0]), events[1..])
  }

  predicate Fresh(s: System) {
    s.hub == [] && s.height == 0 && s.cut == 1 && !s.up
  }

  // What the order of events tells about a run

  /** Since the process started: was a batch posted, was one posted since waitForSync read the latest
      batch, and did waitForSync store what it read after such a post, with no later store by the loop. */
  datatype Trace = Trace(posted: bool, overtaking: bool, overtaken: bool)

  const NEW := Trace(false, false, false)

  function Follow(t: Trace, e: Event): Trace {
    match e
    case Start => NEW
    case Post => t.(posted := true, overtaking := true)
    case WaitReads => t.(overtaking := false)
    case WaitStores => t.(overtaken := t.overtaking)
    case LoopStores => t.(overtaken := false)
    case ManagerHears => t.(overtaken := false)
    case _ => t
  }

  function FollowAll(t: Trace, events: seq<Event>): Trace
    decreases |events|
  {
    if events == [] then t else FollowAll(Follow(t, events[0]), events[1..])
  }

  /** A batch was posted between the read and the store of waitForSync, and nothing came after that store. */
  predicate Overtaken(events: seq<Event>) {
    FollowAll(NEW, events).overtaken
  }

  /** The batches cover the heights from 1 on without gap or overlap. */
  predicate Tiled(hub: Hub) {
    forall i | 0 <= i < |hub| :: FollowsOn(hub, i)
  }

  predicate FollowsOn(hub: Hub, i: nat)
    requires i < |hub|
  {
    hub[i].start == (if i == 0 then 1 else hub[i - 1].end + 1) && hub[i].start <= hub[i].end
  }

  /** Nothing is on its way. */
  predicate Quiet(s: System) {
    s.toClient == [] && s.toManager == []
  }

  /** One accepted batch is on its way, and nothing is submitted meanwhile. */
  predicate Underway(s: System) {
    && s.batchInProcess && s.submission.Idle?
    && ((s.toClient == [Latest(s)] && s.toManager == []) || (s.toClient == [] && s.toManager == [Latest(s)]))
  }

  predicate TargetInv(s: System, t: Trace) {
    && (s.loop.LoopRead? && Quiet(s) ==> s.loop.end == LatestEnd(s.hub))
    && (s.loop.Listening? && Quiet(s) ==> (t.overtaken <==> s.syncTarget != Latest(s)))
    && (!s.loop.Listening? && t.posted ==> s.batchInProcess && s.submission.Idle?)
    && (!s.loop.Listening? && !t.posted ==>
          s.syncTarget == if s.wait.Stored? || s.wait.Producing? then Latest(s) else 0)
    && (s.wait.WaitRead? ==>
          if t.overtaking then Height(s.wait.end) < Latest(s) else s.wait.end == LatestEnd(s.hub))
    && (s.loop.LoopRead? ==> Height(s.loop.end) <= Latest(s)) && s.syncTarget <= Latest(s)
    && (t.overtaking ==> t.posted) && (t.overtaken ==> t.posted)
  }

  predicate Inv(s: System, t: Trace) {
    && Tiled(s.hub) && (s.cut <= 1 || s.cut <= Latest(s))
    && (s.up ==>
          && (Quiet(s) || Underway(s))
          && (s.toClient == [] ==> s.latestHeight == Latest(s))
          && (!s.submission.Idle? ==> s.batchInProcess)
          && (s.hub == [] ==> s.syncTarget == 0 && !t.posted && Quiet(s))
          && TargetInv(s, t))
  }

  lemma TiledSnoc(hub: Hub, b: Batch)
    requires Tiled(hub) && ValidBatch(Height(LatestEnd(hub)), b)
    ensures Tiled(hub + [b])
  {
    var hub' := hub + [b];
    forall i | 0 <= i < |hub'|
      ensures FollowsOn(hub', i)
    {
      if i < |hub| {
        assert FollowsOn(hub, i);
      }
    }
  }

  lemma PostKeeps(s: System, t: Trace)
    requires Inv(s, t) && Enabled(s, Post)
    ensures Inv(Apply(s, Post), Follow(t, Post)) && Apply(s, Post).hub == s.hub + [s.submission.batch]
  {
    hide Tiled;
    var b := s.submission.batch;
    var s' := Apply(s, Post);
    assert Quiet(s) && s'.toClient == [b.end] && s'.toManager == [];
    assert s'.hub[|s.hub|] == b && Latest(s') == b.end;
    TiledSnoc(s.hub, b);
  }

  lemma NoBatch(hub: Hub)
    ensures LatestEnd(hub) == None <==> hub == []
  {
  }

  lemma HearKeeps(s: System, t: Trace, e: Event)
    requires Inv(s, t) && Enabled(s, e) && (e.ClientHears? || e.ManagerHears?)
    ensures Inv(Apply(s, e), Follow(t, e))
  {
    hide Tiled, LatestEnd;
  }

  lemma FetchKeeps(s: System, t: Trace, e: Event)
    requires Inv(s, t) && Enabled(s, e) && (e.LoopReads? || e.LoopStores? || e.WaitReads? || e.WaitStores?)
    ensures Inv(Apply(s, e), Follow(t, e))
  {
    hide Tiled, LatestEnd;
    NoBatch(s.hub);
  }

  lemma OthersKeep(s: System, t: Trace, e: Event)
    requires Inv(s, t) && Enabled(s, e) && !e.Post? && !e.ClientHears? && !e.ManagerHears?
    requires !e.LoopReads? && !e.LoopStores? && !e.WaitReads? && !e.WaitStores?
    ensures Inv(Apply(s, e), Follow(t, e))
  {
    hide Tiled, LatestEnd;
    NoBatch(s.hub);
  }

  lemma StepKeeps(s: System, t: Trace, e: Event)
    requires Inv(s, t) && Enabled(s, e)
    ensures Inv(Apply(s, e), Follow(t, e))
  {
    hide Inv, Enabled, Apply, Follow;
    if e.Post? {
      PostKeeps(s, t);
    } else if e.ClientHears? || e.ManagerHears? {
      HearKeeps(s, t, e);
    } else if e.LoopReads? || e.LoopStores? || e.WaitReads? || e.WaitStores? {
      FetchKeeps(s, t, e);
    } else {
      OthersKeep(s, t, e);
    }
  }

  lemma {:induction false} RunKeeps(s: System, t: Trace, events: seq<Event>)
    requires Inv(s, t) && Legal(s, events)
    ensures Inv(Run(s, events), FollowAll(t, events))
    decreases |events|
  {
    hide Inv, Enabled, Apply, Follow;
    if events != [] {
      StepKeeps(s, t, events[0]);
      RunKeeps(Apply(s, events[0]), Follow(t, events[0]), events[1..]);
    }
  }

  predicate Has(hub: Hub, i: nat, height: nat)
    requires i < |hub|
  {
    hub[i].start <= height <= hub[i].end
  }

  lemma {:induction false} TiledOrdered(hub: Hub, i: nat, j: nat)
    requires Tiled(hub) && i < j < |hub|
    ensures hub[i].end < hub[j].start
  {
    assert FollowsOn(hub, j);
    if i + 1 < j {
      TiledOrdered(hub, i, j - 1);
      assert FollowsOn(hub, j - 1);
    }
  }

  /** Every height up to the latest is in exactly one batch, and no other height is in any. */
  lemma {:induction false} CoveredOnce(hub: Hub, height: nat) returns (i: nat)
    requires Tiled(hub) && 1 <= height <= Height(LatestEnd(hub))
    ensures i < |hub| && Has(hub, i, height)
    ensures forall j | 0 <= j < |hub| && Has(hub, j, height) :: j == i
  {
    var last := |hub| - 1;
    if Has(hub, last, height) {
      i := last;
    } else {
      assert FollowsOn(hub, last);
      assert forall k | 0 <= k < last :: FollowsOn(hub, k) ==> FollowsOn(hub[..last], k);
      i := CoveredOnce(hub[..last], height);
    }
    forall j | 0 <= j < |hub| && Has(hub, j, height)
      ensures j == i
    {
      if j < i {
        TiledOrdered(hub, j, i);
      } else if i < j {
        TiledOrdered(hub, i, j);
      }
    }
  }

  /** In every run of production, submission, acceptance, fetches, crashes and restarts the accepted
      batches tile the heights from 1 to the latest, at most one batch is drafted or on its way, and
      while one is, no other submission begins. */
  lemma SettlementTiles(s: System, events: seq<Event>)
    requires Fresh(s) && Legal(s, events)
    ensures var t := Run(s, events);
            && Tiled(t.hub)
            && (t.up ==>
                  && |t.toClient| + |t.toManager| + (if t.submission.Drafted? then 1 else 0) <= 1
                  && (!Quiet(t) || t.submission.Drafted? ==> !Enabled(t, Tick)))
  {
    RunKeeps(s, NEW, events);
  }

  /** Accepted batches are permanent. */
  lemma {:induction false} HubGrows(s: System, events: seq<Event>)
    requires Legal(s, events)
    ensures s.hub <= Run(s, events).hub
    decreases |events|
  {
    if events != [] {
      HubGrows(Apply(s, events[0]), events[1..]);
    }
  }

  /** The blocks a run adds, unless it retrieves any. */
  function Added(events: seq<Event>): nat {
    if events == [] then 0
    else (if events[0] in {EmptyBlock, Produce, Gossip} then 1 else 0) + Added(events[1..])
  }

  /** Without retrieval, a node stands higher by exactly the blocks it produced, received or added empty,
      through crashes too. */
  lemma {:induction false} HeightCounts(s: System, events: seq<Event>)
    requires Legal(s, events) && forall e | e in events :: !e.Retrieve?
    ensures Run(s, events).height == s.height + Added(events)
    decreases |events|
  {
    if events != [] {
      assert events[0] in events;
      assert forall e | e in events[1..] :: e in events;
      HeightCounts(Apply(s, events[0]), events[1..]);
    }
  }

  /** Either everything accepted is within a block of the store, or nothing was posted since the start and
      waitForSync, which has read the latest batch, still waits. */
  predicate CaughtUp(s: System) {
    s.up ==>
      && (s.submission.Drafted? ==> s.submission.batch.end <= s.height + 1)
      && (|| Latest(s) <= s.height + 1
          || (&& s.toClient == [] && s.toManager == [] && !s.wait.Producing?
              && (s.loop.LoopRead? ==> s.loop.end == LatestEnd(s.hub))
              && (s.wait.WaitRead? ==> s.wait.end == LatestEnd(s.hub))
              && (s.wait.Stored? ==> s.syncTarget == Latest(s))))
  }

  lemma CaughtUpStep(s: System, e: Event)
    requires CaughtUp(s) && Enabled(s, e)
    ensures CaughtUp(Apply(s, e))
  {
  }

  lemma {:induction false} CaughtUpRun(s: System, events: seq<Event>)
    requires CaughtUp(s) && Legal(s, events)
    ensures CaughtUp(Run(s, events))
    decreases |events|
  {
    hide CaughtUp, Enabled, Apply;
    if events != [] {
      CaughtUpStep(s, events[0]);
      CaughtUpRun(Apply(s, events[0]), events[1..]);
    }
  }

  /** A node produces no block below the latest one that was accepted, in no run, although the target that
      waitForSync stored may be outdated by then. */
  lemma ProducesAbove(s: System, events: seq<Event>)
    requires Fresh(s) && Legal(s, events)
    ensures var t := Run(s, events);
            Enabled(t, Produce) ==> Apply(t, Produce).height >= Latest(t)
  {
    hide Run, Legal;
    CaughtUpRun(s, events);
  }

  /** When a submission starts at the latest height plus one, and so can pass the client's check. Once the
      sync target loop has stored its start-up fetch: if and only if waitForSync was not overtaken by a
      post. Before that: if and only if there is no batch yet or waitForSync has stored its own fetch. */
  lemma NextStartsAtLatest(s: System, events: seq<Event>, end: nat)
    requires Fresh(s) && Legal(s, events)
    requires Enabled(Run(s, events), Draft(end))
    ensures var t := Run(s, events);
            var drafted := Apply(t, Draft(end));
            var good := if t.loop.Listening? then !Overtaken(events)
                        else t.hub == [] || t.wait.Stored? || t.wait.Producing?;
            && (drafted.submission.batch.start == Latest(t) + 1 <==> good)
            && (Enabled(drafted, Post) <==> good && Latest(t) < end)
  {
    RunKeeps(s, NEW, events);
    hide Run, Legal, FollowAll;
    var t := Run(s, events);
    LatestPositive(t.hub);
  }

  lemma LatestPositive(hub: Hub)
    requires Tiled(hub)
    ensures hub != [] ==> Height(LatestEnd(hub)) > 0
  {
    if hub != [] {
      assert FollowsOn(hub, |hub| - 1);
    }
  }

  // The condition can fail

  lemma {:induction false} FollowSnoc(t: Trace, events: seq<Event>, e: Event)
    ensures FollowAll(t, events + [e]) == Follow(FollowAll(t, events), e)
    decreases |events|
  {
    hide Follow;
    if events == [] {
      assert events + [e] == [e] && [e][1..] == [];
    } else {
      FollowSnoc(Follow(t, events[0]), events[1..], e);
      assert (events + [e])[0] == events[0] && (events + [e])[1..] == events[1..] + [e];
    }
  }

  lemma {:induction false} RunSnoc(s: System, events: seq<Event>, e: Event)
    requires Legal(s, events) && Enabled(Run(s, events), e)
    ensures Legal(s, events + [e]) && Run(s, events + [e]) == Apply(Run(s, events), e)
    ensures FollowAll(NEW, events + [e]) == Follow(FollowAll(NEW, events), e)
    decreases |events|
  {
    hide Enabled, Apply;
    FollowSnoc(NEW, events, e);
    if events == [] {
      assert [e][1..] == [] && events + [e] == [e];
    } else {
      RunSnoc(Apply(s, events[0]), events[1..], e);
      assert (events + [e])[0] == events[0] && (events + [e])[1..] == events[1..] + [e];
    }
  }

  /** A node that has produced blocks and submitted none. */
  lemma {:induction false} Unsubmitted(s: System, height: nat) returns (events: seq<Event>)
    requires Fresh(s)
    ensures Legal(s, events)
    ensures var t := Run(s, events); t.hub == [] && t.height == height && t.up && t.wait.Producing?
    decreases height
  {
    if height == 0 {
      events := [];
      assert Legal(s, events) && Run(s, events) == s;
      hide Legal, Run, FollowAll;
      RunSnoc(s, events, Start);
      events := events + [Start];
      RunSnoc(s, events, WaitReads);
      events := events + [WaitReads];
      RunSnoc(s, events, WaitStores);
      events := events + [WaitStores];
    } else {
      events := Unsubmitted(s, height - 1);
      hide Legal, Run, FollowAll;
      RunSnoc(s, events, Produce);
      events := events + [Produce];
    }
  }

  /** A restart of a node that is down: the loop stores the latest batch, waitForSync only reads it. */
  lemma Restarted(s: System, before: seq<Event>) returns (events: seq<Event>)
    requires Legal(s, before) && !Run(s, before).up
    ensures Legal(s, events) && FollowAll(NEW, events) == NEW
    ensures var d := Run(s, before);
            Run(s, events) == System(d.hub, d.height, d.cut, true, Latest(d), Latest(d), false, Idle, [], [], Listening,
                                     WaitRead(LatestEnd(d.hub)))
  {
    hide Legal, Run, FollowAll;
    RunSnoc(s, before, Start);
    events := before + [Start];
    RunSnoc(s, events, Subscribe);
    events := events + [Subscribe];
    RunSnoc(s, events, LoopReads);
    events := events + [LoopReads];
    RunSnoc(s, events, LoopStores);
    events := events + [LoopStores];
    RunSnoc(s, events, WaitReads);
    events := events + [WaitReads];
  }

  /** A batch is submitted, accepted and heard of while waitForSync still holds what it read before. */
  lemma Accepted(s: System, before: seq<Event>, end: nat) returns (events: seq<Event>)
    requires Legal(s, before) && !Run(s, before).up && Fresh(s)
    requires Latest(Run(s, before)) < end <= Run(s, before).height
    ensures Legal(s, events) && FollowAll(NEW, events) == Trace(true, true, false)
    ensures var d := Run(s, before);
            Run(s, events) == System(d.hub + [Batch(Latest(d) + 1, end)], d.height, d.cut, true, end, end, false, Idle,
                                     [], [], Listening, WaitRead(LatestEnd(d.hub)))
  {
    RunKeeps(s, NEW, before);
    events := Restarted(s, before);
    hide Legal, Run, FollowAll;
    RunSnoc(s, events, Tick);
    events := events + [Tick];
    RunSnoc(s, events, Draft(end));
    events := events + [Draft(end)];
    RunSnoc(s, events, Post);
    events := events + [Post];
    RunSnoc(s, events, ClientHears);
    events := events + [ClientHears];
    RunSnoc(s, events, ManagerHears);
    events := events + [ManagerHears];
  }

  /** The race is real, for every node that is down and holds blocks the hub has not accepted: waitForSync
      stores what it read before a batch was accepted, the next submission starts at that batch's start
      again, and the client refuses it. */
  lemma OutdatedTarget(s: System, before: seq<Event>, end: nat) returns (events: seq<Event>)
    requires Legal(s, before) && !Run(s, before).up && Fresh(s)
    requires Latest(Run(s, before)) < end <= Run(s, before).height
    ensures Legal(s, events) && Overtaken(events)
    ensures var d := Run(s, before);
            var t := Run(s, events);
            && t.hub == d.hub + [Batch(Latest(d) + 1, end)]
            && t.submission == Drafted(Batch(Latest(d) + 1, end)) && !Enabled(t, Post)
  {
    RunKeeps(s, NEW, before);
    events := Accepted(s, before, end);
    hide Legal, Run, FollowAll;
    RunSnoc(s, events, WaitStores);
    events := events + [WaitStores];
    RunSnoc(s, events, Tick);
    events := events + [Tick];
    RunSnoc(s, events, Draft(end));
    events := events + [Draft(end)];
  }

  /** And there are such nodes: one that produced some blocks and went down before it submitted any. */
  lemma OutdatedRun(s: System, height: nat, end: nat) returns (events: seq<Event>)
    requires Fresh(s) && 1 <= end <= height
    ensures Legal(s, events) && Overtaken(events)
    ensures var t := Run(s, events);
            t.hub == [Batch(1, end)] && t.submission == Drafted(Batch(1, end)) && !Enabled(t, Post)
  {
    events := Unsubmitted(s, height);
    hide Legal, Run, FollowAll, Overtaken;
    RunSnoc(s, events, Crash);
    events := OutdatedTarget(s, events + [Crash], end);
  }

  /** The same before the loop has stored its fetch: a node that is down with batches accepted and its first
      block not pruned submits from height 1 if its first tick comes before any fetch is stored. */
  lemma EarlyTick(s: System, before: seq<Event>) returns (events: seq<Event>)
    requires Legal(s, before) && !Run(s, before).up && Run(s, before).height > 0 && Latest(Run(s, before)) > 0
    requires Run(s, before).cut <= 1
    ensures Legal(s, events)
    ensures var t := Run(s, events);
            t.submission == Drafted(Batch(1, t.height)) && t.hub == Run(s, before).hub && !Enabled(t, Post)
  {
    hide Legal, Run, FollowAll;
    RunSnoc(s, before, Start);
    events := before + [Start];
    RunSnoc(s, events, Tick);
    events := events + [Tick];
    var height := Run(s, events).height;
    RunSnoc(s, events, Draft(height));
    events := events + [Draft(height)];
  }
}
