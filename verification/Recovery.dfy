/**
 Block application and crash recovery (block/block.go, the restart half of block/manager.go,
 block/pruning.go, block/retriever.go) as a transition system.

 One event is one durable write, one application commit, or one in-memory update between
 them. Crash is enabled in every state and forgets everything but the disk and what the
 application committed. applyBlock calls are serialised, and so is updateStateIndex.
 */
module Recovery {
  import opened Wrappers
  import opened Chain
  import opened Kv

  /** One application commit: the block, its commit, the data it ran on and what came out. */
  datatype Commitment = Commitment(block: Block, commit: Commit, from: Option<AppData>, ran: Execution)

  /** The durable application; `log` records every commit it ever made. */
  datatype App = App(data: Option<AppData>, height: nat, log: seq<Commitment>)

  /** What a crash loses: store height and base, lastState, the sync target, and the data the
      application executes on (InitChain work is not committed before the first block is). */
  datatype Memory = Memory(height: nat, base: nat, state: State, syncTarget: nat, start: Option<AppData>)

  /** How far applyBlock got. */
  datatype Phase =
    | Down
    | Idle
    | Saved(block: Block, commit: Commit)
    | Executed(block: Block, commit: Commit, ran: Execution)
    | Persisted(block: Block, commit: Commit, ran: Execution)
    | Committed(block: Block, ran: Execution, retain: Option<nat>)
    | Written(final: State)
    | Aligning
    | Aligned

  /** `hub` lists the end heights of the batches the settlement layer accepted, oldest first.
      `cut` records how far pruning ever reached. */
  datatype Node = Node(disk: Disk, app: App, mem: Memory, phase: Phase, hub: seq<nat>, cut: nat)

  datatype Event =
    | Receive(block: Block, commit: Commit)
    | Execute
    | Persist
    | CommitApp(retainHeight: int)
    | Flush(upTo: nat, newBase: nat)
    | WriteState
    | Finish
    | Align(height: nat)
    | HalfAlign(height: nat)
    | WriteAligned
    | FinishAligned
    | Fail
    | SetSyncTarget(batch: nat)
    | NoteBatch
    | WriteIndex
    | HubAccepts(end: nat)
    | Crash
    | Restart

  /** The end height of hub batch `index`; state indices start at 1. */
  function End(hub: seq<nat>, index: nat): nat
    requires index <= |hub|
  {
    if index == 0 then 0 else hub[index - 1]
  }

  function Latest(hub: seq<nat>): nat {
    End(hub, |hub|)
  }

  function DiskHeight(d: Disk): nat {
    if d.state.Some? then d.state.value.lastStoreHeight else 0
  }

  /** pruneBlocks and the guards of PruneBlocks: what range, if any, gets pruned. */
  function PruneTarget(mem: Memory, retainHeight: int): Option<nat> {
    if 0 < retainHeight && retainHeight <= mem.syncTarget && retainHeight <= mem.height && mem.base <= retainHeight
    then Some(retainHeight) else None
  }

  /** The state NewManager starts from. */
  function InitialState(w: World, d: Disk): State {
    if d.state.Some? then FromProto(d.state.value) else GenesisState(w)
  }

  predicate NeedsInitChain(w: World, d: Disk) {
    InitialState(w, d).lastBlockHeight + 1 == INITIAL_HEIGHT
  }

  /** getInitialState, InitChain when no block was ever applied, and a fresh Manager. */
  function Boot(w: World, s: Node): Node {
    var st := InitialState(w, s.disk);
    var height := if s.disk.state.Some? then st.lastStoreHeight else 0;
    var base := if s.disk.state.Some? then st.baseHeight else 0;
    if NeedsInitChain(w, s.disk) then
      var st' := InitChainState(w, st);
      s.(disk := s.disk.(state := Some(st')), mem := Memory(height, base, st', 0, Some(w.genesis)), phase := Idle)
    else
      s.(mem := Memory(height, base, st, 0, s.app.data), phase := Idle)
  }

  /** alignStoreWithApp: memory takes hash, heights, validators and results hash from app and responses. */
  function AlignedState(w: World, s: Node): State
    requires s.app.data.Some? && s.app.height in s.disk.responses
  {
    s.mem.state.(appHash := w.digest(s.app.data.value), lastStoreHeight := s.app.height,
                 lastValidators := s.mem.state.validators,
                 lastResultsHash := w.resultsHash(s.disk.responses[s.app.height]))
  }

  /** alignStoreWithApp when the responses cannot be loaded: the results hash is not taken. */
  function HalfAlignedState(w: World, s: Node): State
    requires s.app.data.Some?
  {
    s.mem.state.(appHash := w.digest(s.app.data.value), lastStoreHeight := s.app.height,
                 lastValidators := s.mem.state.validators)
  }

  predicate Enabled(w: World, s: Node, e: Event) {
    match e
    case Receive(block, commit) =>
      s.phase.Idle? && block.header.height == s.mem.height + 1 && s.app.height != block.header.height
    case Execute => s.phase.Saved? && Validate(w, s.mem.state, s.phase.block, s.phase.commit) == Accept
    case Persist => s.phase.Executed?
    case CommitApp(_) => s.phase.Persisted?
    case Flush(upTo, newBase) =>
      && s.phase.Committed? && s.phase.retain.Some?
      && s.mem.base <= newBase <= upTo <= s.phase.retain.value
    case WriteState => s.phase.Committed?
    case Finish => s.phase.Written?
    case Align(height) =>
      && s.phase.Idle? && height == s.mem.height + 1 && s.app.height == height
      && s.app.data.Some? && height in s.disk.responses
    case HalfAlign(height) =>
      s.phase.Idle? && height == s.mem.height + 1 && s.app.height == height && s.app.data.Some?
    case WriteAligned => s.phase.Aligning?
    case FinishAligned => s.phase.Aligned?
    case Fail => !s.phase.Down? && !s.phase.Idle?
    case SetSyncTarget(batch) => !s.phase.Down? && batch <= |s.hub|
    case NoteBatch => s.phase.Idle? && s.mem.state.slStateIndex < |s.hub|
    case WriteIndex => s.phase.Idle?
    case HubAccepts(end) => Latest(s.hub) < end
    case Crash => true
    case Restart => s.phase.Down? && (NeedsInitChain(w, s.disk) ==> w.sequencers != map[])
  }

  function Apply(w: World, s: Node, e: Event): Node
    requires Enabled(w, s, e)
  {
    match e
    case Receive(block, commit) => s.(disk := SaveBlock(s.disk, block, commit), phase := Saved(block, commit))
    case Execute =>
      var Saved(block, commit) := s.phase;
      s.(mem := s.mem.(state := UpdateState(s.mem.state, block)),
         phase := Executed(block, commit, w.execute(s.mem.start, block)))
    case Persist =>
      var Executed(block, commit, ran) := s.phase;
      s.(disk := SaveExecution(s.disk, block.header.height, ran.responses, s.mem.state),
         phase := Persisted(block, commit, ran))
    case CommitApp(retainHeight) =>
      var Persisted(block, commit, ran) := s.phase;
      s.(app := App(Some(ran.after), block.header.height,
                    s.app.log + [Commitment(block, commit, s.mem.start, ran)]),
         mem := s.mem.(start := Some(ran.after)),
         phase := Committed(block, ran, PruneTarget(s.mem, retainHeight)))
    case Flush(upTo, newBase) =>
      s.(disk := Prune(s.disk, s.mem.base, upTo), mem := s.mem.(base := newBase), cut := Max(s.cut, upTo))
    case WriteState =>
      var final := CompleteState(w, s.mem.state, s.phase.ran, s.phase.block.header.height, s.mem.base);
      s.(disk := s.disk.(state := Some(final)), phase := Written(final))
    case Finish =>
      var final := s.phase.final;
      s.(mem := s.mem.(state := final, height := Max(s.mem.height, final.lastStoreHeight)), phase := Idle)
    case Align(height) => s.(mem := s.mem.(state := AlignedState(w, s)), phase := Aligning)
    case HalfAlign(height) => s.(mem := s.mem.(state := HalfAlignedState(w, s)))
    case WriteAligned => s.(disk := s.disk.(state := Some(s.mem.state)), phase := Aligned)
    case FinishAligned => s.(mem := s.mem.(height := Max(s.mem.height, s.mem.state.lastStoreHeight)), phase := Idle)
    case Fail => s.(phase := Idle)
    case SetSyncTarget(batch) => s.(mem := s.mem.(syncTarget := End(s.hub, batch)))
    case NoteBatch => s.(mem := s.mem.(state := s.mem.state.(slStateIndex := s.mem.state.slStateIndex + 1)))
    case WriteIndex => s.(disk := s.disk.(state := Some(s.mem.state)))
    case HubAccepts(end) => s.(hub := s.hub + [end])
    case Crash => s.(phase := Down)
    case Restart => Boot(w, s)
  }

  predicate Legal(w: World, s: Node, events: seq<Event>)
    decreases |events|
  {
    events == [] || (Enabled(w, s, events[0]) && Legal(w, Apply(w, s, events[0]), events[1..]))
  }

  function Run(w: World, s: Node, events: seq<Event>): Node
    requires Legal(w, s, events)
    decreases |events|
  {
    if events == [] then s else Run(w, Apply(w, s, events[0]), events[1..])
  }

  /** An empty disk, an application that committed nothing, and a process not yet started. */
  predicate Fresh(s: Node) {
    s.disk == EMPTY && s.app == App(None, 0, []) && s.phase == Down && s.hub == [] && s.cut == INITIAL_HEIGHT
  }
}
