/**
 The inductive invariant of the recovery protocol and its preservation by every event.
 */
module RecoveryInvariant {
  import opened Wrappers
  import opened Chain
  import opened Kv
  import opened Recovery

  predicate Numbered(log: seq<Commitment>) {
    forall i | 0 <= i < |log| :: log[i].block.header.height == i + 1
  }

  /** The application committed heights 1, 2, 3, ... once each, every block run on its predecessor's data. */
  predicate LogInv(w: World, app: App) {
    && Numbered(app.log)
    && app.height == |app.log|
    && (app.log == [] ==> app.data == None)
    && (app.log != [] ==> app.data == Some(app.log[|app.log| - 1].ran.after))
    && forall i | 0 <= i < |app.log| :: EntryInv(w, app.log, i)
  }

  predicate EntryInv(w: World, log: seq<Commitment>, i: nat)
    requires i < |log|
  {
    && log[i].ran == w.execute(log[i].from, log[i].block)
    && Extends(w, log[..i], log[i].block, log[i].commit)
    && (if i == 0 then log[i].from in {None, Some(w.genesis)} else log[i].from == Some(log[i - 1].ran.after))
  }

  function DigestAt(w: World, log: seq<Commitment>, height: nat): Digest
    requires height <= |log|
  {
    if height == 0 then w.genesisDigest else w.digest(log[height - 1].ran.after)
  }

  function ResultsAt(w: World, log: seq<Commitment>, height: nat): Digest
    requires height <= |log|
  {
    if height == 0 then w.emptyResults else w.resultsHash(log[height - 1].ran.responses)
  }

  /** A block the chain may continue with: it names the application hash its predecessors left behind, it
      carries the chain's version and a proposer, and its commit is signed over its header. */
  predicate Extends(w: World, log: seq<Commitment>, block: Block, commit: Commit) {
    && block.header.height == |log| + 1
    && block.header.version == w.version && block.header.proposer != []
    && block.header.appHash == DigestAt(w, log, |log|)
    && BasicCommit(commit) && commit.signatures != [] && w.verifies(commit.signatures[0], block.header)
  }

  predicate PowersKept(w: World, st: State) {
    && st.version == w.version
    && st.nextValidators.powers == w.sequencers
    && st.validators.powers == w.sequencers
    && st.lastValidators.powers == w.sequencers
  }

  /** A state, on disk or in memory, against what the application committed. It lags by at most
      one height, it never lacks the block the application ran, and its application hash is that of
      the height it claims to have stored. */
  predicate StateInv(w: World, log: seq<Commitment>, st: State) {
    && st.lastStoreHeight <= |log| <= st.lastBlockHeight <= st.lastStoreHeight + 1
    && st.appHash == DigestAt(w, log, st.lastStoreHeight)
    && (st.lastStoreHeight == 0 ==> st.lastResultsHash == w.emptyResults)
    && PowersKept(w, st)
    && (st.lastBlockHeight == |log| ==> LastBlockIs(w, log, st))
  }

  predicate LastBlockIs(w: World, log: seq<Commitment>, st: State) {
    if log == [] then st.lastBlockID == NoHash && st.lastBlockTime == w.genesisTime
    else
      var header := log[|log| - 1].block.header;
      st.lastBlockID == HashOf(header) && st.lastBlockTime == header.time
  }

  /** What is stored at a height the application committed. */
  predicate StoredAs(d: Disk, c: Commitment) {
    Holds(d, c.block, c.commit) && LoadResponses(d, c.block.header.height) == Some(c.ran.responses)
  }

  /** Every height from the cut up to the application's is stored as the application ran it. */
  predicate StorageInv(d: Disk, log: seq<Commitment>, cut: nat) {
    && 1 <= cut
    && IndexSound(d)
    && forall i | cut - 1 <= i < |log| :: StoredAs(d, log[i])
  }

  /** Every committed height from the cut up has its validators stored, all stored sets have the powers of
      the sequencers, and nothing is stored for heights without a block. */
  predicate SetsInv(w: World, d: Disk, n: nat, cut: nat) {
    && d.responses.Keys <= d.index.Keys && d.validators.Keys <= d.index.Keys
    && (forall h | h in d.validators :: d.validators[h].powers == w.sequencers)
    && (forall h | cut <= h <= n :: h in d.validators)
  }

  predicate IndexWithin(d: Disk, lo: nat, hi: nat) {
    forall h | h in d.index :: lo <= h <= hi
  }

  predicate DiskInv(w: World, s: Node) {
    && StorageInv(s.disk, s.app.log, s.cut) && SetsInv(w, s.disk, |s.app.log|, s.cut)
    && IndexWithin(s.disk, s.cut, DiskHeight(s.disk) + 1)
    && s.cut <= Max(1, DiskHeight(s.disk))
    && s.cut <= Max(1, Latest(s.hub))
    && (s.disk.state == None ==> s.app.log == [])
    && (s.disk.state.Some? ==>
          var st := s.disk.state.value;
          && StateInv(w, s.app.log, st) && st.baseHeight <= s.cut && st.slStateIndex <= |s.hub|
          && (st.lastBlockHeight > |s.app.log| ==> Loadable(s.disk, st.lastBlockHeight)))
  }

  predicate HubInv(hub: seq<nat>) {
    forall i, j | 0 <= i < j < |hub| :: hub[i] < hub[j]
  }

  predicate MemInv(w: World, s: Node) {
    && s.disk.state.Some?
    && StateInv(w, s.app.log, s.mem.state)
    && s.mem.height <= s.mem.state.lastStoreHeight && s.mem.state.lastBlockHeight <= s.mem.height + 1
    && s.mem.height <= DiskHeight(s.disk)
    && |s.app.log| <= s.mem.height + 1
    && IndexWithin(s.disk, s.cut, s.mem.height + 1)
    && s.cut <= Max(1, s.mem.height)
    && s.mem.base <= s.cut && s.mem.state.baseHeight <= s.cut
    && s.mem.state.slStateIndex <= |s.hub|
    && (s.mem.state.lastBlockHeight > |s.app.log| ==> Loadable(s.disk, s.mem.state.lastBlockHeight))
    && (s.mem.height == |s.app.log| ==> s.mem.state.lastResultsHash == s.disk.state.value.lastResultsHash)
    && s.mem.syncTarget <= Latest(s.hub)
    && (if s.app.log == [] then s.mem.start in {None, Some(w.genesis)} else s.mem.start == s.app.data)
  }

  /** The block being applied sits right above both the store and the application. */
  predicate InFlight(s: Node, block: Block, commit: Commit) {
    && block.header.height == s.mem.height + 1 == |s.app.log| + 1
    && Holds(s.disk, block, commit)
  }

  predicate Updated(st: State, block: Block) {
    && st.lastBlockHeight == block.header.height == st.lastStoreHeight + 1
    && st.lastBlockID == HashOf(block.header) && st.lastBlockTime == block.header.time
  }

  predicate PhaseInv(w: World, s: Node) {
    match s.phase
    case Down => true
    case Idle => true
    case Saved(block, commit) => InFlight(s, block, commit)
    case Executed(block, commit, ran) =>
      && InFlight(s, block, commit) && Updated(s.mem.state, block) && ran == w.execute(s.mem.start, block)
      && Extends(w, s.app.log, block, commit)
    case Persisted(block, commit, ran) =>
      && InFlight(s, block, commit) && Updated(s.mem.state, block) && ran == w.execute(s.mem.start, block)
      && Extends(w, s.app.log, block, commit)
      && s.disk.state == Some(s.mem.state)
      && LoadResponses(s.disk, block.header.height) == Some(ran.responses)
      && block.header.height in s.disk.validators
    case Committed(block, ran, retain) =>
      && s.app.log != []
      && s.app.log[|s.app.log| - 1].block == block && s.app.log[|s.app.log| - 1].ran == ran
      && block.header.height == s.mem.height + 1 == |s.app.log|
      && Updated(s.mem.state, block)
      && s.disk.state == Some(s.mem.state)
      && (retain.Some? ==> retain.value <= s.mem.height && retain.value <= Latest(s.hub))
    case Written(final) =>
      && s.disk.state == Some(final)
      && final.lastBlockHeight == final.lastStoreHeight == |s.app.log| == s.mem.height + 1
      && final.lastResultsHash == ResultsAt(w, s.app.log, |s.app.log|)
    case Aligning =>
      && s.mem.state.lastStoreHeight == |s.app.log| == s.mem.height + 1
      && s.mem.state.lastResultsHash == ResultsAt(w, s.app.log, |s.app.log|)
    case Aligned =>
      && s.mem.state.lastStoreHeight == |s.app.log| == s.mem.height + 1
      && s.mem.state.lastResultsHash == ResultsAt(w, s.app.log, |s.app.log|)
      && s.disk.state == Some(s.mem.state)
  }

  predicate Inv(w: World, s: Node) {
    && LogInv(w, s.app) && HubInv(s.hub) && DiskInv(w, s)
    && (!s.phase.Down? ==> MemInv(w, s)) && PhaseInv(w, s)
  }

  lemma FreshInv(w: World, s: Node)
    requires Fresh(s)
    ensures Inv(w, s)
  {
  }

  /** Stored blocks do not depend on the stored state. */
  lemma StorageKept(d: Disk, state: Option<State>, log: seq<Commitment>, cut: nat)
    requires StorageInv(d, log, cut)
    ensures StorageInv(d.(state := state), log, cut)
  {
  }

  lemma SetsKept(w: World, d: Disk, state: Option<State>, n: nat, cut: nat)
    requires SetsInv(w, d, n, cut)
    ensures SetsInv(w, d.(state := state), n, cut)
  {
  }

  lemma SaveBlockSets(w: World, d: Disk, block: Block, commit: Commit, n: nat, cut: nat)
    requires SetsInv(w, d, n, cut)
    ensures SetsInv(w, SaveBlock(d, block, commit), n, cut)
  {
  }

  lemma SaveExecutionSets(w: World, d: Disk, height: nat, responses: Responses, state: State, n: nat, cut: nat)
    requires SetsInv(w, d, n, cut) && height in d.index && state.validators.powers == w.sequencers
    ensures SetsInv(w, SaveExecution(d, height, responses, state), n, cut)
    ensures height in SaveExecution(d, height, responses, state).validators
  {
  }

  lemma CommitSets(w: World, d: Disk, n: nat, cut: nat)
    requires SetsInv(w, d, n, cut) && n + 1 in d.validators
    ensures SetsInv(w, d, n + 1, cut)
  {
  }

  lemma PruneSets(w: World, d: Disk, lo: nat, hi: nat, n: nat, cut: nat)
    requires SetsInv(w, d, n, cut)
    ensures SetsInv(w, Prune(d, lo, hi), n, Max(cut, hi))
  {
  }

  lemma SaveBlockStorage(d: Disk, log: seq<Commitment>, cut: nat, block: Block, commit: Commit)
    requires Numbered(log) && StorageInv(d, log, cut) && block.header.height == |log| + 1
    ensures StorageInv(SaveBlock(d, block, commit), log, cut)
  {
    forall i | cut - 1 <= i < |log|
      ensures StoredAs(SaveBlock(d, block, commit), log[i])
    {
      SaveBlockFrame(d, block, commit, i + 1);
    }
  }

  lemma SaveExecutionStorage(d: Disk, log: seq<Commitment>, cut: nat, responses: Responses, state: State)
    requires Numbered(log) && StorageInv(d, log, cut)
    ensures StorageInv(SaveExecution(d, |log| + 1, responses, state), log, cut)
  {
    forall i | cut - 1 <= i < |log|
      ensures StoredAs(SaveExecution(d, |log| + 1, responses, state), log[i])
    {
      assert StoredAs(d, log[i]);
    }
  }

  lemma PruneStorage(d: Disk, log: seq<Commitment>, cut: nat, lo: nat, hi: nat)
    requires Numbered(log) && StorageInv(d, log, cut)
    ensures StorageInv(Prune(d, lo, hi), log, Max(cut, hi))
  {
    forall i | Max(cut, hi) - 1 <= i < |log|
      ensures StoredAs(Prune(d, lo, hi), log[i])
    {
      PruneExact(d, lo, hi, i + 1);
    }
  }

  lemma ExtendLog(w: World, app: App, c: Commitment)
    requires LogInv(w, app) && Extends(w, app.log, c.block, c.commit)
    requires c.ran == w.execute(c.from, c.block)
    requires if app.log == [] then c.from in {None, Some(w.genesis)} else c.from == app.data
    ensures LogInv(w, App(Some(c.ran.after), c.block.header.height, app.log + [c]))
  {
    assert c.block.header.height == |app.log| + 1;
    hide Extends;
    var log := app.log + [c];
    forall i | 0 <= i < |log|
      ensures EntryInv(w, log, i)
    {
      assert log[..i] == app.log[..i];
      if i < |app.log| {
        assert EntryInv(w, app.log, i);
      } else {
        assert app.log[..i] == app.log;
      }
    }
  }

  /** A state that already names the block being committed stays right once it is committed. */
  lemma CommitState(w: World, log: seq<Commitment>, c: Commitment, st: State)
    requires StateInv(w, log, st) && Updated(st, c.block) && c.block.header.height == |log| + 1
    ensures StateInv(w, log + [c], st)
  {
  }

  lemma ReceiveKeeps(w: World, s: Node, e: Event)
    requires Inv(w, s) && e.Receive? && Enabled(w, s, e)
    ensures Inv(w, Apply(w, s, e))
  {
    hide StorageInv, PowersKept, Extends, SetsInv;
    SaveBlockSets(w, s.disk, e.block, e.commit, |s.app.log|, s.cut);
    SaveBlockStorage(s.disk, s.app.log, s.cut, e.block, e.commit);
  }

  lemma ExecuteKeeps(w: World, s: Node, e: Event)
    requires Inv(w, s) && e.Execute? && Enabled(w, s, e)
    ensures Inv(w, Apply(w, s, e))
  {
    hide LogInv, StorageInv, IndexWithin, SetsInv;
  }

  lemma PersistKeeps(w: World, s: Node, e: Event)
    requires Inv(w, s) && e.Persist? && Enabled(w, s, e)
    ensures Inv(w, Apply(w, s, e))
  {
    hide StorageInv, Extends, SetsInv, DigestAt, LastBlockIs;
    SaveExecutionSets(w, s.disk, s.phase.block.header.height, s.phase.ran.responses, s.mem.state, |s.app.log|, s.cut);
    SaveExecutionStorage(s.disk, s.app.log, s.cut, s.phase.ran.responses, s.mem.state);
  }

  lemma CommitKeeps(w: World, s: Node, e: Event)
    requires Inv(w, s) && e.CommitApp? && Enabled(w, s, e)
    ensures Inv(w, Apply(w, s, e))
  {
    hide StorageInv, IndexWithin, Extends, LogInv, StateInv, SetsInv;
    CommitSets(w, s.disk, |s.app.log|, s.cut);
    var c := Commitment(s.phase.block, s.phase.commit, s.mem.start, s.phase.ran);
    ExtendLog(w, s.app, c);
    CommitStorage(s.disk, s.app.log, s.cut, c);
    CommitState(w, s.app.log, c, s.mem.state);
  }

  lemma CommitStorage(d: Disk, log: seq<Commitment>, cut: nat, c: Commitment)
    requires StorageInv(d, log, cut) && StoredAs(d, c)
    ensures StorageInv(d, log + [c], cut)
  {
  }

  lemma FlushKeeps(w: World, s: Node, e: Event)
    requires Inv(w, s) && e.Flush? && Enabled(w, s, e)
    ensures Inv(w, Apply(w, s, e))
  {
    hide StorageInv, StateInv, Extends, SetsInv;
    PruneSets(w, s.disk, s.mem.base, e.upTo, |s.app.log|, s.cut);
    PruneStorage(s.disk, s.app.log, s.cut, s.mem.base, e.upTo);
  }

  lemma WriteStateKeeps(w: World, s: Node, e: Event)
    requires Inv(w, s) && e.WriteState? && Enabled(w, s, e)
    ensures Inv(w, Apply(w, s, e))
  {
    hide LogInv, StorageInv, SetsInv;
    StorageKept(s.disk, Apply(w, s, e).disk.state, s.app.log, s.cut);
    SetsKept(w, s.disk, Apply(w, s, e).disk.state, |s.app.log|, s.cut);
  }

  lemma FinishKeeps(w: World, s: Node, e: Event)
    requires Inv(w, s) && e.Finish? && Enabled(w, s, e)
    ensures Inv(w, Apply(w, s, e))
  {
    hide LogInv, StorageInv, PowersKept, LastBlockIs, SetsInv;
  }

  lemma AlignKeeps(w: World, s: Node, e: Event)
    requires Inv(w, s) && e.Align? && Enabled(w, s, e)
    ensures Inv(w, Apply(w, s, e))
  {
    hide Extends, IndexWithin, SetsInv;
    assert StoredAs(s.disk, s.app.log[|s.app.log| - 1]);
  }

  lemma HalfAlignKeeps(w: World, s: Node, e: Event)
    requires Inv(w, s) && e.HalfAlign? && Enabled(w, s, e)
    ensures Inv(w, Apply(w, s, e))
  {
    hide Extends, IndexWithin, EntryInv, StorageInv, SetsInv;
  }

  lemma WriteAlignedKeeps(w: World, s: Node, e: Event)
    requires Inv(w, s) && (e.WriteAligned? || e.FinishAligned?) && Enabled(w, s, e)
    ensures Inv(w, Apply(w, s, e))
  {
    hide LogInv, StateInv, StorageInv, SetsInv;
    StorageKept(s.disk, Apply(w, s, e).disk.state, s.app.log, s.cut);
    SetsKept(w, s.disk, Apply(w, s, e).disk.state, |s.app.log|, s.cut);
  }

  lemma StateIndexKeeps(w: World, s: Node, e: Event)
    requires Inv(w, s) && (e.NoteBatch? || e.WriteIndex?) && Enabled(w, s, e)
    ensures Inv(w, Apply(w, s, e))
  {
    hide LogInv, StorageInv, DigestAt, ResultsAt, SetsInv;
    StorageKept(s.disk, Apply(w, s, e).disk.state, s.app.log, s.cut);
    SetsKept(w, s.disk, Apply(w, s, e).disk.state, |s.app.log|, s.cut);
  }

  lemma HubAcceptsKeeps(w: World, s: Node, e: Event)
    requires Inv(w, s) && e.HubAccepts? && Enabled(w, s, e)
    ensures Inv(w, Apply(w, s, e))
  {
    hide LogInv, StateInv, StorageInv, IndexWithin, Extends, SetsInv;
    var s' := Apply(w, s, e);
    assert forall i | 0 <= i <= |s.hub| :: End(s'.hub, i) == End(s.hub, i);
  }

  lemma OthersKeep(w: World, s: Node, e: Event)
    requires Inv(w, s) && (e.Fail? || e.SetSyncTarget? || e.Crash?) && Enabled(w, s, e)
    ensures Inv(w, Apply(w, s, e))
  {
    hide LogInv, StateInv, StorageInv, IndexWithin, Extends, SetsInv;
    assert forall i | 0 <= i <= |s.hub| :: End(s.hub, i) <= Latest(s.hub);
  }

  lemma RestartKeeps(w: World, s: Node, e: Event)
    requires Inv(w, s) && e.Restart? && Enabled(w, s, e)
    ensures Inv(w, Apply(w, s, e))
  {
    hide StorageInv, Extends, SetsInv;
    StorageKept(s.disk, Apply(w, s, e).disk.state, s.app.log, s.cut);
    SetsKept(w, s.disk, Apply(w, s, e).disk.state, |s.app.log|, s.cut);
  }

  lemma StepKeeps(w: World, s: Node, e: Event)
    requires Inv(w, s) && Enabled(w, s, e)
    ensures Inv(w, Apply(w, s, e))
  {
    hide *;
    match e
    case Receive(_, _) => ReceiveKeeps(w, s, e);
    case Execute => ExecuteKeeps(w, s, e);
    case Persist => PersistKeeps(w, s, e);
    case CommitApp(_) => CommitKeeps(w, s, e);
    case Flush(_, _) => FlushKeeps(w, s, e);
    case WriteState => WriteStateKeeps(w, s, e);
    case Finish => FinishKeeps(w, s, e);
    case Align(_) => AlignKeeps(w, s, e);
    case HalfAlign(_) => HalfAlignKeeps(w, s, e);
    case WriteAligned => WriteAlignedKeeps(w, s, e);
    case FinishAligned => WriteAlignedKeeps(w, s, e);
    case Fail => OthersKeep(w, s, e);
    case SetSyncTarget(_) => OthersKeep(w, s, e);
    case NoteBatch => StateIndexKeeps(w, s, e);
    case WriteIndex => StateIndexKeeps(w, s, e);
    case HubAccepts(_) => HubAcceptsKeeps(w, s, e);
    case Crash => OthersKeep(w, s, e);
    case Restart => RestartKeeps(w, s, e);
  }
}
