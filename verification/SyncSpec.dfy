/**
 Vocabulary of block application and syncing: the ways calls can fail, batches on the data
 availability layer and on the settlement layer, and when they add up to the rollup's chain.
 */
module SyncSpec {
  import opened Wrappers
  import opened Chain
  import opened Recovery
  import opened RecoveryInvariant
  import opened RecoveryResults
  import opened RecoveryFloor
  import opened CanonicalChain

  /** Which fallible calls of one applyBlock fail: asking the application, loading the responses for an
      alignment, saving, executing, persisting, committing. A publishing error comes after the application
      committed; `pruneAt` is the flush that fails while pruning. */
  datatype Faults = Faults(appInfo: bool, load: bool, save: bool, execute: bool, persist: bool, commitApp: bool,
                           publish: bool, pruneAt: Option<nat>, write: bool)

  const NO_FAULTS := Faults(false, false, false, false, false, false, false, None, false)

  datatype Outcome = Skipped | Repaired | Applied | Failed | Panicked

  /** How the calls of an applyBlock go, and what the application answers to its commit. */
  type Circumstances = Block -> (Faults, int)

  ghost predicate Faultless(env: Circumstances) {
    forall b :: env(b).0 == NO_FAULTS
  }

  /** A batch as the data availability layer returns it. */
  datatype Batch = Batch(blocks: seq<Block>, commits: seq<Commit>)

  /** What the settlement layer knows of an accepted batch. */
  datatype HubBatch = HubBatch(start: nat, end: nat, daHeight: nat)

  predicate Covers(b: Batch, start: nat, end: nat) {
    |b.blocks| == end - start + 1 && forall i | 0 <= i < |b.blocks| :: b.blocks[i].header.height == start + i
  }

  /** Wherever a batch starts, its first `i` blocks are below the store height once it reached `from`. */
  ghost predicate Reached(b: Batch, from: nat, i: nat, height: nat) {
    forall start: nat, end: nat | Covers(b, start, end) && start <= from + 1 :: start + i <= height + 1
  }

  lemma ReachedOn(batches: seq<Batch>, i: nat, from: nat, mid: nat, height: nat)
    requires i < |batches| && from <= mid <= height
    requires forall k | 0 <= k < i :: Reached(batches[k], from, |batches[k].blocks|, mid)
    requires Reached(batches[i], mid, |batches[i].blocks|, height)
    ensures forall k | 0 <= k < i + 1 :: Reached(batches[k], from, |batches[k].blocks|, height)
  {
    forall k | 0 <= k < i
      ensures Reached(batches[k], from, |batches[k].blocks|, height)
    {
      assert Reached(batches[k], from, |batches[k].blocks|, mid);
    }
  }

  predicate InChain(block: Block, commit: Commit, chain: seq<Signed>) {
    1 <= block.header.height <= |chain| && chain[block.header.height - 1] == Signed(block, commit)
  }

  predicate FromChain(b: Batch, chain: seq<Signed>) {
    && |b.commits| == |b.blocks|
    && forall i | 0 <= i < |b.blocks| :: InChain(b.blocks[i], b.commits[i], chain)
  }

  /** The accepted batches tile the heights, and each is somewhere among the batches at its recorded
      data availability height. */
  predicate Tiled(hub: seq<HubBatch>, da: map<nat, seq<Batch>>) {
    forall i | 0 <= i < |hub| ::
      && hub[i].start == (if i == 0 then 1 else hub[i - 1].end + 1) <= hub[i].end
      && hub[i].daHeight in da
      && exists k | 0 <= k < |da[hub[i].daHeight]| :: Covers(da[hub[i].daHeight][k], hub[i].start, hub[i].end)
  }

  /** Nothing fails, and all that the data availability layer holds is the chain's. */
  ghost predicate Undisturbed(env: Circumstances, writeFails: nat -> bool, da: map<nat, seq<Batch>>,
                              chain: seq<Signed>)
  {
    Faultless(env) && (forall i :: !writeFails(i)) && (forall h | h in da :: AllFromChain(da[h], chain))
  }

  /** The batches tile the heights up to the target, and every retrieval succeeds in the end. */
  ghost predicate Available(hub: seq<HubBatch>, da: map<nat, seq<Batch>>, retrieves: nat -> bool, target: nat) {
    Tiled(hub, da) && target <= Latest(Ends(hub)) && forall i :: retrieves(i)
  }

  predicate AllFromChain(batches: seq<Batch>, chain: seq<Signed>) {
    forall k | 0 <= k < |batches| :: FromChain(batches[k], chain)
  }

  function Ends(hub: seq<HubBatch>): (ends: seq<nat>)
    ensures |ends| == |hub| && forall i | 0 <= i < |hub| :: ends[i] == hub[i].end
  {
    seq(|hub|, i requires 0 <= i < |hub| => hub[i].end)
  }

  /** Below the target there is always a batch left to fetch, and it starts no higher than the node's
      next height. */
  lemma BatchLeft(w: World, s: Node, target: nat)
    requires Inv(w, s) && s.phase.Idle? && s.mem.height < target <= Latest(s.hub)
    requires SyncedBelow(s.hub, s.mem.state, s.mem.height)
    ensures s.mem.state.slStateIndex < |s.hub|
  {
  }

  lemma Recorded(hub: seq<HubBatch>, da: map<nat, seq<Batch>>, index: nat)
    requires Tiled(hub, da) && 1 <= index <= |hub|
    ensures hub[index - 1].daHeight in da
  {
  }

  /** Applying everything at a batch's recorded height brings the store to the batch's end. */
  lemma BatchReached(hub: seq<HubBatch>, da: map<nat, seq<Batch>>, index: nat, from: nat, height: nat)
    requires Tiled(hub, da) && 1 <= index <= |hub| && End(Ends(hub), index - 1) <= from
    requires hub[index - 1].daHeight in da
    requires var found := da[hub[index - 1].daHeight];
             forall k | 0 <= k < |found| :: Reached(found[k], from, |found[k].blocks|, height)
    ensures End(Ends(hub), index) <= height
  {
    var batch := hub[index - 1];
    var found := da[batch.daHeight];
    var k :| 0 <= k < |found| && Covers(found[k], batch.start, batch.end);
    assert Reached(found[k], from, |found[k].blocks|, height);
  }

  lemma SameApplication(w: World, s: Node, s': Node, chain: seq<Signed>)
    requires s'.app == s.app && s'.mem.start == s.mem.start
    requires s'.mem.state.lastStoreHeight == s.mem.state.lastStoreHeight
    requires s'.mem.state.lastResultsHash == s.mem.state.lastResultsHash
    ensures OnChain(w, s, chain) ==> OnChain(w, s', chain)
  {
  }

  /** Starved: the next batch cannot be retrieved, which the code goes on trying. */
  datatype SyncResult = Synced | Stopped | Starved | Died

  /** A faultless application of a chain block keeps a node on the chain, and succeeds. */
  lemma StaysOnChain(w: World, s: Node, s': Node, chain: seq<Signed>, block: Block, commit: Commit, r: Outcome)
    requires Inv(w, s) && s.phase.Idle? && Canonical(w, chain) && OnChain(w, s, chain)
    requires InChain(block, commit, chain)
    requires r.Skipped? <==> block.header.height != s.mem.height + 1
    requires r.Skipped? ==> s' == s
    requires r.Repaired? ==> s'.app == s.app && s.app.height == block.header.height
    requires r.Applied? ==>
               s'.app.log == s.app.log + [Commitment(block, commit, s.mem.start, w.execute(s.mem.start, block))]
    requires r.Repaired? || r.Applied? ==> ResultsRight(w, s'.app.log, s'.mem.state)
    requires !r.Skipped? ==>
               if s.app.height == block.header.height then r.Repaired?
               else r.Applied? <==> Validate(w, s.mem.state, block, commit) == Accept
    ensures r in {Skipped, Repaired, Applied} && OnChain(w, s', chain)
  {
    hide Validate, StorageInv, SetsInv, EntryInv, Links, DigestAt, ResultsAt;
    if !r.Skipped? && s.app.height != block.header.height {
      NextBlockAccepted(w, s, chain);
    }
  }
}
