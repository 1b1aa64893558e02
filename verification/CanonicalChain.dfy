/**
 The rollup's own chain, defined without reference to any node, and why a node that follows it
 never rejects its next block.
 */
module CanonicalChain {
  import opened Wrappers
  import opened Chain
  import opened Recovery
  import opened RecoveryInvariant
  import opened RecoveryResults
  import opened RecoveryTheorems

  datatype Signed = Signed(block: Block, commit: Commit)

  function BlocksOf(chain: seq<Signed>): (blocks: seq<Block>)
    ensures |blocks| == |chain| && forall i | 0 <= i < |chain| :: blocks[i] == chain[i].block
  {
    seq(|chain|, i requires 0 <= i < |chain| => chain[i].block)
  }

  /** Block k names the ledger of a crash-free node that applied the k blocks before it. */
  predicate Canonical(w: World, chain: seq<Signed>) {
    forall k | 0 <= k < |chain| :: Links(w, chain, k)
  }

  predicate Links(w: World, chain: seq<Signed>, k: nat)
    requires k < |chain|
  {
    var header := chain[k].block.header;
    var commit := chain[k].commit;
    var before := CrashFree(w, BlocksOf(chain)[..k]);
    && header.height == k + 1 && header.version == w.version && header.proposer != []
    && header.appHash == before.digest && header.lastResultsHash == before.results
    && BasicCommit(chain[k].block.lastCommit) && BasicCommit(commit)
    && commit.signatures != [] && w.verifies(commit.signatures[0], header)
  }

  /** The application committed a prefix of the chain, starting from the genesis data, and the running
      state has the results hash of its height. */
  predicate OnChain(w: World, s: Node, chain: seq<Signed>) {
    && |s.app.log| <= |chain|
    && (forall i | 0 <= i < |s.app.log| :: s.app.log[i].block == chain[i].block)
    && ResultsRight(w, s.app.log, s.mem.state)
    && (if s.app.log == [] then s.mem.start == Some(w.genesis) else s.app.log[0].from == Some(w.genesis))
  }

  /** A node on the chain accepts the chain's next block, whatever crashes it went through. */
  lemma NextBlockAccepted(w: World, s: Node, chain: seq<Signed>)
    requires Inv(w, s) && s.phase.Idle? && s.app.height == s.mem.height
    requires Canonical(w, chain) && OnChain(w, s, chain) && s.app.height < |chain|
    ensures Validate(w, s.mem.state, chain[s.app.height].block, chain[s.app.height].commit) == Accept
  {
    hide StorageInv, SetsInv, IndexWithin, EntryInv, CrashFree;
    var n := |s.app.log|;
    LogIsCrashFree(w, s.app, n);
    assert Blocks(s.app.log)[..n] == BlocksOf(chain)[..n];
    assert Links(w, chain, n);
  }
}
