/**
 The contents of the key-value store behind store/store.go: one map per key prefix. A
 height leads through the index to the header hash under which block and commit are kept.
 */
module Kv {
  import opened Wrappers
  import opened Chain

  datatype Disk = Disk(blocks: map<Hash, Block>, commits: map<Hash, Commit>, index: map<nat, Hash>,
                       responses: map<nat, Responses>, validators: map<nat, ValidatorSet>,
                       state: Option<State>)

  const EMPTY := Disk(map[], map[], map[], map[], map[], None)

  function SaveBlock(d: Disk, block: Block, commit: Commit): Disk {
    var hash := HashOf(block.header);
    d.(blocks := d.blocks[hash := block], commits := d.commits[hash := commit],
       index := d.index[block.header.height := hash])
  }

  function LoadBlock(d: Disk, height: nat): Option<Block> {
    if height in d.index && d.index[height] in d.blocks then Some(d.blocks[d.index[height]]) else None
  }

  function LoadCommit(d: Disk, height: nat): Option<Commit> {
    if height in d.index && d.index[height] in d.commits then Some(d.commits[d.index[height]]) else None
  }

  function LoadResponses(d: Disk, height: nat): Option<Responses> {
    if height in d.responses then Some(d.responses[height]) else None
  }

  function LoadValidators(d: Disk, height: nat): Option<ValidatorSet> {
    if height in d.validators then Some(d.validators[height]) else None
  }

  /** The one database batch applyBlock writes before the application commits. */
  function SaveExecution(d: Disk, height: nat, responses: Responses, state: State): Disk {
    d.(responses := d.responses[height := responses], state := Some(state),
       validators := d.validators[height := state.validators])
  }

  /** The indexed heights of [lo, hi). */
  function Indexed(d: Disk, lo: nat, hi: nat): set<nat> {
    set h | h in d.index && lo <= h < hi
  }

  /** Deletes everything stored for some indexed heights. */
  function Delete(d: Disk, heights: set<nat>): Disk
    requires heights <= d.index.Keys
  {
    var hashes := set h | h in heights :: d.index[h];
    d.(blocks := d.blocks - hashes, commits := d.commits - hashes, index := d.index - heights,
       responses := d.responses - heights, validators := d.validators - heights)
  }

  function Prune(d: Disk, lo: nat, hi: nat): Disk {
    Delete(d, Indexed(d, lo, hi))
  }

  /** Height and block are findable together. */
  predicate Loadable(d: Disk, height: nat) {
    LoadBlock(d, height).Some? && LoadCommit(d, height).Some?
  }

  /** Exactly this block and commit are what the index leads to. */
  predicate Holds(d: Disk, block: Block, commit: Commit) {
    LoadBlock(d, block.header.height) == Some(block) && LoadCommit(d, block.header.height) == Some(commit)
  }

  /** Every indexed hash is the hash of a header of that height, and leads to a block with
      that header and to a commit. */
  predicate IndexSound(d: Disk) {
    forall h | h in d.index ::
      && d.index[h].HashOf? && d.index[h].header.height == h
      && d.index[h] in d.blocks && d.index[h] in d.commits
      && d.blocks[d.index[h]].header == d.index[h].header
  }

  /** Saving at one height leaves every other height alone: different heights, different hashes. */
  lemma SaveBlockFrame(d: Disk, block: Block, commit: Commit, h: nat)
    requires IndexSound(d) && h != block.header.height
    ensures LoadBlock(SaveBlock(d, block, commit), h) == LoadBlock(d, h)
    ensures LoadCommit(SaveBlock(d, block, commit), h) == LoadCommit(d, h)
    ensures IndexSound(SaveBlock(d, block, commit))
    ensures Holds(SaveBlock(d, block, commit), block, commit)
  {
  }

  /** What one batch of responses, validators and state leads to: exactly that at its height, everything
      else as before. */
  lemma SaveExecutionFrame(d: Disk, height: nat, responses: Responses, state: State, h: nat)
    ensures var d' := SaveExecution(d, height, responses, state);
            && d'.state == Some(state)
            && LoadBlock(d', h) == LoadBlock(d, h) && LoadCommit(d', h) == LoadCommit(d, h)
            && LoadResponses(d', h) == (if h == height then Some(responses) else LoadResponses(d, h))
            && LoadValidators(d', h) == (if h == height then Some(state.validators) else LoadValidators(d, h))
  {
  }

  /** Pruning removes all there is in its range, under the heights and under the hashes, and nothing
      else. */
  lemma PruneExact(d: Disk, lo: nat, hi: nat, h: nat)
    requires IndexSound(d)
    ensures lo <= h < hi ==> LoadBlock(Prune(d, lo, hi), h) == None && LoadCommit(Prune(d, lo, hi), h) == None
    ensures lo <= h < hi && h in d.index ==>
              && d.index[h] !in Prune(d, lo, hi).blocks && d.index[h] !in Prune(d, lo, hi).commits
              && h !in Prune(d, lo, hi).index
              && LoadResponses(Prune(d, lo, hi), h) == None && LoadValidators(Prune(d, lo, hi), h) == None
    ensures !(lo <= h < hi) ==>
              && LoadBlock(Prune(d, lo, hi), h) == LoadBlock(d, h)
              && LoadCommit(Prune(d, lo, hi), h) == LoadCommit(d, h)
              && LoadResponses(Prune(d, lo, hi), h) == LoadResponses(d, h)
              && LoadValidators(Prune(d, lo, hi), h) == LoadValidators(d, h)
    ensures IndexSound(Prune(d, lo, hi)) && Prune(d, lo, hi).state == d.state
  {
  }

  lemma DeleteTwice(d: Disk, xs: set<nat>, ys: set<nat>)
    requires xs <= d.index.Keys && ys <= d.index.Keys && xs !! ys
    ensures ys <= Delete(d, xs).index.Keys && Delete(Delete(d, xs), ys) == Delete(d, xs + ys)
  {
    var d1 := Delete(d, xs);
    var hx := set h | h in xs :: d.index[h];
    var hy := set h | h in ys :: d1.index[h];
    assert (set h | h in xs + ys :: d.index[h]) == hx + hy;
    assert d1.index - ys == d.index - (xs + ys);
    assert d1.blocks - hy == d.blocks - (hx + hy) && d1.commits - hy == d.commits - (hx + hy);
    assert d1.responses - ys == d.responses - (xs + ys) && d1.validators - ys == d.validators - (xs + ys);
  }

  /** Pruning goes on where the last piece ended, wherever the base was left in between. */
  lemma PruneOn(d: Disk, lo: nat, mid: nat, hi: nat, base: nat)
    requires lo <= base <= mid <= hi
    ensures Indexed(d, mid, hi) <= Prune(d, lo, mid).index.Keys
    ensures Delete(Prune(d, lo, mid), Indexed(d, mid, hi)) == Prune(d, lo, hi)
    ensures Prune(Prune(d, lo, mid), base, hi) == Prune(d, lo, hi)
  {
    assert Indexed(Prune(d, lo, mid), base, hi) == Indexed(d, mid, hi);
    assert Indexed(d, lo, mid) + Indexed(d, mid, hi) == Indexed(d, lo, hi);
    hide Delete;
    DeleteTwice(d, Indexed(d, lo, mid), Indexed(d, mid, hi));
  }

  /** One more height to look at, with everything below `mid` already deleted. */
  lemma IndexedNext(d: Disk, lo: nat, mid: nat, h: nat)
    requires lo <= mid <= h
    ensures h in Prune(d, lo, mid).index <==> h in d.index
    ensures h in d.index ==>
              && Indexed(d, mid, h + 1) == Indexed(d, mid, h) + {h}
              && |Indexed(d, lo, h + 1)| == |Indexed(d, lo, h)| + 1
    ensures h !in d.index ==>
              Indexed(d, mid, h + 1) == Indexed(d, mid, h) && Indexed(d, lo, h + 1) == Indexed(d, lo, h)
  {
    assert h in d.index ==> Indexed(d, mid, h + 1) == Indexed(d, mid, h) + {h};
    assert h in d.index ==> Indexed(d, lo, h + 1) == Indexed(d, lo, h) + {h};
  }

  lemma PruneNothing(d: Disk, h: nat)
    ensures Indexed(d, h, h) == {} && Prune(d, h, h) == d
  {
  }

  /** One flush of the pruning loop: everything below `upTo` is gone, the base moved to `newBase`. */
  datatype Cut = Cut(upTo: nat, newBase: nat)

  function LastBase(base: nat, cuts: seq<Cut>): nat {
    if cuts == [] then base else cuts[|cuts| - 1].newBase
  }

  function AfterCuts(d: Disk, base: nat, cuts: seq<Cut>): Disk {
    if cuts == [] then d
    else
      var before := cuts[..|cuts| - 1];
      Prune(AfterCuts(d, base, before), LastBase(base, before), cuts[|cuts| - 1].upTo)
  }

  /** Outside of the range that cuts cover, no validators are lost or changed. */
  lemma {:induction false} CutsKeepValidators(d: Disk, base: nat, cuts: seq<Cut>, target: nat, h: nat)
    requires Forward(base, cuts, target) && (h < base || target <= h)
    ensures base <= LastBase(base, cuts) && LoadValidators(AfterCuts(d, base, cuts), h) == LoadValidators(d, h)
    decreases |cuts|
  {
    if cuts != [] {
      CutsKeepValidators(d, base, cuts[..|cuts| - 1], target, h);
    }
  }

  /** The cuts move forward and stay below the target. */
  predicate Forward(base: nat, cuts: seq<Cut>, target: nat) {
    cuts == [] ||
    var before := cuts[..|cuts| - 1];
    var cut := cuts[|cuts| - 1];
    Forward(base, before, target) && LastBase(base, before) <= cut.newBase <= cut.upTo <= target
  }
}
