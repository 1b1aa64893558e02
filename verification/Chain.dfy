/**
 Blocks, commits and the replicated state, as types/block.go and types/state.go declare
 them, and the pure state computations of state/executor.go.

 Digests, application data, responses and transactions are uninterpreted. A header hash
 is the free term over the header, so it is collision-free by construction.
 */
module Chain {
  import opened Wrappers

  type Digest(==, 0, !new)
  type AppData(==, 0, !new)
  type Responses(==, 0, !new)
  type Tx(==, 0, !new)
  type Key(==, 0, !new)

  datatype Version = Version(block: nat, app: nat)

  datatype Hash = NoHash | HashOf(header: Header)

  /** `rest` stands for the header fields no modelled code looks at. */
  datatype Header = Header(version: Version, height: nat, time: nat, lastHeaderHash: Hash,
                           appHash: Digest, lastResultsHash: Digest, proposer: seq<nat>, rest: nat)

  datatype Commit = Commit(height: nat, headerHash: Hash, signatures: seq<seq<nat>>)

  datatype Block = Block(header: Header, txs: seq<Tx>, lastCommit: Commit)

  /** Keys and powers, plus how often the proposer priority was rotated. */
  datatype ValidatorSet = ValidatorSet(powers: map<Key, int>, turn: nat)

  datatype State = State(version: Version, lastBlockHeight: nat, lastBlockID: Hash, lastBlockTime: nat,
                         slStateIndex: nat, nextValidators: ValidatorSet, validators: ValidatorSet,
                         lastValidators: ValidatorSet, lastResultsHash: Digest, lastStoreHeight: nat,
                         baseHeight: nat, appHash: Digest)

  /** What the application answers to one block: its responses and the data it would commit. */
  datatype Execution = Execution(responses: Responses, after: AppData)

  /** The genesis document, the sequencer list, the application and the signature scheme.
      `execute` runs a block on the application's data; None is an application that never saw InitChain. */
  datatype World = World(genesis: AppData, genesisDigest: Digest, emptyResults: Digest, genesisTime: nat,
                         version: Version, sequencers: map<Key, int>,
                         execute: (Option<AppData>, Block) -> Execution,
                         digest: AppData -> Digest, resultsHash: Responses -> Digest,
                         verifies: (seq<nat>, Header) -> bool)

  const INITIAL_HEIGHT := 1
  const MAX_SIGNATURE_SIZE := 64

  function Max(a: int, b: int): int {
    if a < b then b else a
  }

  function Rotate(v: ValidatorSet): ValidatorSet {
    if v.powers == map[] then v else v.(turn := v.turn + 1)
  }

  /** types.NewFromGenesisDoc */
  function GenesisState(w: World): State {
    var none := ValidatorSet(map[], 0);
    State(w.version, 0, NoHash, w.genesisTime, 0, none, none, none, w.emptyResults, 0, 0, w.genesisDigest)
  }

  /** updateInitChainState */
  function InitChainState(w: World, s: State): State {
    var vals := Rotate(ValidatorSet(w.sequencers, 0));
    s.(appHash := w.genesisDigest, lastResultsHash := w.emptyResults, version := w.version,
       validators := vals, nextValidators := vals, lastValidators := vals)
  }

  /** BlockExecutor.updateState with the empty list of validator updates it is always given. */
  function UpdateState(s: State, block: Block): State {
    s.(lastBlockHeight := block.header.height, lastBlockID := HashOf(block.header),
       lastBlockTime := block.header.time,
       nextValidators := Rotate(s.nextValidators), validators := s.nextValidators)
  }

  /** The fields applyBlock fills in after the application committed. */
  function CompleteState(w: World, s: State, x: Execution, height: nat, base: nat): State {
    s.(appHash := w.digest(x.after), lastResultsHash := w.resultsHash(x.responses),
       lastValidators := s.validators, lastStoreHeight := height, baseHeight := base)
  }

  /** State.FromProto, with its compatibility branch for old state files. */
  function FromProto(s: State): State {
    if s.lastStoreHeight == 0 && s.lastBlockHeight > 1 then s.(lastStoreHeight := s.lastBlockHeight) else s
  }

  predicate BasicCommit(c: Commit) {
    c.height > 0 ==> |c.signatures| == 1 && |c.signatures[0]| <= MAX_SIGNATURE_SIZE
  }

  datatype Verdict = Accept | Reject | Panic

  /** BlockExecutor.Validate. A commit of height 0 may carry no signature, and indexing it panics. */
  function Validate(w: World, s: State, block: Block, commit: Commit): Verdict {
    if |block.header.proposer| == 0 || !BasicCommit(block.lastCommit) then Reject
    else if block.header.version != s.version then Reject
    else if s.lastBlockHeight <= 0 && block.header.height != INITIAL_HEIGHT then Reject
    else if s.lastBlockHeight > 0 && block.header.height != s.lastStoreHeight + 1 then Reject
    else if block.header.appHash != s.appHash || block.header.lastResultsHash != s.lastResultsHash then Reject
    else if !BasicCommit(commit) then Reject
    else if |commit.signatures| == 0 then Panic
    else if w.verifies(commit.signatures[0], block.header) then Accept else Reject
  }

  /** All that validation asks of a block apart from its commit. */
  predicate Fitting(s: State, block: Block) {
    && block.header.proposer != [] && BasicCommit(block.lastCommit) && block.header.version == s.version
    && block.header.height == (if s.lastBlockHeight == 0 then INITIAL_HEIGHT else s.lastStoreHeight + 1)
    && block.header.appHash == s.appHash && block.header.lastResultsHash == s.lastResultsHash
  }

  /** Validation panics exactly on a fitting block whose commit has height 0 and no signature, and
      accepts exactly a fitting block whose commit has a good signature. */
  lemma ValidateExactly(w: World, s: State, block: Block, commit: Commit)
    ensures Validate(w, s, block, commit) == Panic <==>
            Fitting(s, block) && commit.height == 0 && commit.signatures == []
    ensures Validate(w, s, block, commit) == Accept <==>
            && Fitting(s, block) && commit.signatures != [] && w.verifies(commit.signatures[0], block.header)
            && (commit.height == 0 || (|commit.signatures| == 1 && |commit.signatures[0]| <= 64))
    ensures Fitting(s, block) <==>
            && |block.header.proposer| > 0 && block.header.version == s.version
            && block.header.height == (if s.lastBlockHeight == 0 then 1 else s.lastStoreHeight + 1)
            && block.header.appHash == s.appHash && block.header.lastResultsHash == s.lastResultsHash
            && var c := block.lastCommit;
               c.height == 0 || (|c.signatures| == 1 && |c.signatures[0]| <= 64)
  {
  }

  /** Reading a stored state back changes nothing but the store height of old files, which lack it. */
  lemma FromProtoExactly(s: State)
    ensures FromProto(s).(lastStoreHeight := s.lastStoreHeight) == s
    ensures FromProto(s).lastStoreHeight ==
            if s.lastStoreHeight == 0 && s.lastBlockHeight > 1 then s.lastBlockHeight else s.lastStoreHeight
  {
  }

  /** The verdict does not look at the transactions: nothing ties them to the header that is signed. */
  lemma BodyUnbound(w: World, s: State, block: Block, commit: Commit, txs: seq<Tx>)
    ensures Validate(w, s, block.(txs := txs), commit) == Validate(w, s, block, commit)
  {
  }

  /** What the mempool, the clock and the node's identity contribute to a new block. */
  datatype Proposal = Proposal(txs: seq<Tx>, time: nat, proposer: seq<nat>, rest: nat)

  /** BlockExecutor.CreateBlock */
  function CreateBlock(height: nat, lastCommit: Commit, lastHeaderHash: Hash, s: State, p: Proposal): Block {
    Block(Header(s.version, height, p.time, lastHeaderHash, s.appHash, s.lastResultsHash, p.proposer, p.rest),
          p.txs, lastCommit)
  }
}
