/**
 The messages of types/pb/dymint/dymint.pb.go, their field lists in encoding order, their Size
 functions and what Unmarshal does with each field. A nil pointer is None; nil and empty byte
 slices are one. Tendermint's CommitSig and Evidence are carried as their encoded bytes.
 */
module Messages {
  import opened Wrappers
  import opened Varint
  import opened Wire

  datatype Version = Version(block: uint64, app: uint64)

  datatype Header = Header(version: Option<Version>, namespaceId: seq<byte>, height: uint64, time: uint64,
                           lastHeaderHash: seq<byte>, lastCommitHash: seq<byte>, dataHash: seq<byte>,
                           consensusHash: seq<byte>, appHash: seq<byte>, lastResultsHash: seq<byte>,
                           proposerAddress: seq<byte>, aggregatorsHash: seq<byte>, chainId: seq<byte>)

  datatype Commit = Commit(height: uint64, headerHash: seq<byte>, signatures: seq<seq<byte>>,
                           tmSignature: Option<seq<byte>>)

  datatype Data = Data(txs: seq<seq<byte>>, stateRoots: seq<seq<byte>>, evidence: seq<seq<byte>>)

  datatype Block = Block(header: Option<Header>, data: Option<Data>, lastCommit: Option<Commit>)

  datatype Batch = Batch(startHeight: uint64, endHeight: uint64, blocks: seq<Block>, commits: seq<Commit>)

  const NO_VERSION := Version(0, 0)
  const NO_HEADER := Header(None, [], 0, 0, [], [], [], [], [], [], [], [], [])
  const NO_COMMIT := Commit(0, [], [], None)
  const NO_DATA := Data([], [], [])
  const NO_BLOCK := Block(None, None, None)
  const NO_BATCH := Batch(0, 0, [], [])

  // Field lists

  /** A number, left out when zero. */
  function UintField(num: nat, v: uint64): seq<Field> {
    if v == 0 then [] else [Uint(num, v)]
  }

  /** Bytes, left out when empty. */
  function BytesField(num: nat, payload: seq<byte>): seq<Field> {
    if payload == [] then [] else [Bytes(num, payload)]
  }

  /** A submessage, left out when nil. */
  function SubField(num: nat, payload: Option<seq<byte>>): seq<Field> {
    if payload == None then [] else [Bytes(num, payload.value)]
  }

  /** A repeated field: one entry per element, empty or not. */
  function Repeated(num: nat, payloads: seq<seq<byte>>): (fs: seq<Field>)
    ensures |fs| == |payloads| && forall i | 0 <= i < |fs| :: fs[i] == Bytes(num, payloads[i])
  {
    seq(|payloads|, i requires 0 <= i < |payloads| => Bytes(num, payloads[i]))
  }

  function VersionFields(m: Version): seq<Field> {
    UintField(1, m.block) + (UintField(2, m.app) + [])
  }

  function VersionBytes(m: Version): seq<byte> {
    Concat(VersionFields(m))
  }

  function HeaderFields(m: Header): seq<Field> {
    SubField(1, if m.version.Some? then Some(VersionBytes(m.version.value)) else None) +
    (BytesField(2, m.namespaceId) + (UintField(3, m.height) + (UintField(4, m.time) +
    (BytesField(5, m.lastHeaderHash) + (BytesField(6, m.lastCommitHash) + (BytesField(7, m.dataHash) +
    HeaderTail(m)))))))
  }

  /** Fields 8 to 13. */
  function HeaderTail(m: Header): seq<Field> {
    BytesField(8, m.consensusHash) + (BytesField(9, m.appHash) + (BytesField(10, m.lastResultsHash) +
    (BytesField(11, m.proposerAddress) + (BytesField(12, m.aggregatorsHash) + (BytesField(13, m.chainId) + [])))))
  }

  function HeaderBytes(m: Header): seq<byte> {
    Concat(HeaderFields(m))
  }

  function CommitFields(m: Commit): seq<Field> {
    UintField(1, m.height) + (BytesField(2, m.headerHash) +
    (Repeated(3, m.signatures) + (SubField(4, m.tmSignature) + [])))
  }

  function CommitBytes(m: Commit): seq<byte> {
    Concat(CommitFields(m))
  }

  function DataFields(m: Data): seq<Field> {
    Repeated(1, m.txs) + (Repeated(2, m.stateRoots) + (Repeated(3, m.evidence) + []))
  }

  function DataBytes(m: Data): seq<byte> {
    Concat(DataFields(m))
  }

  function BlockFields(m: Block): seq<Field> {
    SubField(1, if m.header.Some? then Some(HeaderBytes(m.header.value)) else None) +
    (SubField(2, if m.data.Some? then Some(DataBytes(m.data.value)) else None) +
    (SubField(3, if m.lastCommit.Some? then Some(CommitBytes(m.lastCommit.value)) else None) + []))
  }

  function BlockBytes(m: Block): seq<byte> {
    Concat(BlockFields(m))
  }

  function BlocksBytes(blocks: seq<Block>): (bs: seq<seq<byte>>)
    ensures |bs| == |blocks| && forall i | 0 <= i < |bs| :: bs[i] == BlockBytes(blocks[i])
  {
    seq(|blocks|, i requires 0 <= i < |blocks| => BlockBytes(blocks[i]))
  }

  function CommitsBytes(commits: seq<Commit>): (bs: seq<seq<byte>>)
    ensures |bs| == |commits| && forall i | 0 <= i < |bs| :: bs[i] == CommitBytes(commits[i])
  {
    seq(|commits|, i requires 0 <= i < |commits| => CommitBytes(commits[i]))
  }

  function BatchFields(m: Batch): seq<Field> {
    UintField(1, m.startHeight) + (UintField(2, m.endHeight) +
    (Repeated(3, BlocksBytes(m.blocks)) + (Repeated(4, CommitsBytes(m.commits)) + [])))
  }

  function BatchBytes(m: Batch): seq<byte> {
    Concat(BatchFields(m))
  }

  // Size, as the source adds it up

  function UintSize(v: uint64): nat {
    if v == 0 then 0 else 1 + Sov(v)
  }

  /** 1 + l + sovDymint(l) */
  function PayloadSize(l: nat): nat {
    1 + l + Sov(l)
  }

  function BytesSize(payload: seq<byte>): nat {
    if payload == [] then 0 else PayloadSize(|payload|)
  }

  function RepeatedSize(payloads: seq<seq<byte>>): nat {
    if payloads == [] then 0 else PayloadSize(|payloads[0]|) + RepeatedSize(payloads[1..])
  }

  function VersionSize(m: Version): nat {
    UintSize(m.block) + UintSize(m.app)
  }

  function HeaderSize(m: Header): nat {
    (if m.version.Some? then PayloadSize(VersionSize(m.version.value)) else 0)
    + BytesSize(m.namespaceId) + UintSize(m.height) + UintSize(m.time)
    + BytesSize(m.lastHeaderHash) + BytesSize(m.lastCommitHash) + BytesSize(m.dataHash)
    + BytesSize(m.consensusHash) + BytesSize(m.appHash) + BytesSize(m.lastResultsHash)
    + BytesSize(m.proposerAddress) + BytesSize(m.aggregatorsHash) + BytesSize(m.chainId)
  }

  function CommitSize(m: Commit): nat {
    UintSize(m.height) + BytesSize(m.headerHash) + RepeatedSize(m.signatures)
    + (if m.tmSignature.Some? then PayloadSize(|m.tmSignature.value|) else 0)
  }

  function DataSize(m: Data): nat {
    RepeatedSize(m.txs) + RepeatedSize(m.stateRoots) + RepeatedSize(m.evidence)
  }

  function BlockSize(m: Block): nat {
    (if m.header.Some? then PayloadSize(HeaderSize(m.header.value)) else 0)
    + (if m.data.Some? then PayloadSize(DataSize(m.data.value)) else 0)
    + (if m.lastCommit.Some? then PayloadSize(CommitSize(m.lastCommit.value)) else 0)
  }

  function BlocksSize(blocks: seq<Block>): nat {
    if blocks == [] then 0 else PayloadSize(BlockSize(blocks[0])) + BlocksSize(blocks[1..])
  }

  function CommitsSize(commits: seq<Commit>): nat {
    if commits == [] then 0 else PayloadSize(CommitSize(commits[0])) + CommitsSize(commits[1..])
  }

  function BatchSize(m: Batch): nat {
    UintSize(m.startHeight) + UintSize(m.endHeight) + BlocksSize(m.blocks) + CommitsSize(m.commits)
  }

  // What Unmarshal does with a field

  function VersionKind(num: nat): Option<Kind> {
    if num in {1, 2} then Some(UintKind) else None
  }

  function PutVersion(m: Version, f: Field): Result<Version> {
    match f
    case Uint(1, v) => Ok(m.(block := v))
    case Uint(2, v) => Ok(m.(app := v))
    case _ => Ok(m)
  }

  const VERSION_CODEC := Codec(VersionKind, PutVersion)

  function HeaderKind(num: nat): Option<Kind> {
    if num in {3, 4} then Some(UintKind) else if 1 <= num <= 13 then Some(BytesKind) else None
  }

  function PutHeader(m: Header, f: Field): Result<Header> {
    match f
    case Bytes(1, p) =>
      (match Unmarshal(VERSION_CODEC, if m.version.Some? then m.version.value else NO_VERSION, p, 0)
       case Ok(v) => Ok(m.(version := Some(v)))
       case Err(e) => Err(e))
    case Bytes(2, p) => Ok(m.(namespaceId := p))
    case Uint(3, v) => Ok(m.(height := v))
    case Uint(4, v) => Ok(m.(time := v))
    case Bytes(5, p) => Ok(m.(lastHeaderHash := p))
    case Bytes(6, p) => Ok(m.(lastCommitHash := p))
    case Bytes(7, p) => Ok(m.(dataHash := p))
    case Bytes(8, p) => Ok(m.(consensusHash := p))
    case Bytes(9, p) => Ok(m.(appHash := p))
    case Bytes(10, p) => Ok(m.(lastResultsHash := p))
    case Bytes(11, p) => Ok(m.(proposerAddress := p))
    case Bytes(12, p) => Ok(m.(aggregatorsHash := p))
    case Bytes(13, p) => Ok(m.(chainId := p))
    case _ => Ok(m)
  }

  const HEADER_CODEC := Codec(HeaderKind, PutHeader)

  function CommitKind(num: nat): Option<Kind> {
    if num == 1 then Some(UintKind) else if num in {2, 3, 4} then Some(BytesKind) else None
  }

  function PutCommit(m: Commit, f: Field): Result<Commit> {
    match f
    case Uint(1, v) => Ok(m.(height := v))
    case Bytes(2, p) => Ok(m.(headerHash := p))
    case Bytes(3, p) => Ok(m.(signatures := m.signatures + [p]))
    case Bytes(4, p) => Ok(m.(tmSignature := Some(p)))
    case _ => Ok(m)
  }

  const COMMIT_CODEC := Codec(CommitKind, PutCommit)

  function DataKind(num: nat): Option<Kind> {
    if num in {1, 2, 3} then Some(BytesKind) else None
  }

  function PutData(m: Data, f: Field): Result<Data> {
    match f
    case Bytes(1, p) => Ok(m.(txs := m.txs + [p]))
    case Bytes(2, p) => Ok(m.(stateRoots := m.stateRoots + [p]))
    case Bytes(3, p) => Ok(m.(evidence := m.evidence + [p]))
    case _ => Ok(m)
  }

  const DATA_CODEC := Codec(DataKind, PutData)

  function BlockKind(num: nat): Option<Kind> {
    if num in {1, 2, 3} then Some(BytesKind) else None
  }

  function PutBlock(m: Block, f: Field): Result<Block> {
    match f
    case Bytes(1, p) =>
      (match Unmarshal(HEADER_CODEC, if m.header.Some? then m.header.value else NO_HEADER, p, 0)
       case Ok(h) => Ok(m.(header := Some(h)))
       case Err(e) => Err(e))
    case Bytes(2, p) =>
      (match Unmarshal(DATA_CODEC, if m.data.Some? then m.data.value else NO_DATA, p, 0)
       case Ok(d) => Ok(m.(data := Some(d)))
       case Err(e) => Err(e))
    case Bytes(3, p) =>
      (match Unmarshal(COMMIT_CODEC, if m.lastCommit.Some? then m.lastCommit.value else NO_COMMIT, p, 0)
       case Ok(c) => Ok(m.(lastCommit := Some(c)))
       case Err(e) => Err(e))
    case _ => Ok(m)
  }

  const BLOCK_CODEC := Codec(BlockKind, PutBlock)

  function BatchKind(num: nat): Option<Kind> {
    if num in {1, 2} then Some(UintKind) else if num in {3, 4} then Some(BytesKind) else None
  }

  function PutBatch(m: Batch, f: Field): Result<Batch> {
    match f
    case Uint(1, v) => Ok(m.(startHeight := v))
    case Uint(2, v) => Ok(m.(endHeight := v))
    case Bytes(3, p) =>
      (match Unmarshal(BLOCK_CODEC, NO_BLOCK, p, 0)
       case Ok(b) => Ok(m.(blocks := m.blocks + [b]))
       case Err(e) => Err(e))
    case Bytes(4, p) =>
      (match Unmarshal(COMMIT_CODEC, NO_COMMIT, p, 0)
       case Ok(c) => Ok(m.(commits := m.commits + [c]))
       case Err(e) => Err(e))
    case _ => Ok(m)
  }

  const BATCH_CODEC := Codec(BatchKind, PutBatch)
}
