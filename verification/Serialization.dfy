/**
 types/serialization.go: conversion between the node's blocks, with their fixed-size hashes, and
 the wire messages, and the binary form that the store and the data availability layer keep.
 Block evidence has no implementation in the source and is always empty. A CommitSig is carried
 as its encoded bytes, of which the empty sequence stands for the zero value.
 */
module Serialization {
  import opened Wrappers
  import opened Varint
  import opened Wire
  import opened RoundTrip
  import Pb = Messages

  type Bytes8 = s: seq<byte> | |s| == 8 witness [0, 0, 0, 0, 0, 0, 0, 0]
  type Bytes32 = s: seq<byte> | |s| == 32 witness [0, 0, 0, 0, 0, 0, 0, 0, 0, 0, 0, 0, 0, 0, 0, 0,
                                                      0, 0, 0, 0, 0, 0, 0, 0, 0, 0, 0, 0, 0, 0, 0, 0]

  const ZERO_8: Bytes8 := [0, 0, 0, 0, 0, 0, 0, 0]
  const ZERO_32: Bytes32 := ZERO_8 + ZERO_8 + ZERO_8 + ZERO_8

  datatype Header = Header(version: Pb.Version, namespaceID: Bytes8, height: uint64, time: uint64,
                           lastHeaderHash: Bytes32, lastCommitHash: Bytes32, dataHash: Bytes32,
                           consensusHash: Bytes32, appHash: Bytes32, lastResultsHash: Bytes32,
                           proposerAddress: seq<byte>, aggregatorsHash: Bytes32, chainID: seq<byte>)

  datatype Commit = Commit(height: uint64, headerHash: Bytes32, signatures: seq<seq<byte>>, tmSignature: seq<byte>)

  datatype Block = Block(header: Header, txs: seq<seq<byte>>, stateRoots: seq<seq<byte>>, lastCommit: Commit)

  datatype Batch = Batch(startHeight: uint64, endHeight: uint64, blocks: seq<Block>, commits: seq<Commit>)

  /** A conversion succeeds, reports a slice of the wrong length, or panics on a nil pointer or, inside
      a batch, on any error. */
  datatype Conversion<+T> = Converted(value: T) | BadLength | Panic | BadBytes(error: Error)

  const ZERO_COMMIT := Commit(0, ZERO_32, [], [])

  function HeaderToProto(h: Header): Pb.Header {
    Pb.Header(Some(h.version), h.namespaceID, h.height, h.time, h.lastHeaderHash, h.lastCommitHash, h.dataHash,
              h.consensusHash, h.appHash, h.lastResultsHash, h.proposerAddress, h.aggregatorsHash, h.chainID)
  }

  function HeaderFromProto(p: Pb.Header): Conversion<Header> {
    if p.version == None then Panic
    else if |p.namespaceId| != 8 then BadLength
    else if |p.lastHeaderHash| != 32 || |p.lastCommitHash| != 32 || |p.dataHash| != 32 then BadLength
    else if |p.consensusHash| != 32 || |p.appHash| != 32 || |p.lastResultsHash| != 32 then BadLength
    else if |p.aggregatorsHash| != 32 then BadLength
    else
      Converted(Header(p.version.value, p.namespaceId, p.height, p.time, p.lastHeaderHash, p.lastCommitHash,
                       p.dataHash, p.consensusHash, p.appHash, p.lastResultsHash, p.proposerAddress,
                       p.aggregatorsHash, p.chainId))
  }

  function CommitToProto(c: Commit): Pb.Commit {
    Pb.Commit(c.height, c.headerHash, c.signatures, Some(c.tmSignature))
  }

  function CommitFromProto(p: Pb.Commit): Conversion<Commit> {
    if |p.headerHash| != 32 then BadLength
    else Converted(Commit(p.height, p.headerHash, p.signatures,
                          if p.tmSignature.Some? then p.tmSignature.value else []))
  }

  function LastCommitFromProto(p: Option<Pb.Commit>): Conversion<Commit> {
    if p.Some? then CommitFromProto(p.value) else Converted(ZERO_COMMIT)
  }

  function BlockToProto(b: Block): Pb.Block {
    Pb.Block(Some(HeaderToProto(b.header)), Some(Pb.Data(b.txs, b.stateRoots, [])), Some(CommitToProto(b.lastCommit)))
  }

  function BlockFromProto(p: Pb.Block): Conversion<Block> {
    if p.header == None then Panic
    else
      match HeaderFromProto(p.header.value)
      case Panic => Panic
      case BadLength => BadLength
      case BadBytes(e) => BadBytes(e)
      case Converted(header) =>
        if p.data == None then Panic
        else
          match LastCommitFromProto(p.lastCommit)
          case Converted(c) => Converted(Block(header, p.data.value.txs, p.data.value.stateRoots, c))
          case _ => BadLength
  }

  function BlocksToProto(bs: seq<Block>): (ps: seq<Pb.Block>)
    ensures |ps| == |bs| && forall i | 0 <= i < |bs| :: ps[i] == BlockToProto(bs[i])
  {
    seq(|bs|, i requires 0 <= i < |bs| => BlockToProto(bs[i]))
  }

  function CommitsToProto(cs: seq<Commit>): (ps: seq<Pb.Commit>)
    ensures |ps| == |cs| && forall i | 0 <= i < |cs| :: ps[i] == CommitToProto(cs[i])
  {
    seq(|cs|, i requires 0 <= i < |cs| => CommitToProto(cs[i]))
  }

  /** protoToBlocks: any failure panics. */
  function BlocksFromProto(ps: seq<Pb.Block>): Conversion<seq<Block>> {
    if ps == [] then Converted([])
    else
      match (BlockFromProto(ps[0]), BlocksFromProto(ps[1..]))
      case (Converted(b), Converted(bs)) => Converted([b] + bs)
      case _ => Panic
  }

  function CommitsFromProto(ps: seq<Pb.Commit>): Conversion<seq<Commit>> {
    if ps == [] then Converted([])
    else
      match (CommitFromProto(ps[0]), CommitsFromProto(ps[1..]))
      case (Converted(c), Converted(cs)) => Converted([c] + cs)
      case _ => Panic
  }

  function BatchToProto(b: Batch): Pb.Batch {
    Pb.Batch(b.startHeight, b.endHeight, BlocksToProto(b.blocks), CommitsToProto(b.commits))
  }

  function BatchFromProto(p: Pb.Batch): Conversion<Batch> {
    match (BlocksFromProto(p.blocks), CommitsFromProto(p.commits))
    case (Converted(bs), Converted(cs)) => Converted(Batch(p.startHeight, p.endHeight, bs, cs))
    case _ => Panic
  }

  /** Block.UnmarshalBinary */
  function BlockFromBinary(data: seq<byte>): Conversion<Block> {
    match Unmarshal(Pb.BLOCK_CODEC, Pb.NO_BLOCK, data, 0)
    case Err(e) => BadBytes(e)
    case Ok(p) => BlockFromProto(p)
  }

  /** Batch.UnmarshalBinary */
  function BatchFromBinary(data: seq<byte>): Conversion<Batch> {
    match Unmarshal(Pb.BATCH_CODEC, Pb.NO_BATCH, data, 0)
    case Err(e) => BadBytes(e)
    case Ok(p) => BatchFromProto(p)
  }

  /** A message converts to a block exactly when it is the message of a block, up to a missing last
      commit or commit signature, and then it converts to that block. */
  lemma FromProtoExact(p: Pb.Block, b: Block)
    ensures BlockFromProto(p) == Converted(b) <==>
            && p.header == Some(HeaderToProto(b.header))
            && p.data.Some? && p.data.value.txs == b.txs && p.data.value.stateRoots == b.stateRoots
            && (match p.lastCommit
                case None =>
                  var Commit(height, headerHash, signatures, tmSignature) := b.lastCommit;
                  height == 0 && (forall x | x in headerHash :: x == 0) && signatures == [] && tmSignature == []
                case Some(c) =>
                  && c.(tmSignature := Some(b.lastCommit.tmSignature)) == CommitToProto(b.lastCommit)
                  && (c.tmSignature == None ==> b.lastCommit.tmSignature == [])
                  && (c.tmSignature.Some? ==> c.tmSignature.value == b.lastCommit.tmSignature))
  {
    if p.header.Some? {
      HeaderExact(p.header.value, b.header);
    }
    ZeroCommitIs(b.lastCommit);
  }

  lemma ZeroCommitIs(c: Commit)
    ensures c == ZERO_COMMIT <==>
            c.height == 0 && (forall x | x in c.headerHash :: x == 0) && c.signatures == [] && c.tmSignature == []
  {
    var zeros := ZERO_COMMIT.headerHash;
    assert forall i | 0 <= i < 32 :: zeros[i] == 0;
    if forall x | x in c.headerHash :: x == 0 {
      assert forall i | 0 <= i < 32 :: c.headerHash[i] in c.headerHash;
      assert c.headerHash == zeros;
    }
  }

  lemma HeaderExact(p: Pb.Header, h: Header)
    ensures HeaderFromProto(p) == Converted(h) <==> p == HeaderToProto(h)
  {
  }

  predicate WrongLengths(p: Pb.Header) {
    || |p.namespaceId| != 8
    || exists hash | hash in {p.lastHeaderHash, p.lastCommitHash, p.dataHash, p.consensusHash, p.appHash,
                              p.lastResultsHash, p.aggregatorsHash} :: |hash| != 32
  }

  /** Which messages are not blocks, and how that shows: a missing part panics unless a wrong length was met
      before it, and a wrong length is an error. */
  lemma FromProtoFails(p: Pb.Block)
    ensures var r := BlockFromProto(p);
            var headed := p.header.Some? && p.header.value.version.Some?;
            && (r.Panic? <==> !headed || (!WrongLengths(p.header.value) && p.data == None))
            && (r.BadLength? <==>
                && headed
                && (|| WrongLengths(p.header.value)
                    || (p.data.Some? && p.lastCommit.Some? && |p.lastCommit.value.headerHash| != 32)))
            && !r.BadBytes?
  {
    if p.header.Some? {
      HeaderFails(p.header.value);
    }
  }

  lemma HeaderFails(p: Pb.Header)
    ensures var r := HeaderFromProto(p);
            && (r.Panic? <==> p.version == None)
            && (r.BadLength? <==> p.version.Some? && WrongLengths(p))
            && !r.BadBytes?
  {
  }

  lemma {:induction false} BlocksConvert(ps: seq<Pb.Block>)
    ensures var r := BlocksFromProto(ps);
            && (r.Converted? <==> forall i | 0 <= i < |ps| :: BlockFromProto(ps[i]).Converted?)
            && (r.Converted? ==>
                |r.value| == |ps| && forall i | 0 <= i < |ps| :: BlockFromProto(ps[i]) == Converted(r.value[i]))
            && (r.Converted? || r.Panic?)
  {
    hide BlockFromProto;
    if ps != [] {
      BlocksConvert(ps[1..]);
      assert forall i | 1 <= i < |ps| :: ps[i] == ps[1..][i - 1];
    }
  }

  lemma {:induction false} CommitsConvert(ps: seq<Pb.Commit>)
    ensures var r := CommitsFromProto(ps);
            && (r.Converted? <==> forall i | 0 <= i < |ps| :: |ps[i].headerHash| == 32)
            && (r.Converted? ==>
                |r.value| == |ps| && forall i | 0 <= i < |ps| :: CommitFromProto(ps[i]) == Converted(r.value[i]))
            && (r.Converted? || r.Panic?)
  {
    if ps != [] {
      CommitsConvert(ps[1..]);
      assert forall i | 1 <= i < |ps| :: ps[i] == ps[1..][i - 1];
    }
  }

  /** A batch converts block by block and commit by commit, in order; one that does not convert panics. */
  lemma BatchConverts(p: Pb.Batch)
    ensures var r := BatchFromProto(p);
            && (r.Converted? <==>
                && (forall i | 0 <= i < |p.blocks| :: BlockFromProto(p.blocks[i]).Converted?)
                && (forall i | 0 <= i < |p.commits| :: |p.commits[i].headerHash| == 32))
            && (r.Converted? ==>
                && r.value.startHeight == p.startHeight && r.value.endHeight == p.endHeight
                && |r.value.blocks| == |p.blocks| && |r.value.commits| == |p.commits|
                && (forall i | 0 <= i < |p.blocks| :: BlockFromProto(p.blocks[i]) == Converted(r.value.blocks[i]))
                && (forall i | 0 <= i < |p.commits| :: CommitFromProto(p.commits[i]) == Converted(r.value.commits[i])))
            && (r.Converted? || r.Panic?)
  {
    hide BlockFromProto, CommitFromProto, BlocksFromProto, CommitsFromProto;
    BlocksConvert(p.blocks);
    CommitsConvert(p.commits);
  }

  /** What the store saves is what it loads. */
  lemma BlockBinaryRoundTrip(b: Block)
    requires Pb.BlockSize(BlockToProto(b)) < TWO_63
    ensures BlockFromBinary(Pb.BlockBytes(BlockToProto(b))) == Converted(b)
  {
    hide Unmarshal, Pb.BlockBytes, Pb.BlockSize;
    BlockRoundTrip(BlockToProto(b));
  }

  lemma {:induction false} BlocksConvertBack(bs: seq<Block>)
    ensures BlocksFromProto(BlocksToProto(bs)) == Converted(bs)
    decreases |bs|
  {
    if bs != [] {
      BlocksConvertBack(bs[1..]);
      assert BlocksToProto(bs)[1..] == BlocksToProto(bs[1..]);
      FromProtoExact(BlockToProto(bs[0]), bs[0]);
      assert [bs[0]] + bs[1..] == bs;
    }
  }

  lemma {:induction false} CommitsConvertBack(cs: seq<Commit>)
    ensures CommitsFromProto(CommitsToProto(cs)) == Converted(cs)
    decreases |cs|
  {
    if cs != [] {
      CommitsConvertBack(cs[1..]);
      assert CommitsToProto(cs)[1..] == CommitsToProto(cs[1..]);
      assert [cs[0]] + cs[1..] == cs;
    }
  }

  /** What is submitted to the data availability layer is what a syncing node applies. */
  lemma BatchBinaryRoundTrip(b: Batch)
    requires Pb.BatchSize(BatchToProto(b)) < TWO_63
    ensures BatchFromBinary(Pb.BatchBytes(BatchToProto(b))) == Converted(b)
  {
    hide Unmarshal, Pb.BatchBytes, Pb.BatchSize, BlocksFromProto, CommitsFromProto;
    BatchRoundTrip(BatchToProto(b));
    BlocksConvertBack(b.blocks);
    CommitsConvertBack(b.commits);
  }
}
