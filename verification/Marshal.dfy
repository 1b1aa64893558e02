/**
 MarshalToSizedBuffer of types/pb/dymint/dymint.pb.go: every message is written backwards, last
 field first, into a buffer of which Size bytes are free below index i. Nested messages are
 written in place and their length prefix is put in front of them.
 */
module Marshal {
  import opened Wrappers
  import opened Varint
  import opened Wire
  import opened Messages
  import opened RoundTrip

  /** A field group in front of what is already written. */
  function Written(fs: seq<Field>, done: seq<Field>, tail: seq<byte>): seq<byte> {
    Concat(fs + done) + tail
  }

  lemma WrittenOne(f: Field, done: seq<Field>, tail: seq<byte>)
    ensures Written([f], done, tail) == FieldBytes(f) + (Concat(done) + tail)
  {
    assert ([f] + done)[1..] == done;
  }

  /** i--; dAtA[i] = tag */
  method PutByte(buf: array<byte>, i: nat, b: byte) returns (j: nat)
    requires 1 <= i <= buf.Length
    modifies buf
    ensures j == i - 1 && buf[j..] == [b] + old(buf[i..])
  {
    j := i - 1;
    buf[j] := b;
  }

  method PutVarint(buf: array<byte>, i: nat, v: nat) returns (j: nat)
    requires Sov(v) <= i <= buf.Length
    modifies buf
    ensures j == i - Sov(v) && buf[j..] == Encoded(v) + old(buf[i..])
  {
    j := EncodeVarint(buf, i, v);
    assert buf[j..] == buf[j..i] + buf[i..];
  }

  /** i -= len(payload); copy(dAtA[i:], payload) */
  method PutPayload(buf: array<byte>, i: nat, payload: seq<byte>) returns (j: nat)
    requires |payload| <= i <= buf.Length
    modifies buf
    ensures j == i - |payload| && buf[j..] == payload + old(buf[i..])
  {
    j := i - |payload|;
    ghost var tail := buf[i..];
    for k := 0 to |payload|
      invariant buf[j..j + k] == payload[..k] && buf[i..] == tail
    {
      buf[j + k] := payload[k];
      assert buf[j..j + k + 1] == buf[j..j + k] + [payload[k]];
    }
    assert buf[j..] == buf[j..i] + buf[i..];
  }

  method PutUint(buf: array<byte>, i: nat, num: nat, v: uint64, ghost done: seq<Field>, ghost tail: seq<byte>)
    returns (j: nat)
    requires num <= 15 && UintSize(v) <= i <= buf.Length && buf[i..] == Concat(done) + tail
    modifies buf
    ensures j == i - UintSize(v) && buf[j..] == Written(UintField(num, v), done, tail)
  {
    hide Encoded, Sov, Concat, Tag;
    j := i;
    if v != 0 {
      TagIsOneByte(num, 0);
      WrittenOne(Uint(num, v), done, tail);
      j := PutVarint(buf, j, v);
      j := PutByte(buf, j, Tag(num, 0));
    } else {
      assert [] + done == done;
    }
  }

  /** The length prefix and tag of a payload that is already in the buffer. */
  method PutPrefix(buf: array<byte>, i: nat, num: nat, size: nat, ghost payload: seq<byte>,
                   ghost done: seq<Field>, ghost tail: seq<byte>)
    returns (j: nat)
    requires num <= 15 && size == |payload| && 1 + Sov(size) <= i <= buf.Length
    requires buf[i..] == payload + (Concat(done) + tail)
    modifies buf
    ensures j == i - 1 - Sov(size) && buf[j..] == Written([Bytes(num, payload)], done, tail)
  {
    hide Encoded, Sov, Concat, Tag;
    TagIsOneByte(num, 2);
    WrittenOne(Bytes(num, payload), done, tail);
    j := PutVarint(buf, i, size);
    j := PutByte(buf, j, Tag(num, 2));
  }

  method PutBytes(buf: array<byte>, i: nat, num: nat, payload: seq<byte>, ghost done: seq<Field>, ghost tail: seq<byte>)
    returns (j: nat)
    requires num <= 15 && BytesSize(payload) <= i <= buf.Length && buf[i..] == Concat(done) + tail
    modifies buf
    ensures j == i - BytesSize(payload) && buf[j..] == Written(BytesField(num, payload), done, tail)
  {
    hide Sov, Concat;
    j := i;
    if |payload| > 0 {
      j := PutPayload(buf, j, payload);
      j := PutPrefix(buf, j, num, |payload|, payload, done, tail);
    } else {
      assert [] + done == done;
    }
  }

  /** The loop over a repeated bytes field, from its last element to its first. */
  method PutRepeated(buf: array<byte>, i: nat, num: nat, ps: seq<seq<byte>>,
                     ghost done: seq<Field>, ghost tail: seq<byte>)
    returns (j: nat)
    requires num <= 15 && RepeatedSize(ps) <= i <= buf.Length && buf[i..] == Concat(done) + tail
    modifies buf
    ensures j == i - RepeatedSize(ps) && buf[j..] == Written(Repeated(num, ps), done, tail)
  {
    hide Sov, Concat, Repeated;
    j := i;
    var k := |ps|;
    RepeatedNone(num, ps, done);
    while k > 0
      invariant 0 <= k <= |ps| && j == i - RepeatedSize(ps[k..]) && j <= buf.Length
      invariant buf[j..] == Concat(Repeated(num, ps[k..]) + done) + tail
    {
      k := k - 1;
      RepeatedMore(num, ps, k, done);
      ghost var sofar := Repeated(num, ps[k + 1..]) + done;
      j := PutPayload(buf, j, ps[k]);
      j := PutPrefix(buf, j, num, |ps[k]|, ps[k], sofar, tail);
    }
    assert ps[0..] == ps;
  }

  lemma RepeatedNone(num: nat, ps: seq<seq<byte>>, done: seq<Field>)
    ensures RepeatedSize(ps[|ps|..]) == 0 && Repeated(num, ps[|ps|..]) + done == done
  {
  }

  lemma RepeatedMore(num: nat, ps: seq<seq<byte>>, k: nat, done: seq<Field>)
    requires k < |ps|
    ensures RepeatedSize(ps[k..]) == PayloadSize(|ps[k]|) + RepeatedSize(ps[k + 1..]) <= RepeatedSize(ps)
    ensures Repeated(num, ps[k..]) + done == [Bytes(num, ps[k])] + (Repeated(num, ps[k + 1..]) + done)
  {
    assert ps[k..][1..] == ps[k + 1..];
    RepeatedTail(ps, k);
  }

  lemma {:induction false} RepeatedTail(ps: seq<seq<byte>>, k: nat)
    requires k <= |ps|
    ensures RepeatedSize(ps[k..]) <= RepeatedSize(ps)
  {
    hide PayloadSize;
    if k > 0 {
      RepeatedTail(ps, k - 1);
      assert ps[k - 1..][1..] == ps[k..];
    } else {
      assert ps[0..] == ps;
    }
  }

  method MarshalVersion(buf: array<byte>, i: nat, m: Version) returns (j: nat)
    requires VersionSize(m) <= i <= buf.Length
    modifies buf
    ensures j == i - VersionSize(m) && buf[j..] == VersionBytes(m) + old(buf[i..])
  {
    hide Concat, UintField, UintSize;
    NothingLeft();
    ghost var tail := buf[i..];
    ghost var r1 := UintField(2, m.app) + [];
    j := PutUint(buf, i, 2, m.app, [], tail);
    j := PutUint(buf, j, 1, m.block, r1, tail);
  }

  /** Fields 8 to 13 of a header. */
  method MarshalHeaderTail(buf: array<byte>, i: nat, m: Header) returns (j: nat)
    requires HeaderTailSize(m) <= i <= buf.Length
    modifies buf
    ensures j == i - HeaderTailSize(m) && buf[j..] == Concat(HeaderTail(m)) + old(buf[i..])
  {
    hide Concat, BytesField, BytesSize;
    NothingLeft();
    ghost var tail := buf[i..];
    ghost var r13: seq<Field> := [];
    j := i;
    j := PutBytes(buf, j, 13, m.chainId, r13, tail);
    ghost var r12 := BytesField(13, m.chainId) + r13;
    j := PutBytes(buf, j, 12, m.aggregatorsHash, r12, tail);
    ghost var r11 := BytesField(12, m.aggregatorsHash) + r12;
    j := PutBytes(buf, j, 11, m.proposerAddress, r11, tail);
    ghost var r10 := BytesField(11, m.proposerAddress) + r11;
    j := PutBytes(buf, j, 10, m.lastResultsHash, r10, tail);
    ghost var r9 := BytesField(10, m.lastResultsHash) + r10;
    j := PutBytes(buf, j, 9, m.appHash, r9, tail);
    ghost var r8 := BytesField(9, m.appHash) + r9;
    j := PutBytes(buf, j, 8, m.consensusHash, r8, tail);
    ghost var r7 := BytesField(8, m.consensusHash) + r8;
  }

  function HeaderTailSize(m: Header): nat {
    BytesSize(m.consensusHash) + BytesSize(m.appHash) + BytesSize(m.lastResultsHash)
    + BytesSize(m.proposerAddress) + BytesSize(m.aggregatorsHash) + BytesSize(m.chainId)
  }

  method MarshalHeader(buf: array<byte>, i: nat, m: Header) returns (j: nat)
    requires HeaderSize(m) <= i <= buf.Length
    modifies buf
    ensures j == i - HeaderSize(m) && buf[j..] == HeaderBytes(m) + old(buf[i..])
  {
    hide Concat, BytesField, BytesSize, UintField, UintSize, HeaderTail, VersionBytes, VersionSize, Sov;
    ghost var tail := buf[i..];
    j := MarshalHeaderTail(buf, i, m);
    ghost var r7 := HeaderTail(m);
    j := PutBytes(buf, j, 7, m.dataHash, r7, tail);
    ghost var r6 := BytesField(7, m.dataHash) + r7;
    j := PutBytes(buf, j, 6, m.lastCommitHash, r6, tail);
    ghost var r5 := BytesField(6, m.lastCommitHash) + r6;
    j := PutBytes(buf, j, 5, m.lastHeaderHash, r5, tail);
    ghost var r4 := BytesField(5, m.lastHeaderHash) + r5;
    j := PutUint(buf, j, 4, m.time, r4, tail);
    ghost var r3 := UintField(4, m.time) + r4;
    j := PutUint(buf, j, 3, m.height, r3, tail);
    ghost var r2 := UintField(3, m.height) + r3;
    j := PutBytes(buf, j, 2, m.namespaceId, r2, tail);
    ghost var r1 := BytesField(2, m.namespaceId) + r2;
    if m.version.Some? {
      j := MarshalVersion(buf, j, m.version.value);
      VersionSizeIsLength(m.version.value);
      j := PutPrefix(buf, j, 1, VersionSize(m.version.value), VersionBytes(m.version.value), r1, tail);
    } else {
      assert [] + r1 == r1;
    }
  }

  method MarshalCommit(buf: array<byte>, i: nat, m: Commit) returns (j: nat)
    requires CommitSize(m) <= i <= buf.Length
    modifies buf
    ensures j == i - CommitSize(m) && buf[j..] == CommitBytes(m) + old(buf[i..])
  {
    hide Concat, BytesField, BytesSize, UintField, UintSize, Repeated, RepeatedSize, Sov;
    NothingLeft();
    ghost var tail := buf[i..];
    ghost var r3 := SubField(4, m.tmSignature) + [];
    ghost var r2 := Repeated(3, m.signatures) + r3;
    ghost var r1 := BytesField(2, m.headerHash) + r2;
    j := i;
    if m.tmSignature.Some? {
      j := PutPayload(buf, j, m.tmSignature.value);
      j := PutPrefix(buf, j, 4, |m.tmSignature.value|, m.tmSignature.value, [], tail);
    } else {
      assert r3 == [];
    }
    j := PutRepeated(buf, j, 3, m.signatures, r3, tail);
    j := PutBytes(buf, j, 2, m.headerHash, r2, tail);
    j := PutUint(buf, j, 1, m.height, r1, tail);
  }

  method MarshalData(buf: array<byte>, i: nat, m: Data) returns (j: nat)
    requires DataSize(m) <= i <= buf.Length
    modifies buf
    ensures j == i - DataSize(m) && buf[j..] == DataBytes(m) + old(buf[i..])
  {
    hide Concat, Repeated, RepeatedSize;
    NothingLeft();
    ghost var tail := buf[i..];
    ghost var r2 := Repeated(3, m.evidence) + [];
    ghost var r1 := Repeated(2, m.stateRoots) + r2;
    j := PutRepeated(buf, i, 3, m.evidence, [], tail);
    j := PutRepeated(buf, j, 2, m.stateRoots, r2, tail);
    j := PutRepeated(buf, j, 1, m.txs, r1, tail);
  }

  method MarshalBlock(buf: array<byte>, i: nat, m: Block) returns (j: nat)
    requires BlockSize(m) <= i <= buf.Length
    modifies buf
    ensures j == i - BlockSize(m) && buf[j..] == BlockBytes(m) + old(buf[i..])
  {
    hide Concat, HeaderBytes, HeaderSize, DataBytes, DataSize, CommitBytes, CommitSize, Sov;
    NothingLeft();
    ghost var tail := buf[i..];
    ghost var r2 := SubField(3, if m.lastCommit.Some? then Some(CommitBytes(m.lastCommit.value)) else None) + [];
    ghost var r1 := SubField(2, if m.data.Some? then Some(DataBytes(m.data.value)) else None) + r2;
    j := i;
    if m.lastCommit.Some? {
      j := MarshalCommit(buf, j, m.lastCommit.value);
      CommitSizeIsLength(m.lastCommit.value);
      j := PutPrefix(buf, j, 3, CommitSize(m.lastCommit.value), CommitBytes(m.lastCommit.value), [], tail);
    } else {
      assert r2 == [];
    }
    assert buf[j..] == Concat(r2) + tail;
    if m.data.Some? {
      j := MarshalData(buf, j, m.data.value);
      DataSizeIsLength(m.data.value);
      j := PutPrefix(buf, j, 2, DataSize(m.data.value), DataBytes(m.data.value), r2, tail);
    } else {
      assert [] + r2 == r2;
    }
    assert buf[j..] == Concat(r1) + tail;
    if m.header.Some? {
      j := MarshalHeader(buf, j, m.header.value);
      HeaderSizeIsLength(m.header.value);
      j := PutPrefix(buf, j, 1, HeaderSize(m.header.value), HeaderBytes(m.header.value), r1, tail);
    } else {
      assert [] + r1 == r1;
    }
  }

  method MarshalBlocks(buf: array<byte>, i: nat, blocks: seq<Block>, ghost done: seq<Field>, ghost tail: seq<byte>)
    returns (j: nat)
    requires RepeatedSize(BlocksBytes(blocks)) <= i <= buf.Length && buf[i..] == Concat(done) + tail
    modifies buf
    ensures j == i - RepeatedSize(BlocksBytes(blocks))
    ensures buf[j..] == Written(Repeated(3, BlocksBytes(blocks)), done, tail)
  {
    hide Sov, Concat, Repeated, BlockBytes, BlockSize;
    ghost var ps := BlocksBytes(blocks);
    j := i;
    var k := |blocks|;
    RepeatedNone(3, ps, done);
    while k > 0
      invariant 0 <= k <= |blocks| && j == i - RepeatedSize(ps[k..]) && j <= buf.Length
      invariant buf[j..] == Concat(Repeated(3, ps[k..]) + done) + tail
    {
      k := k - 1;
      RepeatedMore(3, ps, k, done);
      ghost var sofar := Repeated(3, ps[k + 1..]) + done;
      BlockSizeIsLength(blocks[k]);
      j := MarshalBlock(buf, j, blocks[k]);
      j := PutPrefix(buf, j, 3, BlockSize(blocks[k]), ps[k], sofar, tail);
    }
    assert ps[0..] == ps;
  }

  method MarshalCommits(buf: array<byte>, i: nat, commits: seq<Commit>, ghost done: seq<Field>, ghost tail: seq<byte>)
    returns (j: nat)
    requires RepeatedSize(CommitsBytes(commits)) <= i <= buf.Length && buf[i..] == Concat(done) + tail
    modifies buf
    ensures j == i - RepeatedSize(CommitsBytes(commits))
    ensures buf[j..] == Written(Repeated(4, CommitsBytes(commits)), done, tail)
  {
    hide Sov, Concat, Repeated, CommitBytes, CommitSize;
    ghost var ps := CommitsBytes(commits);
    j := i;
    var k := |commits|;
    RepeatedNone(4, ps, done);
    while k > 0
      invariant 0 <= k <= |commits| && j == i - RepeatedSize(ps[k..]) && j <= buf.Length
      invariant buf[j..] == Concat(Repeated(4, ps[k..]) + done) + tail
    {
      k := k - 1;
      RepeatedMore(4, ps, k, done);
      ghost var sofar := Repeated(4, ps[k + 1..]) + done;
      CommitSizeIsLength(commits[k]);
      j := MarshalCommit(buf, j, commits[k]);
      j := PutPrefix(buf, j, 4, CommitSize(commits[k]), ps[k], sofar, tail);
    }
    assert ps[0..] == ps;
  }

  method MarshalBatch(buf: array<byte>, i: nat, m: Batch) returns (j: nat)
    requires BatchSize(m) <= i <= buf.Length
    modifies buf
    ensures j == i - BatchSize(m) && buf[j..] == BatchBytes(m) + old(buf[i..])
  {
    hide Concat, UintField, UintSize, Repeated, RepeatedSize, BlocksBytes, CommitsBytes, BlocksSize, CommitsSize;
    NothingLeft();
    BlocksSizeIsRepeated(m.blocks);
    CommitsSizeIsRepeated(m.commits);
    ghost var tail := buf[i..];
    ghost var r3 := Repeated(4, CommitsBytes(m.commits)) + [];
    ghost var r2 := Repeated(3, BlocksBytes(m.blocks)) + r3;
    ghost var r1 := UintField(2, m.endHeight) + r2;
    j := MarshalCommits(buf, i, m.commits, [], tail);
    j := MarshalBlocks(buf, j, m.blocks, r3, tail);
    j := PutUint(buf, j, 2, m.endHeight, r2, tail);
    j := PutUint(buf, j, 1, m.startHeight, r1, tail);
  }

  /** Batch.Marshal: a buffer of exactly Size bytes is filled to its first byte, and decoding what it
      holds gives the batch back. */
  method EncodeBatch(m: Batch) returns (data: seq<byte>)
    ensures |data| == BatchSize(m) && data == BatchBytes(m)
    ensures BatchSize(m) < TWO_63 ==> Unmarshal(BATCH_CODEC, NO_BATCH, data, 0) == Ok(m)
  {
    hide BatchBytes, Unmarshal;
    var buf := new byte[BatchSize(m)](_ => 0);
    var j := MarshalBatch(buf, BatchSize(m), m);
    data := buf[..];
    assert buf[BatchSize(m)..] == [] && buf[0..] == data;
    if BatchSize(m) < TWO_63 {
      BatchRoundTrip(m);
    }
  }
}
