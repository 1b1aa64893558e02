/**
 Unmarshal undoes Marshal, and Size is the number of bytes, for every message of
 types/pb/dymint/dymint.pb.go.
 */
module RoundTrip {
  import opened Wrappers
  import opened Varint
  import opened Wire
  import opened Messages

  lemma {:induction false} ConcatAppend(xs: seq<Field>, ys: seq<Field>)
    ensures Concat(xs + ys) == Concat(xs) + Concat(ys)
  {
    hide FieldBytes;
    if xs == [] {
      assert xs + ys == ys;
    } else {
      assert (xs + ys)[0] == xs[0] && (xs + ys)[1..] == xs[1..] + ys;
      ConcatAppend(xs[1..], ys);
    }
  }

  /** Storing a group of fields and then the rest. */
  lemma {:induction false} PutGroup<M>(codec: Codec<M>, m: M, fs: seq<Field>, m': M, rest: seq<Field>)
    requires PutAll(codec, m, fs) == Ok(m')
    ensures PutAll(codec, m, fs + rest) == PutAll(codec, m', rest)
    decreases |fs|
  {
    if fs == [] {
      assert fs + rest == rest;
    } else {
      assert (fs + rest)[0] == fs[0] && (fs + rest)[1..] == fs[1..] + rest;
      PutGroup(codec, codec.put(m, fs[0]).value, fs[1..], m', rest);
    }
  }

  predicate AllDeclared(kind: nat -> Option<Kind>, fs: seq<Field>) {
    forall f | f in fs :: Declared(kind, f)
  }

  /** Decoding the bytes of a field list that stores back to m gives m. */
  lemma DecodesTo<M>(codec: Codec<M>, init: M, fs: seq<Field>, m: M)
    requires |Concat(fs)| < TWO_63 && AllDeclared(codec.kind, fs)
    requires PutAll(codec, init, fs) == Ok(m)
    ensures Unmarshal(codec, init, Concat(fs), 0) == Ok(m)
  {
    assert Concat(fs)[0..] == Concat(fs);
    UnmarshalFields(codec, init, Concat(fs), 0, fs);
  }

  // Sizes

  lemma TagIsOneByte(num: nat, wireType: nat)
    requires num <= 15 && wireType < 8
    ensures Tag(num, wireType) < 128 && Encoded(Tag(num, wireType)) == [Tag(num, wireType)]
  {
  }

  lemma UintFieldSize(num: nat, v: uint64)
    requires num <= 15
    ensures |Concat(UintField(num, v))| == UintSize(v)
  {
    TagIsOneByte(num, 0);
    SovIsLength(v);
    hide Encoded, Sov;
    if v != 0 {
      assert UintField(num, v)[1..] == [];
    }
  }

  lemma PayloadFieldSize(num: nat, payload: seq<byte>)
    requires num <= 15
    ensures |FieldBytes(Bytes(num, payload))| == PayloadSize(|payload|)
    ensures Concat([Bytes(num, payload)]) == FieldBytes(Bytes(num, payload))
  {
    TagIsOneByte(num, 2);
    SovIsLength(|payload|);
    assert [Bytes(num, payload)][1..] == [];
  }

  lemma BytesFieldSize(num: nat, payload: seq<byte>)
    requires num <= 15
    ensures |Concat(BytesField(num, payload))| == BytesSize(payload)
  {
    hide FieldBytes, PayloadSize;
    PayloadFieldSize(num, payload);
  }

  lemma SubFieldSize(num: nat, payload: Option<seq<byte>>)
    requires num <= 15
    ensures |Concat(SubField(num, payload))| == if payload.Some? then PayloadSize(|payload.value|) else 0
  {
    hide FieldBytes, PayloadSize;
    if payload.Some? {
      PayloadFieldSize(num, payload.value);
    }
  }

  lemma {:induction false} RepeatedFieldSize(num: nat, payloads: seq<seq<byte>>)
    requires num <= 15
    ensures |Concat(Repeated(num, payloads))| == RepeatedSize(payloads)
    decreases |payloads|
  {
    hide FieldBytes, PayloadSize;
    if payloads != [] {
      PayloadFieldSize(num, payloads[0]);
      assert Repeated(num, payloads)[1..] == Repeated(num, payloads[1..]);
      RepeatedFieldSize(num, payloads[1..]);
    }
  }

  lemma VersionSizeIsLength(m: Version)
    ensures |VersionBytes(m)| == VersionSize(m)
  {
    hide Concat, UintField, UintSize;
    UintFieldSize(1, m.block);
    UintFieldSize(2, m.app);
    NothingLeft();
    ConcatAppend(UintField(2, m.app), []);
    ConcatAppend(UintField(1, m.block), UintField(2, m.app) + []);
  }

  lemma NothingLeft()
    ensures Concat([]) == []
  {
  }

  lemma HeaderSizeIsLength(m: Header)
    ensures |HeaderBytes(m)| == HeaderSize(m)
  {
    hide Concat, UintField, UintSize, BytesField, BytesSize, SubField, PayloadSize, VersionBytes, VersionSize;
    NothingLeft();
    var r12 := GrowBytes(13, m.chainId, []);
    var r11 := GrowBytes(12, m.aggregatorsHash, r12);
    var r10 := GrowBytes(11, m.proposerAddress, r11);
    var r9 := GrowBytes(10, m.lastResultsHash, r10);
    var r8 := GrowBytes(9, m.appHash, r9);
    var r7 := GrowBytes(8, m.consensusHash, r8);
    var r6 := GrowBytes(7, m.dataHash, r7);
    var r5 := GrowBytes(6, m.lastCommitHash, r6);
    var r4 := GrowBytes(5, m.lastHeaderHash, r5);
    var r3 := GrowUint(4, m.time, r4);
    var r2 := GrowUint(3, m.height, r3);
    var r1 := GrowBytes(2, m.namespaceId, r2);
    var version := if m.version.Some? then Some(VersionBytes(m.version.value)) else None;
    if m.version.Some? {
      VersionSizeIsLength(m.version.value);
    }
    SubFieldSize(1, version);
    ConcatAppend(SubField(1, version), r1);
  }

  lemma GrowBytes(num: nat, payload: seq<byte>, rest: seq<Field>) returns (fs: seq<Field>)
    requires num <= 15
    ensures fs == BytesField(num, payload) + rest && |Concat(fs)| == BytesSize(payload) + |Concat(rest)|
  {
    hide Concat, BytesField, BytesSize;
    fs := BytesField(num, payload) + rest;
    BytesFieldSize(num, payload);
    ConcatAppend(BytesField(num, payload), rest);
  }

  lemma GrowUint(num: nat, v: uint64, rest: seq<Field>) returns (fs: seq<Field>)
    requires num <= 15
    ensures fs == UintField(num, v) + rest && |Concat(fs)| == UintSize(v) + |Concat(rest)|
  {
    hide Concat, UintField, UintSize;
    fs := UintField(num, v) + rest;
    UintFieldSize(num, v);
    ConcatAppend(UintField(num, v), rest);
  }

  lemma GrowRepeated(num: nat, payloads: seq<seq<byte>>, rest: seq<Field>) returns (fs: seq<Field>)
    requires num <= 15
    ensures fs == Repeated(num, payloads) + rest && |Concat(fs)| == RepeatedSize(payloads) + |Concat(rest)|
  {
    hide Concat, Repeated, RepeatedSize;
    fs := Repeated(num, payloads) + rest;
    RepeatedFieldSize(num, payloads);
    ConcatAppend(Repeated(num, payloads), rest);
  }

  lemma GrowSub(num: nat, payload: Option<seq<byte>>, rest: seq<Field>) returns (fs: seq<Field>)
    requires num <= 15
    ensures fs == SubField(num, payload) + rest
    ensures |Concat(fs)| == (if payload.Some? then PayloadSize(|payload.value|) else 0) + |Concat(rest)|
  {
    hide Concat, SubField, PayloadSize;
    fs := SubField(num, payload) + rest;
    SubFieldSize(num, payload);
    ConcatAppend(SubField(num, payload), rest);
  }

  lemma CommitSizeIsLength(m: Commit)
    ensures |CommitBytes(m)| == CommitSize(m)
  {
    hide Concat, UintField, UintSize, BytesField, BytesSize, SubField, PayloadSize, Repeated, RepeatedSize;
    NothingLeft();
    var r3 := GrowSub(4, m.tmSignature, []);
    var r2 := GrowRepeated(3, m.signatures, r3);
    var r1 := GrowBytes(2, m.headerHash, r2);
    var r0 := GrowUint(1, m.height, r1);
  }

  lemma DataSizeIsLength(m: Data)
    ensures |DataBytes(m)| == DataSize(m)
  {
    hide Concat, Repeated, RepeatedSize;
    NothingLeft();
    var r2 := GrowRepeated(3, m.evidence, []);
    var r1 := GrowRepeated(2, m.stateRoots, r2);
    var r0 := GrowRepeated(1, m.txs, r1);
  }

  lemma BlockSizeIsLength(m: Block)
    ensures |BlockBytes(m)| == BlockSize(m)
  {
    hide Concat, SubField, PayloadSize, HeaderBytes, HeaderSize, DataBytes, DataSize, CommitBytes, CommitSize;
    NothingLeft();
    var commit := if m.lastCommit.Some? then Some(CommitBytes(m.lastCommit.value)) else None;
    var data := if m.data.Some? then Some(DataBytes(m.data.value)) else None;
    var header := if m.header.Some? then Some(HeaderBytes(m.header.value)) else None;
    var r2 := GrowSub(3, commit, []);
    var r1 := GrowSub(2, data, r2);
    var r0 := GrowSub(1, header, r1);
    if m.lastCommit.Some? {
      CommitSizeIsLength(m.lastCommit.value);
    }
    if m.data.Some? {
      DataSizeIsLength(m.data.value);
    }
    if m.header.Some? {
      HeaderSizeIsLength(m.header.value);
    }
  }

  lemma {:induction false} BlocksSizeIsRepeated(blocks: seq<Block>)
    ensures RepeatedSize(BlocksBytes(blocks)) == BlocksSize(blocks)
    decreases |blocks|
  {
    hide PayloadSize, BlockBytes, BlockSize;
    if blocks != [] {
      BlockSizeIsLength(blocks[0]);
      assert BlocksBytes(blocks)[1..] == BlocksBytes(blocks[1..]);
      BlocksSizeIsRepeated(blocks[1..]);
    }
  }

  lemma {:induction false} CommitsSizeIsRepeated(commits: seq<Commit>)
    ensures RepeatedSize(CommitsBytes(commits)) == CommitsSize(commits)
    decreases |commits|
  {
    hide PayloadSize, CommitBytes, CommitSize;
    if commits != [] {
      CommitSizeIsLength(commits[0]);
      assert CommitsBytes(commits)[1..] == CommitsBytes(commits[1..]);
      CommitsSizeIsRepeated(commits[1..]);
    }
  }

  lemma BatchSizeIsLength(m: Batch)
    ensures |BatchBytes(m)| == BatchSize(m)
  {
    hide Concat, UintField, UintSize, Repeated, RepeatedSize, BlocksBytes, CommitsBytes, BlocksSize, CommitsSize;
    NothingLeft();
    var r3 := GrowRepeated(4, CommitsBytes(m.commits), []);
    var r2 := GrowRepeated(3, BlocksBytes(m.blocks), r3);
    var r1 := GrowUint(2, m.endHeight, r2);
    var r0 := GrowUint(1, m.startHeight, r1);
    BlocksSizeIsRepeated(m.blocks);
    CommitsSizeIsRepeated(m.commits);
  }

  // Decoding

  lemma StoreUint<M>(codec: Codec<M>, m: M, num: nat, v: uint64, m': M, rest: seq<Field>)
    requires if v == 0 then m' == m else codec.put(m, Uint(num, v)) == Ok(m')
    ensures PutAll(codec, m, UintField(num, v) + rest) == PutAll(codec, m', rest)
    ensures 1 <= num < TWO_31 && codec.kind(num) == Some(UintKind) && AllDeclared(codec.kind, rest) ==>
              AllDeclared(codec.kind, UintField(num, v) + rest)
  {
    if v != 0 {
      assert [Uint(num, v)][1..] == [] && PutAll(codec, m', []) == Ok(m');
    }
    PutGroup(codec, m, UintField(num, v), m', rest);
  }

  lemma StoreBytes<M>(codec: Codec<M>, m: M, num: nat, p: seq<byte>, m': M, rest: seq<Field>)
    requires if p == [] then m' == m else codec.put(m, Bytes(num, p)) == Ok(m')
    ensures PutAll(codec, m, BytesField(num, p) + rest) == PutAll(codec, m', rest)
    ensures 1 <= num < TWO_31 && codec.kind(num) == Some(BytesKind) && AllDeclared(codec.kind, rest) ==>
              AllDeclared(codec.kind, BytesField(num, p) + rest)
  {
    if p != [] {
      assert [Bytes(num, p)][1..] == [] && PutAll(codec, m', []) == Ok(m');
    }
    PutGroup(codec, m, BytesField(num, p), m', rest);
  }

  lemma StoreSub<M>(codec: Codec<M>, m: M, num: nat, p: Option<seq<byte>>, m': M, rest: seq<Field>)
    requires if p == None then m' == m else codec.put(m, Bytes(num, p.value)) == Ok(m')
    ensures PutAll(codec, m, SubField(num, p) + rest) == PutAll(codec, m', rest)
    ensures 1 <= num < TWO_31 && codec.kind(num) == Some(BytesKind) && AllDeclared(codec.kind, rest) ==>
              AllDeclared(codec.kind, SubField(num, p) + rest)
  {
    if p.Some? {
      assert [Bytes(num, p.value)][1..] == [] && PutAll(codec, m', []) == Ok(m');
    }
    PutGroup(codec, m, SubField(num, p), m', rest);
  }

  lemma VersionRoundTrip(m: Version)
    requires VersionSize(m) < TWO_63
    ensures Unmarshal(VERSION_CODEC, NO_VERSION, VersionBytes(m), 0) == Ok(m)
  {
    hide Unmarshal, Concat, PutAll, UintField, AllDeclared, UintSize;
    VersionSizeIsLength(m);
    NothingStored(VERSION_CODEC, m);
    var r1 := UintField(2, m.app) + [];
    StoreUint(VERSION_CODEC, NO_VERSION, 1, m.block, Version(m.block, 0), r1);
    StoreUint(VERSION_CODEC, Version(m.block, 0), 2, m.app, m, []);
    DecodesTo(VERSION_CODEC, NO_VERSION, VersionFields(m), m);
  }

  lemma HeaderRoundTrip(m: Header)
    requires HeaderSize(m) < TWO_63
    ensures Unmarshal(HEADER_CODEC, NO_HEADER, HeaderBytes(m), 0) == Ok(m)
  {
    hide Unmarshal, Concat, PutAll;
    HeaderSizeIsLength(m);
    HeaderStores(m);
    DecodesTo(HEADER_CODEC, NO_HEADER, HeaderFields(m), m);
  }

  /** The hash fields of a header, on top of the fields before them. */
  lemma HeaderTailStores(m: Header, h7: Header)
    requires h7 == m.(consensusHash := [], appHash := [], lastResultsHash := [], proposerAddress := [],
                      aggregatorsHash := [], chainId := [])
    ensures PutAll(HEADER_CODEC, h7, HeaderTail(m)) == Ok(m) && AllDeclared(HeaderKind, HeaderTail(m))
  {
    hide Unmarshal, PutAll, UintField, BytesField, SubField, AllDeclared;
    var c := HEADER_CODEC;
    var r12 := BytesField(13, m.chainId) + [];
    var r11 := BytesField(12, m.aggregatorsHash) + r12;
    var r10 := BytesField(11, m.proposerAddress) + r11;
    var r9 := BytesField(10, m.lastResultsHash) + r10;
    var r8 := BytesField(9, m.appHash) + r9;
    var r7 := BytesField(8, m.consensusHash) + r8;
    var h8 := h7.(consensusHash := m.consensusHash);
    StoreBytes(c, h7, 8, m.consensusHash, h8, r8);
    var h9 := h8.(appHash := m.appHash);
    StoreBytes(c, h8, 9, m.appHash, h9, r9);
    var h10 := h9.(lastResultsHash := m.lastResultsHash);
    StoreBytes(c, h9, 10, m.lastResultsHash, h10, r10);
    var h11 := h10.(proposerAddress := m.proposerAddress);
    StoreBytes(c, h10, 11, m.proposerAddress, h11, r11);
    var h12 := h11.(aggregatorsHash := m.aggregatorsHash);
    StoreBytes(c, h11, 12, m.aggregatorsHash, h12, r12);
    var h13 := h12.(chainId := m.chainId);
    StoreBytes(c, h12, 13, m.chainId, h13, []);
    NothingStored(c, h13);
  }

  lemma VersionFits(m: Header)
    requires m.version.Some?
    ensures VersionSize(m.version.value) <= HeaderSize(m)
  {
    hide Sov, UintSize, BytesSize;
  }

  lemma HeaderStores(m: Header)
    requires HeaderSize(m) < TWO_63
    ensures PutAll(HEADER_CODEC, NO_HEADER, HeaderFields(m)) == Ok(m) && AllDeclared(HeaderKind, HeaderFields(m))
  {
    hide Unmarshal, PutAll, VersionBytes, UintField, BytesField, SubField, HeaderTail, AllDeclared, HeaderSize,
         VersionSize;
    var c := HEADER_CODEC;
    var r7 := HeaderTail(m);
    var r6 := BytesField(7, m.dataHash) + r7;
    var r5 := BytesField(6, m.lastCommitHash) + r6;
    var r4 := BytesField(5, m.lastHeaderHash) + r5;
    var r3 := UintField(4, m.time) + r4;
    var r2 := UintField(3, m.height) + r3;
    var r1 := BytesField(2, m.namespaceId) + r2;
    var h1 := NO_HEADER.(version := m.version);
    var version := if m.version.Some? then Some(VersionBytes(m.version.value)) else None;
    if m.version.Some? {
      VersionFits(m);
      VersionRoundTrip(m.version.value);
    }
    StoreSub(c, NO_HEADER, 1, version, h1, r1);
    var h2 := h1.(namespaceId := m.namespaceId);
    StoreBytes(c, h1, 2, m.namespaceId, h2, r2);
    var h3 := h2.(height := m.height);
    StoreUint(c, h2, 3, m.height, h3, r3);
    var h4 := h3.(time := m.time);
    StoreUint(c, h3, 4, m.time, h4, r4);
    var h5 := h4.(lastHeaderHash := m.lastHeaderHash);
    StoreBytes(c, h4, 5, m.lastHeaderHash, h5, r5);
    var h6 := h5.(lastCommitHash := m.lastCommitHash);
    StoreBytes(c, h5, 6, m.lastCommitHash, h6, r6);
    var h7 := h6.(dataHash := m.dataHash);
    StoreBytes(c, h6, 7, m.dataHash, h7, r7);
    HeaderTailStores(m, h7);
  }

  lemma NothingStored<M>(codec: Codec<M>, m: M)
    ensures PutAll(codec, m, []) == Ok(m) && AllDeclared(codec.kind, [])
  {
  }

  /** A repeated field stores its elements one after the other, through the given messages. */
  lemma {:induction false} StoreRepeated<M>(codec: Codec<M>, ms: seq<M>, num: nat, ps: seq<seq<byte>>, rest: seq<Field>)
    requires |ms| == |ps| + 1
    requires forall i | 0 <= i < |ps| :: codec.put(ms[i], Bytes(num, ps[i])) == Ok(ms[i + 1])
    ensures PutAll(codec, ms[0], Repeated(num, ps) + rest) == PutAll(codec, ms[|ps|], rest)
    ensures 1 <= num < TWO_31 && codec.kind(num) == Some(BytesKind) && AllDeclared(codec.kind, rest) ==>
              AllDeclared(codec.kind, Repeated(num, ps) + rest)
    decreases |ps|
  {
    var fs := Repeated(num, ps);
    if ps == [] {
      assert fs + rest == rest;
    } else {
      assert codec.put(ms[0], fs[0]) == Ok(ms[1]);
      StoreRepeated(codec, ms[1..], num, ps[1..], rest);
      assert (fs + rest)[1..] == Repeated(num, ps[1..]) + rest;
    }
  }

  lemma Prefixes<T>(ps: seq<T>)
    ensures forall i {:trigger ps[i]} | 0 <= i < |ps| :: ps[..i] + [ps[i]] == ps[..i + 1]
  {
  }

  lemma CommitRoundTrip(m: Commit)
    requires CommitSize(m) < TWO_63
    ensures Unmarshal(COMMIT_CODEC, NO_COMMIT, CommitBytes(m), 0) == Ok(m)
  {
    hide Unmarshal, Concat, PutAll, UintField, BytesField, SubField, Repeated, AllDeclared;
    CommitSizeIsLength(m);
    var c := COMMIT_CODEC;
    var r3 := SubField(4, m.tmSignature) + [];
    var r2 := Repeated(3, m.signatures) + r3;
    var r1 := BytesField(2, m.headerHash) + r2;
    var m1 := NO_COMMIT.(height := m.height);
    var m2 := m1.(headerHash := m.headerHash);
    var ms := seq(|m.signatures| + 1, i requires 0 <= i <= |m.signatures| => m2.(signatures := m.signatures[..i]));
    var m3 := m2.(signatures := m.signatures);
    StoreUint(c, NO_COMMIT, 1, m.height, m1, r1);
    StoreBytes(c, m1, 2, m.headerHash, m2, r2);
    Prefixes(m.signatures);
    StoreRepeated(c, ms, 3, m.signatures, r3);
    assert ms[0] == m2 && ms[|m.signatures|] == m3;
    StoreSub(c, m3, 4, m.tmSignature, m, []);
    NothingStored(c, m);
    DecodesTo(c, NO_COMMIT, CommitFields(m), m);
  }

  lemma DataRoundTrip(m: Data)
    requires DataSize(m) < TWO_63
    ensures Unmarshal(DATA_CODEC, NO_DATA, DataBytes(m), 0) == Ok(m)
  {
    hide Unmarshal, Concat, PutAll, Repeated, AllDeclared;
    DataSizeIsLength(m);
    var c := DATA_CODEC;
    var r2 := Repeated(3, m.evidence) + [];
    var r1 := Repeated(2, m.stateRoots) + r2;
    var txs := seq(|m.txs| + 1, i requires 0 <= i <= |m.txs| => Data(m.txs[..i], [], []));
    var roots := seq(|m.stateRoots| + 1, i requires 0 <= i <= |m.stateRoots| => Data(m.txs, m.stateRoots[..i], []));
    var evidence := seq(|m.evidence| + 1, i requires 0 <= i <= |m.evidence| =>
                          Data(m.txs, m.stateRoots, m.evidence[..i]));
    Prefixes(m.txs);
    Prefixes(m.stateRoots);
    Prefixes(m.evidence);
    StoreRepeated(c, txs, 1, m.txs, r1);
    StoreRepeated(c, roots, 2, m.stateRoots, r2);
    StoreRepeated(c, evidence, 3, m.evidence, []);
    assert txs[0] == NO_DATA && txs[|m.txs|] == roots[0];
    assert roots[|m.stateRoots|] == evidence[0] && evidence[|m.evidence|] == m;
    NothingStored(c, m);
    DecodesTo(c, NO_DATA, DataFields(m), m);
  }

  lemma BlockPartsFit(m: Block)
    ensures m.header.Some? ==> HeaderSize(m.header.value) <= BlockSize(m)
    ensures m.data.Some? ==> DataSize(m.data.value) <= BlockSize(m)
    ensures m.lastCommit.Some? ==> CommitSize(m.lastCommit.value) <= BlockSize(m)
  {
    hide Sov, HeaderSize, DataSize, CommitSize;
  }

  lemma BlockRoundTrip(m: Block)
    requires BlockSize(m) < TWO_63
    ensures Unmarshal(BLOCK_CODEC, NO_BLOCK, BlockBytes(m), 0) == Ok(m)
  {
    hide Unmarshal, Concat, PutAll, SubField, AllDeclared, HeaderBytes, DataBytes, CommitBytes,
         HeaderSize, DataSize, CommitSize;
    BlockSizeIsLength(m);
    BlockPartsFit(m);
    var c := BLOCK_CODEC;
    var header := if m.header.Some? then Some(HeaderBytes(m.header.value)) else None;
    var data := if m.data.Some? then Some(DataBytes(m.data.value)) else None;
    var commit := if m.lastCommit.Some? then Some(CommitBytes(m.lastCommit.value)) else None;
    if m.header.Some? {
      HeaderRoundTrip(m.header.value);
    }
    if m.data.Some? {
      DataRoundTrip(m.data.value);
    }
    if m.lastCommit.Some? {
      CommitRoundTrip(m.lastCommit.value);
    }
    var r2 := SubField(3, commit) + [];
    var r1 := SubField(2, data) + r2;
    StoreSub(c, NO_BLOCK, 1, header, Block(m.header, None, None), r1);
    StoreSub(c, Block(m.header, None, None), 2, data, Block(m.header, m.data, None), r2);
    StoreSub(c, Block(m.header, m.data, None), 3, commit, m, []);
    NothingStored(c, m);
    DecodesTo(c, NO_BLOCK, BlockFields(m), m);
  }

  lemma {:induction false} BlockFits(blocks: seq<Block>, i: nat)
    requires i < |blocks|
    ensures BlockSize(blocks[i]) <= BlocksSize(blocks)
  {
    hide Sov, BlockSize;
    if i > 0 {
      BlockFits(blocks[1..], i - 1);
    }
  }

  lemma {:induction false} CommitFits(commits: seq<Commit>, i: nat)
    requires i < |commits|
    ensures CommitSize(commits[i]) <= CommitsSize(commits)
  {
    hide Sov, CommitSize;
    if i > 0 {
      CommitFits(commits[1..], i - 1);
    }
  }

  lemma BlocksStore(m: Batch, before: Batch, rest: seq<Field>)
    requires BlocksSize(m.blocks) < TWO_63 && before.blocks == []
    ensures PutAll(BATCH_CODEC, before, Repeated(3, BlocksBytes(m.blocks)) + rest) ==
            PutAll(BATCH_CODEC, before.(blocks := m.blocks), rest)
    ensures AllDeclared(BatchKind, rest) ==> AllDeclared(BatchKind, Repeated(3, BlocksBytes(m.blocks)) + rest)
  {
    hide Unmarshal, PutAll, Repeated, AllDeclared, BlockBytes, BlockSize, BlocksSize;
    var bs := m.blocks;
    var ms := seq(|bs| + 1, i requires 0 <= i <= |bs| => before.(blocks := bs[..i]));
    forall i | 0 <= i < |bs|
      ensures PutBatch(ms[i], Bytes(3, BlocksBytes(bs)[i])) == Ok(ms[i + 1])
    {
      assert bs[..i] + [bs[i]] == bs[..i + 1];
      BlockFits(bs, i);
      BlockRoundTrip(bs[i]);
    }
    assert ms[0] == before && ms[|bs|] == before.(blocks := bs);
    StoreRepeated(BATCH_CODEC, ms, 3, BlocksBytes(bs), rest);
  }

  lemma CommitsStore(m: Batch, before: Batch, rest: seq<Field>)
    requires CommitsSize(m.commits) < TWO_63 && before.commits == []
    ensures PutAll(BATCH_CODEC, before, Repeated(4, CommitsBytes(m.commits)) + rest) ==
            PutAll(BATCH_CODEC, before.(commits := m.commits), rest)
    ensures AllDeclared(BatchKind, rest) ==> AllDeclared(BatchKind, Repeated(4, CommitsBytes(m.commits)) + rest)
  {
    hide Unmarshal, PutAll, Repeated, AllDeclared, CommitBytes, CommitSize, CommitsSize;
    var cs := m.commits;
    var ms := seq(|cs| + 1, i requires 0 <= i <= |cs| => before.(commits := cs[..i]));
    forall i | 0 <= i < |cs|
      ensures PutBatch(ms[i], Bytes(4, CommitsBytes(cs)[i])) == Ok(ms[i + 1])
    {
      assert cs[..i] + [cs[i]] == cs[..i + 1];
      CommitFits(cs, i);
      CommitRoundTrip(cs[i]);
    }
    assert ms[0] == before && ms[|cs|] == before.(commits := cs);
    StoreRepeated(BATCH_CODEC, ms, 4, CommitsBytes(cs), rest);
  }

  lemma BatchRoundTrip(m: Batch)
    requires BatchSize(m) < TWO_63
    ensures Unmarshal(BATCH_CODEC, NO_BATCH, BatchBytes(m), 0) == Ok(m)
  {
    hide Unmarshal, Concat, PutAll, UintField, Repeated, AllDeclared, BlocksSize, CommitsSize, UintSize,
         BlocksBytes, CommitsBytes;
    BatchSizeIsLength(m);
    var c := BATCH_CODEC;
    var r3 := Repeated(4, CommitsBytes(m.commits)) + [];
    var r2 := Repeated(3, BlocksBytes(m.blocks)) + r3;
    var r1 := UintField(2, m.endHeight) + r2;
    var m1 := NO_BATCH.(startHeight := m.startHeight);
    var m2 := m1.(endHeight := m.endHeight);
    StoreUint(c, NO_BATCH, 1, m.startHeight, m1, r1);
    StoreUint(c, m1, 2, m.endHeight, m2, r2);
    BlocksStore(m, m2, r3);
    CommitsStore(m, m2.(blocks := m.blocks), []);
    NothingStored(c, m);
    DecodesTo(c, NO_BATCH, BatchFields(m), m);
  }
}
