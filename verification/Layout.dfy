/**
 The bytes of headers, commits, blocks and batches, written out: which byte stands before which field, in
 which order, of the node's own types.
 */
module Layout {
  import opened Wrappers
  import opened Varint
  import opened Wire
  import opened RoundTrip
  import opened Serialization
  import Pb = Messages

  /** A number behind its tag; zero is left out. */
  function Number(tag: byte, v: uint64): seq<byte> {
    if v == 0 then [] else [tag] + Encoded(v)
  }

  /** A part behind its tag and its length. */
  function Part(tag: byte, p: seq<byte>): seq<byte> {
    [tag] + (Encoded(|p|) + p)
  }

  /** Bytes behind tag and length; none are left out. */
  function Text(tag: byte, p: seq<byte>): seq<byte> {
    if p == [] then [] else Part(tag, p)
  }

  function Parts(tag: byte, ps: seq<seq<byte>>): seq<byte> {
    if ps == [] then [] else Part(tag, ps[0]) + Parts(tag, ps[1..])
  }

  function VersionLayout(v: Pb.Version): seq<byte> {
    Number(0x08, v.block) + Number(0x10, v.app)
  }

  function HeaderLayout(h: Header): seq<byte> {
    Part(0x0a, VersionLayout(h.version)) + (Text(0x12, h.namespaceID) + (Number(0x18, h.height) +
    (Number(0x20, h.time) + (Text(0x2a, h.lastHeaderHash) + (Text(0x32, h.lastCommitHash) +
    (Text(0x3a, h.dataHash) + (Text(0x42, h.consensusHash) + (Text(0x4a, h.appHash) +
    (Text(0x52, h.lastResultsHash) + (Text(0x5a, h.proposerAddress) + (Text(0x62, h.aggregatorsHash) +
    Text(0x6a, h.chainID))))))))))))
  }

  function CommitLayout(c: Commit): seq<byte> {
    Number(0x08, c.height) + (Text(0x12, c.headerHash) + (Parts(0x1a, c.signatures) + Part(0x22, c.tmSignature)))
  }

  function BlockLayout(b: Block): seq<byte> {
    Part(0x0a, HeaderLayout(b.header)) + (Part(0x12, Parts(0x0a, b.txs) + Parts(0x12, b.stateRoots)) +
    Part(0x1a, CommitLayout(b.lastCommit)))
  }

  function BatchLayout(b: Batch): seq<byte> {
    Number(0x08, b.startHeight) + (Number(0x10, b.endHeight) +
    (Parts(0x1a, BlockLayouts(b.blocks)) + Parts(0x22, CommitLayouts(b.commits))))
  }

  function BlockLayouts(bs: seq<Block>): (ls: seq<seq<byte>>)
    ensures |ls| == |bs| && forall i | 0 <= i < |bs| :: ls[i] == BlockLayout(bs[i])
  {
    seq(|bs|, i requires 0 <= i < |bs| => BlockLayout(bs[i]))
  }

  function CommitLayouts(cs: seq<Commit>): (ls: seq<seq<byte>>)
    ensures |ls| == |cs| && forall i | 0 <= i < |cs| :: ls[i] == CommitLayout(cs[i])
  {
    seq(|cs|, i requires 0 <= i < |cs| => CommitLayout(cs[i]))
  }

  // One field before others

  lemma FieldFirst(f: Field, rest: seq<Field>)
    requires f.num <= 15
    ensures Concat([f] + rest) ==
            (match f
             case Uint(num, v) => [8 * num] + Encoded(v)
             case Bytes(num, p) => Part(8 * num + 2, p)) + Concat(rest)
  {
    hide Encoded;
    TagIsOneByte(f.num, if f.Uint? then 0 else 2);
    assert ([f] + rest)[1..] == rest;
    if f.Bytes? {
      assert FieldBytes(f) == [8 * f.num + 2] + (Encoded(|f.payload|) + f.payload);
    }
  }

  lemma LayNumber(num: nat, v: uint64, rest: seq<Field>, tail: seq<byte>)
    requires num <= 15 && Concat(rest) == tail
    ensures Concat(Pb.UintField(num, v) + rest) == Number(8 * num, v) + tail
  {
    hide Encoded, FieldBytes;
    if v == 0 {
      assert Pb.UintField(num, v) + rest == rest;
    } else {
      FieldFirst(Uint(num, v), rest);
    }
  }

  lemma LayText(num: nat, p: seq<byte>, rest: seq<Field>, tail: seq<byte>)
    requires num <= 15 && Concat(rest) == tail
    ensures Concat(Pb.BytesField(num, p) + rest) == Text(8 * num + 2, p) + tail
  {
    hide Part, FieldBytes;
    if p == [] {
      assert Pb.BytesField(num, p) + rest == rest;
    } else {
      FieldFirst(Bytes(num, p), rest);
    }
  }

  lemma LayPart(num: nat, p: seq<byte>, rest: seq<Field>, tail: seq<byte>)
    requires num <= 15 && Concat(rest) == tail
    ensures Concat(Pb.SubField(num, Some(p)) + rest) == Part(8 * num + 2, p) + tail
  {
    hide Part, FieldBytes;
    FieldFirst(Bytes(num, p), rest);
  }

  lemma {:induction false} LayParts(num: nat, ps: seq<seq<byte>>, rest: seq<Field>, tail: seq<byte>)
    requires num <= 15 && Concat(rest) == tail
    ensures Concat(Pb.Repeated(num, ps) + rest) == Parts(8 * num + 2, ps) + tail
    decreases |ps|
  {
    hide Part, FieldBytes;
    if ps == [] {
      assert Pb.Repeated(num, ps) + rest == rest;
    } else {
      LayParts(num, ps[1..], rest, tail);
      assert Pb.Repeated(num, ps) + rest == [Bytes(num, ps[0])] + (Pb.Repeated(num, ps[1..]) + rest);
      FieldFirst(Bytes(num, ps[0]), Pb.Repeated(num, ps[1..]) + rest);
      assert Part(8 * num + 2, ps[0]) + (Parts(8 * num + 2, ps[1..]) + tail)
          == Part(8 * num + 2, ps[0]) + Parts(8 * num + 2, ps[1..]) + tail;
    }
  }

  // The messages

  lemma VersionBinary(v: Pb.Version)
    ensures Pb.VersionBytes(v) == VersionLayout(v)
  {
    hide Concat, Pb.UintField, Number;
    NothingLeft();
    LayNumber(2, v.app, [], []);
    LayNumber(1, v.block, Pb.UintField(2, v.app) + [], Number(0x10, v.app) + []);
    assert Number(0x10, v.app) + [] == Number(0x10, v.app);
  }

  lemma HeaderTailBinary(h: Header) returns (tail: seq<byte>)
    ensures tail == Text(0x42, h.consensusHash) + (Text(0x4a, h.appHash) + (Text(0x52, h.lastResultsHash) +
                    (Text(0x5a, h.proposerAddress) + (Text(0x62, h.aggregatorsHash) + Text(0x6a, h.chainID)))))
    ensures Concat(Pb.HeaderTail(HeaderToProto(h))) == tail
  {
    hide Concat, Pb.BytesField, Text;
    var rest: seq<Field> := [];
    tail := [];
    NothingLeft();
    LayText(13, h.chainID, rest, tail);
    rest, tail := Pb.BytesField(13, h.chainID) + rest, Text(0x6a, h.chainID) + tail;
    assert tail == Text(0x6a, h.chainID);
    LayText(12, h.aggregatorsHash, rest, tail);
    rest, tail := Pb.BytesField(12, h.aggregatorsHash) + rest, Text(0x62, h.aggregatorsHash) + tail;
    LayText(11, h.proposerAddress, rest, tail);
    rest, tail := Pb.BytesField(11, h.proposerAddress) + rest, Text(0x5a, h.proposerAddress) + tail;
    LayText(10, h.lastResultsHash, rest, tail);
    rest, tail := Pb.BytesField(10, h.lastResultsHash) + rest, Text(0x52, h.lastResultsHash) + tail;
    LayText(9, h.appHash, rest, tail);
    rest, tail := Pb.BytesField(9, h.appHash) + rest, Text(0x4a, h.appHash) + tail;
    LayText(8, h.consensusHash, rest, tail);
    tail := Text(0x42, h.consensusHash) + tail;
  }

  lemma HeaderBinary(h: Header)
    ensures Pb.HeaderBytes(HeaderToProto(h)) == HeaderLayout(h)
  {
    hide Concat, Pb.BytesField, Pb.UintField, Pb.SubField, Pb.VersionBytes, Pb.HeaderTail, Text, Number, Part,
         VersionLayout;
    VersionBinary(h.version);
    var rest := Pb.HeaderTail(HeaderToProto(h));
    var tail := HeaderTailBinary(h);
    LayText(7, h.dataHash, rest, tail);
    rest, tail := Pb.BytesField(7, h.dataHash) + rest, Text(0x3a, h.dataHash) + tail;
    LayText(6, h.lastCommitHash, rest, tail);
    rest, tail := Pb.BytesField(6, h.lastCommitHash) + rest, Text(0x32, h.lastCommitHash) + tail;
    LayText(5, h.lastHeaderHash, rest, tail);
    rest, tail := Pb.BytesField(5, h.lastHeaderHash) + rest, Text(0x2a, h.lastHeaderHash) + tail;
    LayNumber(4, h.time, rest, tail);
    rest, tail := Pb.UintField(4, h.time) + rest, Number(0x20, h.time) + tail;
    LayNumber(3, h.height, rest, tail);
    rest, tail := Pb.UintField(3, h.height) + rest, Number(0x18, h.height) + tail;
    LayText(2, h.namespaceID, rest, tail);
    rest, tail := Pb.BytesField(2, h.namespaceID) + rest, Text(0x12, h.namespaceID) + tail;
    LayPart(1, Pb.VersionBytes(h.version), rest, tail);
  }

  lemma CommitBinary(c: Commit)
    ensures Pb.CommitBytes(CommitToProto(c)) == CommitLayout(c)
  {
    hide Concat, Pb.BytesField, Pb.UintField, Pb.SubField, Pb.Repeated, Text, Number, Part, Parts;
    NothingLeft();
    LayPart(4, c.tmSignature, [], []);
    var rest, tail := Pb.SubField(4, Some(c.tmSignature)) + [], Part(0x22, c.tmSignature) + [];
    assert tail == Part(0x22, c.tmSignature);
    LayParts(3, c.signatures, rest, tail);
    rest, tail := Pb.Repeated(3, c.signatures) + rest, Parts(0x1a, c.signatures) + tail;
    LayText(2, c.headerHash, rest, tail);
    rest, tail := Pb.BytesField(2, c.headerHash) + rest, Text(0x12, c.headerHash) + tail;
    LayNumber(1, c.height, rest, tail);
  }

  lemma DataBinary(txs: seq<seq<byte>>, stateRoots: seq<seq<byte>>)
    ensures Pb.DataBytes(Pb.Data(txs, stateRoots, [])) == Parts(0x0a, txs) + Parts(0x12, stateRoots)
  {
    hide Concat, Pb.Repeated, Part;
    NothingLeft();
    LayParts(3, [], [], []);
    assert Parts(0x1a, []) + [] == [];
    var rest := Pb.Repeated(3, []) + [];
    LayParts(2, stateRoots, rest, []);
    assert Parts(0x12, stateRoots) + [] == Parts(0x12, stateRoots);
    LayParts(1, txs, Pb.Repeated(2, stateRoots) + rest, Parts(0x12, stateRoots));
  }

  /** A block is its header, its transactions and its last commit, under these tags and in this order. */
  lemma BlockBinary(b: Block)
    ensures Pb.BlockBytes(BlockToProto(b)) == BlockLayout(b)
  {
    hide Concat, Pb.SubField, Pb.HeaderBytes, Pb.DataBytes, Pb.CommitBytes, Part, Parts, HeaderLayout, CommitLayout,
         HeaderToProto, CommitToProto;
    HeaderBinary(b.header);
    DataBinary(b.txs, b.stateRoots);
    CommitBinary(b.lastCommit);
    NothingLeft();
    var commit := CommitLayout(b.lastCommit);
    LayPart(3, commit, [], []);
    var rest, tail := Pb.SubField(3, Some(commit)) + [], Part(0x1a, commit) + [];
    assert tail == Part(0x1a, commit);
    var data := Parts(0x0a, b.txs) + Parts(0x12, b.stateRoots);
    LayPart(2, data, rest, tail);
    rest, tail := Pb.SubField(2, Some(data)) + rest, Part(0x12, data) + tail;
    LayPart(1, HeaderLayout(b.header), rest, tail);
  }

  /** A batch is its heights, its blocks and its commits, under these tags and in this order. */
  lemma BatchBinary(b: Batch)
    ensures Pb.BatchBytes(BatchToProto(b)) == BatchLayout(b)
  {
    hide Concat, Pb.UintField, Pb.Repeated, Pb.BlockBytes, Pb.CommitBytes, Part, Parts, Number, BlockLayout,
         CommitLayout, BlockToProto, CommitToProto;
    var p := BatchToProto(b);
    forall i | 0 <= i < |b.blocks|
      ensures Pb.BlockBytes(p.blocks[i]) == BlockLayout(b.blocks[i])
    {
      BlockBinary(b.blocks[i]);
    }
    forall i | 0 <= i < |b.commits|
      ensures Pb.CommitBytes(p.commits[i]) == CommitLayout(b.commits[i])
    {
      CommitBinary(b.commits[i]);
    }
    var blocks, commits := BlockLayouts(b.blocks), CommitLayouts(b.commits);
    assert Pb.BlocksBytes(p.blocks) == blocks && Pb.CommitsBytes(p.commits) == commits;
    NothingLeft();
    LayParts(4, commits, [], []);
    var rest, tail := Pb.Repeated(4, commits) + [], Parts(0x22, commits) + [];
    assert tail == Parts(0x22, commits);
    LayParts(3, blocks, rest, tail);
    rest, tail := Pb.Repeated(3, blocks) + rest, Parts(0x1a, blocks) + tail;
    LayNumber(2, b.endHeight, rest, tail);
    rest, tail := Pb.UintField(2, b.endHeight) + rest, Number(0x10, b.endHeight) + tail;
    LayNumber(1, b.startHeight, rest, tail);
  }
}
