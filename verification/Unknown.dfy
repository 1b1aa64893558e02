/**
 Fields that a message does not declare, of every wire type that skipDymint knows, groups included: they
 are skipped to their exact end, and decoding is the same as if they were not there.
 */
module Unknown {
  import opened Wrappers
  import opened Varint
  import opened Wire

  datatype Raw =
    | Number(num: nat, v: uint64)
    | Fixed64(num: nat, payload: seq<byte>)
    | Payload(num: nat, payload: seq<byte>)
    | Group(num: nat, content: Raws)
    | Fixed32(num: nat, payload: seq<byte>)

  datatype Raws = Nil | Cons(head: Raw, tail: Raws)

  function WireType(f: Raw): nat {
    match f
    case Number(_, _) => 0
    case Fixed64(_, _) => 1
    case Payload(_, _) => 2
    case Group(_, _) => 3
    case Fixed32(_, _) => 5
  }

  /** What follows the tag. A group ends with a tag of its own. */
  function Rest(f: Raw): seq<byte>
    decreases f, 0
  {
    match f
    case Number(_, v) => Encoded(v)
    case Fixed64(_, p) => p
    case Payload(_, p) => Encoded(|p|) + p
    case Group(num, content) => RawsBytes(content) + Encoded(Tag(num, 4))
    case Fixed32(_, p) => p
  }

  function RawBytes(f: Raw): (s: seq<byte>)
    ensures |s| >= 1
    decreases f, 1
  {
    Encoded(Tag(f.num, WireType(f))) + Rest(f)
  }

  function RawsBytes(fs: Raws): seq<byte>
    decreases fs, 0
  {
    match fs
    case Nil => []
    case Cons(f, rest) => RawBytes(f) + RawsBytes(rest)
  }

  predicate Proper(f: Raw)
    decreases f
  {
    && 1 <= f.num < TWO_31
    && (f.Fixed64? ==> |f.payload| == 8) && (f.Fixed32? ==> |f.payload| == 4)
    && (f.Group? ==> AllProper(f.content))
  }

  predicate AllProper(fs: Raws)
    decreases fs
  {
    fs.Cons? ==> Proper(fs.head) && AllProper(fs.tail)
  }

  /** Where skipping goes on once a field is behind it. */
  function Onward(data: seq<byte>, i: nat, depth: nat): Result<nat> {
    if depth == 0 then Ok(i) else Skip(data, i, depth)
  }

  /** One turn of the loop. */
  lemma SkipTurn(data: seq<byte>, i: nat, depth: nat, wire: uint64, next: nat, after: nat)
    requires i < |data| && Read(data, i) == Ok(Parsed(wire, next)) && !(wire % 8 == 4 && depth == 0)
    requires SkipPayload(data, next, wire % 8) == Ok(after) && after < TWO_63
    ensures Skip(data, i, depth) ==
            Onward(data, after, if wire % 8 == 3 then depth + 1 else if wire % 8 == 4 then depth - 1 else depth)
  {
    hide Read, SkipPayload;
  }

  /** A field without fields of its own takes one turn. */
  lemma SkipLeaf(data: seq<byte>, i: nat, depth: nat, f: Raw)
    requires |data| < TWO_63 && Proper(f) && !f.Group? && At(data, i, RawBytes(f))
    ensures Skip(data, i, depth) == Onward(data, i + |RawBytes(f)|, depth)
  {
    hide Read, Encoded, Tag, ReadLength, Skip, At, Onward;
    AtWithin(data, i, RawBytes(f));
    ReadTag(data, i, f.num, WireType(f), Rest(f));
    var t := Tag(f.num, WireType(f));
    var next := i + |Encoded(t)|;
    if f.Number? {
      ReadAt(data, next, f.v);
    } else if f.Payload? {
      ReadPayload(data, next, f.payload);
    }
    SkipTurn(data, i, depth, t, next, i + |RawBytes(f)|);
  }

  /** Inside groups and out, a field is skipped to its exact end. */
  lemma {:induction false} SkipRaw(data: seq<byte>, i: nat, depth: nat, f: Raw)
    requires |data| < TWO_63 && Proper(f) && At(data, i, RawBytes(f))
    ensures Skip(data, i, depth) == Onward(data, i + |RawBytes(f)|, depth)
    decreases f, 1
  {
    if f.Group? {
      SkipGroup(data, i, depth, f);
    } else {
      SkipLeaf(data, i, depth, f);
    }
  }

  /** A group opens, its content is skipped, and its end tag closes it. */
  lemma {:induction false} SkipGroup(data: seq<byte>, i: nat, depth: nat, f: Raw)
    requires |data| < TWO_63 && Proper(f) && f.Group? && At(data, i, RawBytes(f))
    ensures Skip(data, i, depth) == Onward(data, i + |RawBytes(f)|, depth)
    decreases f, 0
  {
    hide Read, Encoded, Tag, ReadLength, Skip, At, RawsBytes;
    AtWithin(data, i, RawBytes(f));
    var open, close := Tag(f.num, 3), Tag(f.num, 4);
    ReadTag(data, i, f.num, 3, Rest(f));
    var inside := i + |Encoded(open)|;
    SkipTurn(data, i, depth, open, inside, inside);
    AtParts(data, inside, RawsBytes(f.content), Encoded(close));
    SkipRaws(data, inside, depth + 1, f.content);
    var end := inside + |RawsBytes(f.content)|;
    assert Encoded(close) + [] == Encoded(close);
    ReadTag(data, end, f.num, 4, []);
    AtWithin(data, end, Encoded(close));
    SkipTurn(data, end, depth + 1, close, end + |Encoded(close)|, end + |Encoded(close)|);
  }

  lemma {:induction false} SkipRaws(data: seq<byte>, i: nat, depth: nat, fs: Raws)
    requires |data| < TWO_63 && AllProper(fs) && At(data, i, RawsBytes(fs)) && depth > 0
    ensures Skip(data, i, depth) == Skip(data, i + |RawsBytes(fs)|, depth)
    decreases fs, 0
  {
    hide Skip, At, RawBytes;
    if fs.Cons? {
      AtParts(data, i, RawBytes(fs.head), RawsBytes(fs.tail));
      SkipRaw(data, i, depth, fs.head);
      SkipRaws(data, i + |RawBytes(fs.head)|, depth, fs.tail);
    }
  }

  /** A field the message does not declare is skipped to its end, whatever its type and content. */
  lemma UndeclaredIgnored(kind: nat -> Option<Kind>, data: seq<byte>, i: nat, f: Raw)
    requires |data| < TWO_63 && Proper(f) && kind(f.num) == None && At(data, i, RawBytes(f))
    ensures i < |data| && ReadField(kind, data, i) == Ok(Parsed(None, i + |RawBytes(f)|))
  {
    hide Read, Encoded, Tag, Skip, SkipPayload, ReadLength, Rest;
    ReadTag(data, i, f.num, WireType(f), Rest(f));
    hide RawBytes;
    assert data[i..][0..|RawBytes(f)|] == data[i..i + |RawBytes(f)|];
    SkipRaw(data[i..], 0, 0, f);
  }

  // Messages with fields of both kinds

  datatype Item = Known(f: Field) | Other(r: Raw)

  function ItemBytes(x: Item): (s: seq<byte>)
    ensures |s| >= 1
  {
    match x
    case Known(f) => FieldBytes(f)
    case Other(r) => RawBytes(r)
  }

  function ItemsBytes(xs: seq<Item>): seq<byte> {
    if xs == [] then [] else ItemBytes(xs[0]) + ItemsBytes(xs[1..])
  }

  predicate Readable(kind: nat -> Option<Kind>, x: Item) {
    match x
    case Known(f) => Declared(kind, f)
    case Other(r) => Proper(r) && kind(r.num) == None
  }

  function KnownFields(xs: seq<Item>): seq<Field> {
    if xs == [] then [] else (if xs[0].Known? then [xs[0].f] else []) + KnownFields(xs[1..])
  }

  /** Wherever they stand, undeclared fields make no difference to what is decoded. */
  lemma {:induction false} UnmarshalItems<M>(codec: Codec<M>, m: M, data: seq<byte>, i: nat, xs: seq<Item>)
    requires |data| < TWO_63 && i <= |data| && data[i..] == ItemsBytes(xs)
    requires forall x | x in xs :: Readable(codec.kind, x)
    ensures Unmarshal(codec, m, data, i) == PutAll(codec, m, KnownFields(xs))
    decreases |xs|
  {
    hide ReadField, ItemBytes, Readable;
    if xs != [] {
      var head := ItemBytes(xs[0]);
      assert data[i..i + |head|] == data[i..][..|head|] == head;
      assert data[i + |head|..] == data[i..][|head|..] == ItemsBytes(xs[1..]);
      ReadItem(codec.kind, data, i, xs[0]);
      if xs[0].Other? {
        assert KnownFields(xs) == KnownFields(xs[1..]);
        UnmarshalItems(codec, m, data, i + |head|, xs[1..]);
      } else {
        assert KnownFields(xs)[1..] == KnownFields(xs[1..]);
        var next := codec.put(m, xs[0].f);
        if next.Ok? {
          UnmarshalItems(codec, next.value, data, i + |head|, xs[1..]);
        }
      }
    }
  }

  lemma ReadItem(kind: nat -> Option<Kind>, data: seq<byte>, i: nat, x: Item)
    requires |data| < TWO_63 && Readable(kind, x) && At(data, i, ItemBytes(x))
    ensures i < |data|
    ensures ReadField(kind, data, i) == Ok(Parsed(if x.Known? then Some(x.f) else None, i + |ItemBytes(x)|))
  {
    hide ReadField, FieldBytes, RawBytes, Proper, At;
    match x
    case Known(f) => ReadDeclared(kind, data, i, f);
    case Other(r) => UndeclaredIgnored(kind, data, i, r);
  }
}
