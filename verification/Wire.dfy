/**
 The message layer of types/pb/dymint/dymint.pb.go: tags, length-delimited payloads, skipping of
 unknown fields, and the loop that every generated Unmarshal runs. What differs between messages,
 the expected wire type of each field and what to do with it, is a Codec.
 */
module Wire {
  import opened Wrappers
  import opened Varint

  datatype Field = Uint(num: nat, v: uint64) | Bytes(num: nat, payload: seq<byte>)

  datatype Kind = UintKind | BytesKind

  /** `kind` tells the declared fields and their wire types, `put` stores a field into a message. */
  datatype Codec<!M> = Codec(kind: nat -> Option<Kind>, put: (M, Field) -> Result<M>)

  const TWO_31 := 0x8000_0000
  const TWO_32 := 0x1_0000_0000

  function Tag(num: nat, wireType: nat): nat {
    num * 8 + wireType
  }

  function FieldBytes(f: Field): (s: seq<byte>)
    ensures |s| >= 2
  {
    match f
    case Uint(num, v) => Encoded(Tag(num, 0)) + Encoded(v)
    case Bytes(num, payload) => Encoded(Tag(num, 2)) + Encoded(|payload|) + payload
  }

  function Concat(fs: seq<Field>): seq<byte> {
    if fs == [] then [] else FieldBytes(fs[0]) + Concat(fs[1..])
  }

  /** A length prefix and the index it leads to, with Go's signed overflow checks. */
  function ReadLength(data: seq<byte>, i: nat): (r: Result<Parsed<nat>>)
    ensures r.Ok? ==> i < r.value.next <= |data| && r.value.next <= r.value.value < TWO_63
  {
    match Read(data, i)
    case Err(e) => Err(e)
    case Ok(Parsed(len, next)) =>
      if len >= TWO_63 || next + len >= TWO_63 then Err(InvalidLength) else Ok(Parsed(next + len, next))
  }

  /** skipDymint from index i on, inside `depth` groups: the index after the skipped field. */
  function Skip(data: seq<byte>, i: nat, depth: nat): (r: Result<nat>)
    ensures r.Ok? ==> i < r.value
    decreases |data| - i
  {
    if i >= |data| then Err(UnexpectedEOF)
    else
      match Read(data, i)
      case Err(e) => Err(e)
      case Ok(Parsed(wire, next)) =>
        var wireType := wire % 8;
        if wireType == 4 && depth == 0 then Err(UnexpectedEndOfGroup)
        else
          match SkipPayload(data, next, wireType)
          case Err(e) => Err(e)
          case Ok(after) =>
            if after >= TWO_63 then Err(InvalidLength)
            else
              var depth' := if wireType == 3 then depth + 1 else if wireType == 4 then depth - 1 else depth;
              if depth' == 0 then Ok(after) else Skip(data, after, depth')
  }

  function SkipPayload(data: seq<byte>, i: nat, wireType: nat): (r: Result<nat>)
    ensures r.Ok? ==> i <= r.value
  {
    match wireType
    case 0 => (match Read(data, i) case Err(e) => Err(e) case Ok(p) => Ok(p.next))
    case 1 => Ok(i + 8)
    case 2 => (match ReadLength(data, i) case Err(e) => Err(e) case Ok(p) => Ok(p.value))
    case 3 => Ok(i)
    case 4 => Ok(i)
    case 5 => Ok(i + 4)
    case _ => Err(IllegalWireType)
  }

  /** One turn of the Unmarshal loop: a declared field, or nothing when it was skipped. */
  function ReadField(kind: nat -> Option<Kind>, data: seq<byte>, i: nat): (r: Result<Parsed<Option<Field>>>)
    requires i < |data|
    ensures r.Ok? ==> i < r.value.next <= |data|
  {
    match Read(data, i)
    case Err(e) => Err(e)
    case Ok(Parsed(wire, next)) =>
      var num := wire / 8 % TWO_32;
      var wireType := wire % 8;
      if wireType == 4 then Err(EndGroupTag)
      else if num == 0 || num >= TWO_31 then Err(IllegalTag)
      else
        match kind(num)
        case Some(UintKind) =>
          if wireType != 0 then Err(WrongWireType)
          else (match Read(data, next)
                case Err(e) => Err(e)
                case Ok(Parsed(v, next')) => Ok(Parsed(Some(Uint(num, v)), next')))
        case Some(BytesKind) =>
          if wireType != 2 then Err(WrongWireType)
          else (match ReadLength(data, next)
                case Err(e) => Err(e)
                case Ok(Parsed(end, start)) =>
                  if end > |data| then Err(UnexpectedEOF)
                  else Ok(Parsed(Some(Bytes(num, data[start..end])), end)))
        case None =>
          (match Skip(data[i..], 0, 0)
           case Err(e) => Err(e)
           case Ok(n) =>
             if i + n >= TWO_63 then Err(InvalidLength)
             else if i + n > |data| then Err(UnexpectedEOF)
             else Ok(Parsed(None, i + n)))
  }

  function Unmarshal<M>(codec: Codec<M>, m: M, data: seq<byte>, i: nat): Result<M>
    decreases |data| - i
  {
    if i >= |data| then Ok(m)
    else
      match ReadField(codec.kind, data, i)
      case Err(e) => Err(e)
      case Ok(Parsed(None, next)) => Unmarshal(codec, m, data, next)
      case Ok(Parsed(Some(f), next)) =>
        match codec.put(m, f)
        case Err(e) => Err(e)
        case Ok(m') => Unmarshal(codec, m', data, next)
  }

  function PutAll<M>(codec: Codec<M>, m: M, fs: seq<Field>): Result<M>
    decreases |fs|
  {
    if fs == [] then Ok(m)
    else
      match codec.put(m, fs[0])
      case Err(e) => Err(e)
      case Ok(m') => PutAll(codec, m', fs[1..])
  }

  /** A field number that survives the cast to a positive int32. */
  predicate Legal(f: Field) {
    1 <= f.num < TWO_31
  }

  predicate Declared(kind: nat -> Option<Kind>, f: Field) {
    Legal(f) && kind(f.num) == Some(if f.Uint? then UintKind else BytesKind)
  }

  predicate At(data: seq<byte>, i: nat, part: seq<byte>) {
    i + |part| <= |data| && data[i..i + |part|] == part
  }

  lemma AtParts(data: seq<byte>, i: nat, a: seq<byte>, b: seq<byte>)
    requires At(data, i, a + b)
    ensures At(data, i, a) && At(data, i + |a|, b)
  {
    assert data[i..i + |a|] == data[i..i + |a + b|][..|a|];
    assert data[i + |a|..i + |a| + |b|] == data[i..i + |a + b|][|a|..];
  }

  lemma ReadAt(data: seq<byte>, i: nat, v: uint64)
    requires At(data, i, Encoded(v))
    ensures Read(data, i) == Ok(Parsed(v, i + |Encoded(v)|))
  {
    ReadEncoded(data, i, v);
  }

  lemma TagParts(num: nat, wireType: nat)
    requires num < TWO_31 && wireType < 8
    ensures Tag(num, wireType) < TWO_64
    ensures Tag(num, wireType) / 8 % TWO_32 == num && Tag(num, wireType) % 8 == wireType
  {
  }

  lemma ReadTag(data: seq<byte>, i: nat, num: nat, wireType: nat, rest: seq<byte>)
    requires num < TWO_31 && wireType < 8 && At(data, i, Encoded(Tag(num, wireType)) + rest)
    ensures var t := Tag(num, wireType);
            && t < TWO_64 && Read(data, i) == Ok(Parsed(t, i + |Encoded(t)|))
            && t / 8 % TWO_32 == num && t % 8 == wireType
            && At(data, i + |Encoded(t)|, rest)
  {
    hide Read, Encoded, Tag;
    var t := Tag(num, wireType);
    TagParts(num, wireType);
    AtParts(data, i, Encoded(t), rest);
    ReadAt(data, i, t);
  }

  lemma ReadPayload(data: seq<byte>, i: nat, payload: seq<byte>)
    requires |data| < TWO_63 && At(data, i, Encoded(|payload|) + payload)
    ensures var start := i + |Encoded(|payload|)|;
            ReadLength(data, i) == Ok(Parsed(start + |payload|, start)) && At(data, start, payload)
  {
    hide Read, Encoded, At;
    AtParts(data, i, Encoded(|payload|), payload);
    AtWithin(data, i + |Encoded(|payload|)|, payload);
    ReadAt(data, i, |payload|);
  }

  lemma AtWithin(data: seq<byte>, i: nat, part: seq<byte>)
    requires At(data, i, part)
    ensures i + |part| <= |data| && data[i..i + |part|] == part
  {
  }

  lemma ReadDeclared(kind: nat -> Option<Kind>, data: seq<byte>, i: nat, f: Field)
    requires |data| < TWO_63 && Declared(kind, f) && At(data, i, FieldBytes(f))
    ensures i < |data| && ReadField(kind, data, i) == Ok(Parsed(Some(f), i + |FieldBytes(f)|))
  {
    hide Read, Encoded, Tag, At, Skip, ReadLength;
    match f
    case Uint(num, v) =>
      ReadTag(data, i, num, 0, Encoded(v));
      AtWithin(data, i, FieldBytes(f));
      ReadAt(data, i + |Encoded(Tag(num, 0))|, v);
    case Bytes(num, payload) =>
      var rest := Encoded(|payload|) + payload;
      assert FieldBytes(f) == Encoded(Tag(num, 2)) + rest;
      ReadTag(data, i, num, 2, rest);
      ReadPayload(data, i + |Encoded(Tag(num, 2))|, payload);
      AtWithin(data, i + |Encoded(Tag(num, 2))| + |Encoded(|payload|)|, payload);
  }

  /** Decoding the bytes of declared fields is storing the fields one by one. */
  lemma {:induction false} UnmarshalFields<M>(codec: Codec<M>, m: M, data: seq<byte>, i: nat, fs: seq<Field>)
    requires |data| < TWO_63 && i <= |data| && data[i..] == Concat(fs)
    requires forall f | f in fs :: Declared(codec.kind, f)
    ensures Unmarshal(codec, m, data, i) == PutAll(codec, m, fs)
    decreases |fs|
  {
    hide ReadField, FieldBytes;
    if fs != [] {
      var head := FieldBytes(fs[0]);
      assert data[i..i + |head|] == data[i..][..|head|] == head;
      ReadDeclared(codec.kind, data, i, fs[0]);
      var next := codec.put(m, fs[0]);
      if next.Ok? {
        assert data[i + |head|..] == data[i..][|head|..] == Concat(fs[1..]);
        UnmarshalFields(codec, next.value, data, i + |head|, fs[1..]);
      }
    }
  }

  /** skipDymint as the source runs it. */
  method SkipField(data: seq<byte>) returns (r: Result<nat>)
    ensures r == Skip(data, 0, 0)
  {
    hide Decode;
    var i, depth := 0, 0;
    while i < |data|
      invariant 0 <= i && 0 <= depth && Skip(data, 0, 0) == Skip(data, i, depth)
      decreases |data| - i
    {
      var read := ReadVarint(data, i);
      if read.Err? {
        return Err(read.error);
      }
      var wireType := read.value.value % 8;
      i := read.value.next;
      match wireType {
        case 0 =>
          var v := ReadVarint(data, i);
          if v.Err? {
            return Err(v.error);
          }
          i := v.value.next;
        case 1 => i := i + 8;
        case 2 =>
          var len := ReadVarint(data, i);
          if len.Err? {
            return Err(len.error);
          }
          if len.value.value >= TWO_63 {
            return Err(InvalidLength);
          }
          i := len.value.next + len.value.value;
        case 3 => depth := depth + 1;
        case 4 =>
          if depth == 0 {
            return Err(UnexpectedEndOfGroup);
          }
          depth := depth - 1;
        case 5 => i := i + 4;
        case _ => return Err(IllegalWireType);
      }
      if i >= TWO_63 {
        return Err(InvalidLength);
      }
      if depth == 0 {
        return Ok(i);
      }
    }
    return Err(UnexpectedEOF);
  }

  /** The loop of a generated Unmarshal. It ends on every input. */
  method UnmarshalAll<M>(codec: Codec<M>, init: M, data: seq<byte>) returns (r: Result<M>)
    ensures r == Unmarshal(codec, init, data, 0)
  {
    hide ReadField;
    var m := init;
    var i := 0;
    while i < |data|
      invariant 0 <= i <= |data| && Unmarshal(codec, init, data, 0) == Unmarshal(codec, m, data, i)
    {
      var read := ReadField(codec.kind, data, i);
      if read.Err? {
        return Err(read.error);
      }
      if read.value.value.Some? {
        var stored := codec.put(m, read.value.value.value);
        if stored.Err? {
          return Err(stored.error);
        }
        m := stored.value;
      }
      i := read.value.next;
    }
    return Ok(m);
  }
}
