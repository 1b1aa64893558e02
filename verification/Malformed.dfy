/**
 What decoding does with bytes that are no complete message: varints of any form, input that is cut off,
 fields of the wrong type, illegal tags and lengths.
 */
module Malformed {
  import opened Wrappers
  import opened Varint
  import opened Wire
  import opened Unknown

  // Varints

  /** The number in some bytes: their low seven bits, least significant first. */
  function Septets(s: seq<byte>): nat {
    if s == [] then 0 else s[0] % 128 + 128 * Septets(s[1..])
  }

  /** n bytes that say that more follow, and one that does not. */
  predicate VarintAt(data: seq<byte>, i: nat, n: nat) {
    i + n < |data| && (forall j | i <= j < i + n :: data[j] >= 128) && data[i + n] < 128
  }

  /** An encoded number is a varint with that number in it, at most ten bytes long in 64 bits, and without
      an empty byte at its end. */
  lemma {:induction false} EncodedMeans(v: nat)
    ensures VarintAt(Encoded(v), 0, |Encoded(v)| - 1) && Septets(Encoded(v)) == v
    ensures |Encoded(v)| > 1 ==> Encoded(v)[|Encoded(v)| - 1] > 0
  {
    if v >= 128 {
      EncodedMeans(v / 128);
      var rest := Encoded(v / 128);
      assert Encoded(v) == [v % 128 + 128] + rest && Encoded(v)[1..] == rest;
      assert forall j | 0 < j < |Encoded(v)| :: Encoded(v)[j] == rest[j - 1];
    } else {
      assert Encoded(v)[1..] == [];
    }
  }

  lemma EncodedShort(v: uint64)
    ensures |Encoded(v)| <= 10
  {
    Pow2Of64();
    SmallBitLen(v, 64);
    SovIsLength(v);
    if v % 2 == 0 {
      SmallBitLen(v + 1, 64);
    }
  }

  lemma ModAdd(x: nat, y: nat)
    ensures (x % TWO_64 + y) % TWO_64 == (x + y) % TWO_64
  {
  }

  lemma ShiftSeptets(b: nat, rest: nat, shift: nat)
    ensures (b % 128 + 128 * rest) * Pow2(shift) == b % 128 * Pow2(shift) + rest * Pow2(shift + 7)
  {
    hide Pow2;
    Pow2Shift(shift);
    var p := Pow2(shift);
    assert (b % 128 + 128 * rest) * p == b % 128 * p + 128 * rest * p;
    assert rest * (128 * p) == 128 * rest * p;
  }

  lemma {:induction false} DecodeVarint(data: seq<byte>, i: nat, n: nat, shift: nat, acc: uint64)
    requires VarintAt(data, i, n) && shift + 7 * n < 64
    ensures Decode(data, i, shift, acc) ==
            Ok(Parsed((acc + Septets(data[i..i + n + 1]) * Pow2(shift)) % TWO_64, i + n + 1))
    decreases n
  {
    hide Pow2;
    var s := data[i..i + n + 1];
    assert s[0] == data[i] && s[1..] == data[i + 1..i + n + 1];
    ShiftSeptets(data[i], Septets(s[1..]), shift);
    var acc' := Accumulate(acc, data[i], shift);
    if n == 0 {
      assert s[1..] == [];
    } else {
      DecodeVarint(data, i + 1, n - 1, shift + 7, acc');
      ModAdd(acc + data[i] % 128 * Pow2(shift), Septets(s[1..]) * Pow2(shift + 7));
    }
  }

  /** Up to ten bytes are read as the number in them, in 64 bits, minimal or not. */
  lemma ReadVarintAt(data: seq<byte>, i: nat, n: nat)
    requires VarintAt(data, i, n) && n < 10
    ensures Read(data, i) == Ok(Parsed(Septets(data[i..i + n + 1]) % TWO_64, i + n + 1))
  {
    Pow2Base();
    DecodeVarint(data, i, n, 0, 0);
  }

  lemma {:induction false} DecodeOn(data: seq<byte>, i: nat, n: nat, shift: nat, acc: uint64)
    requires i + n <= |data| && (forall j | i <= j < i + n :: data[j] >= 128)
    requires shift + 7 * n < 64 + 7 && (shift + 7 * n >= 64 || i + n == |data|)
    ensures Decode(data, i, shift, acc) == Err(if shift + 7 * n >= 64 then IntOverflow else UnexpectedEOF)
    decreases n
  {
    hide Accumulate;
    if n > 0 {
      DecodeOn(data, i + 1, n - 1, shift + 7, Accumulate(acc, data[i], shift));
    }
  }

  /** Ten bytes that say that more follow are too many. */
  lemma ReadTooLong(data: seq<byte>, i: nat)
    requires i + 10 <= |data| && forall j | i <= j < i + 10 :: data[j] >= 128
    ensures Read(data, i) == Err(IntOverflow)
  {
    DecodeOn(data, i, 10, 0, 0);
  }

  /** Input that ends while more should follow is too short. */
  lemma ReadTooShort(data: seq<byte>, i: nat)
    requires i <= |data| < i + 10 && forall j | i <= j < |data| :: data[j] >= 128
    ensures Read(data, i) == Err(UnexpectedEOF)
  {
    DecodeOn(data, i, |data| - i, 0, 0);
  }

  // Input that is cut off

  /** From i on the data is the first k bytes of something longer, and no more. */
  predicate CutAt(data: seq<byte>, i: nat, part: seq<byte>, k: nat) {
    i + k == |data| && k < |part| && data[i..] == part[..k] && i + |part| < TWO_63
  }

  lemma ReadCut(data: seq<byte>, i: nat, v: uint64, k: nat)
    requires CutAt(data, i, Encoded(v), k)
    ensures Read(data, i) == Err(UnexpectedEOF)
  {
    EncodedMeans(v);
    EncodedShort(v);
    hide Encoded, Read;
    forall j | i <= j < |data|
      ensures data[j] >= 128
    {
      assert data[j] == data[i..][j - i] == Encoded(v)[j - i];
    }
    ReadTooShort(data, i);
  }

  /** A cut falls into the first part, or into the second, which may be missing altogether. */
  lemma CutParts(data: seq<byte>, i: nat, a: seq<byte>, b: seq<byte>, k: nat)
    requires CutAt(data, i, a + b, k)
    ensures k < |a| ==> CutAt(data, i, a, k)
    ensures k >= |a| ==> At(data, i, a) && CutAt(data, i + |a|, b, k - |a|)
  {
    if k < |a| {
      assert (a + b)[..k] == a[..k];
    } else {
      assert data[i..i + |a|] == data[i..][..|a|] == (a + b)[..k][..|a|] == a;
      assert data[i + |a|..] == data[i..][|a|..] == (a + b)[..k][|a|..] == b[..k - |a|];
    }
  }

  lemma CutWithin(data: seq<byte>, i: nat, part: seq<byte>, k: nat)
    requires CutAt(data, i, part, k)
    ensures i <= |data| < i + |part| < TWO_63 && |data| < TWO_63
  {
  }

  /** Inside groups, a cut field ends the input; outside, skipping may also point to where its end would
      be. */
  predicate SkipEnds(data: seq<byte>, i: nat, depth: nat, end: nat) {
    Skip(data, i, depth) == Err(UnexpectedEOF) || (depth == 0 && Skip(data, i, depth) == Ok(end) && |data| < end)
  }

  lemma SkipAtEnd(data: seq<byte>, i: nat, depth: nat)
    requires i >= |data|
    ensures Skip(data, i, depth) == Err(UnexpectedEOF)
  {
  }

  lemma SkipNoTag(data: seq<byte>, i: nat, depth: nat)
    requires i < |data| && Read(data, i) == Err(UnexpectedEOF)
    ensures Skip(data, i, depth) == Err(UnexpectedEOF)
  {
  }

  /** A tag is there, but what it announces is not. */
  lemma SkipNoPayload(data: seq<byte>, i: nat, depth: nat, wire: uint64, next: nat)
    requires i < |data| && Read(data, i) == Ok(Parsed(wire, next)) && wire % 8 != 4
    requires SkipPayload(data, next, wire % 8) == Err(UnexpectedEOF)
    ensures Skip(data, i, depth) == Err(UnexpectedEOF)
  {
    hide Read, SkipPayload;
  }

  lemma SkipBehind(data: seq<byte>, i: nat, depth: nat, wire: uint64, next: nat, after: nat)
    requires i < |data| && Read(data, i) == Ok(Parsed(wire, next)) && wire % 8 in {1, 2, 5}
    requires SkipPayload(data, next, wire % 8) == Ok(after) && |data| < after < TWO_63
    ensures SkipEnds(data, i, depth, after)
  {
    hide Read, SkipPayload, Skip;
    SkipTurn(data, i, depth, wire, next, after);
    SkipAtEnd(data, after, depth);
  }

  /** The length is there, and more than is left. */
  lemma LengthBehind(data: seq<byte>, i: nat, p: seq<byte>, k: nat)
    requires CutAt(data, i, Encoded(|p|) + p, k) && k >= |Encoded(|p|)|
    ensures ReadLength(data, i) == Ok(Parsed(i + |Encoded(|p|)| + |p|, i + |Encoded(|p|)|))
    ensures i + |Encoded(|p|)| + |p| > |data|
  {
    hide Read, Encoded;
    CutParts(data, i, Encoded(|p|), p, k);
    CutWithin(data, i, Encoded(|p|) + p, k);
    ReadAt(data, i, |p|);
  }

  lemma LengthCut(data: seq<byte>, i: nat, p: seq<byte>, k: nat)
    requires CutAt(data, i, Encoded(|p|) + p, k) && k < |Encoded(|p|)|
    ensures ReadLength(data, i) == Err(UnexpectedEOF)
  {
    hide Read, Encoded;
    CutParts(data, i, Encoded(|p|), p, k);
    CutWithin(data, i, Encoded(|p|) + p, k);
    ReadCut(data, i, |p|, k);
  }

  lemma SkipLeafCut(data: seq<byte>, i: nat, depth: nat, f: Raw, k: nat)
    requires Proper(f) && !f.Group? && CutAt(data, i, RawBytes(f), k)
    ensures SkipEnds(data, i, depth, i + |RawBytes(f)|)
  {
    hide Read, Encoded, Tag, ReadLength, Skip, CutAt, At;
    CutWithin(data, i, RawBytes(f), k);
    var t := Tag(f.num, WireType(f));
    TagParts(f.num, WireType(f));
    CutParts(data, i, Encoded(t), Rest(f), k);
    if k < |Encoded(t)| {
      NoTagEnds(data, i, depth, t, k);
    } else {
      var next := i + |Encoded(t)|;
      ReadAt(data, i, t);
      CutStart(data, i, RawBytes(f), k);
      if f.Number? {
        ReadCut(data, next, f.v, k - |Encoded(t)|);
        SkipNoPayload(data, i, depth, t, next);
      } else if f.Payload? {
        if k - |Encoded(t)| < |Encoded(|f.payload|)| {
          LengthCut(data, next, f.payload, k - |Encoded(t)|);
          SkipNoPayload(data, i, depth, t, next);
        } else {
          LengthBehind(data, next, f.payload, k - |Encoded(t)|);
          SkipBehind(data, i, depth, t, next, i + |RawBytes(f)|);
        }
      } else {
        SkipBehind(data, i, depth, t, next, i + |RawBytes(f)|);
      }
    }
  }

  lemma CutStart(data: seq<byte>, i: nat, part: seq<byte>, k: nat)
    requires CutAt(data, i, part, k)
    ensures k > 0 ==> i < |data|
  {
  }

  lemma NoTagEnds(data: seq<byte>, i: nat, depth: nat, t: uint64, k: nat)
    requires CutAt(data, i, Encoded(t), k)
    ensures Skip(data, i, depth) == Err(UnexpectedEOF)
  {
    ReadCut(data, i, t, k);
    hide Read, Encoded;
    if i < |data| {
      SkipNoTag(data, i, depth);
    } else {
      SkipAtEnd(data, i, depth);
    }
  }

  lemma {:induction false} SkipCut(data: seq<byte>, i: nat, depth: nat, f: Raw, k: nat)
    requires Proper(f) && CutAt(data, i, RawBytes(f), k)
    ensures SkipEnds(data, i, depth, i + |RawBytes(f)|)
    decreases f, 1
  {
    if f.Group? {
      SkipGroupCut(data, i, depth, f, k);
    } else {
      SkipLeafCut(data, i, depth, f, k);
    }
  }

  lemma {:induction false} SkipGroupCut(data: seq<byte>, i: nat, depth: nat, f: Raw, k: nat)
    requires Proper(f) && f.Group? && CutAt(data, i, RawBytes(f), k)
    ensures SkipEnds(data, i, depth, i + |RawBytes(f)|)
    decreases f, 0
  {
    hide Read, Encoded, Tag, ReadLength, Skip, CutAt, At, RawsBytes;
    CutWithin(data, i, RawBytes(f), k);
    var open, close := Tag(f.num, 3), Tag(f.num, 4);
    TagParts(f.num, 3);
    TagParts(f.num, 4);
    CutParts(data, i, Encoded(open), Rest(f), k);
    if k < |Encoded(open)| {
      NoTagEnds(data, i, depth, open, k);
    } else {
      ReadAt(data, i, open);
      CutStart(data, i, RawBytes(f), k);
      var inside := i + |Encoded(open)|;
      SkipTurn(data, i, depth, open, inside, inside);
      SkipContentCut(data, inside, depth + 1, f.content, close, k - |Encoded(open)|);
    }
  }

  /** The content of a group, or its end tag, is cut. */
  lemma {:induction false} SkipContentCut(data: seq<byte>, i: nat, depth: nat, fs: Raws, close: uint64, k: nat)
    requires AllProper(fs) && depth > 0 && CutAt(data, i, RawsBytes(fs) + Encoded(close), k)
    ensures Skip(data, i, depth) == Err(UnexpectedEOF)
    decreases fs, 2
  {
    hide Read, Encoded, Tag, ReadLength, Skip, CutAt, At, RawBytes;
    match fs
    case Nil =>
      assert RawsBytes(fs) + Encoded(close) == Encoded(close);
      NoTagEnds(data, i, depth, close, k);
    case Cons(f, rest) =>
      assert RawsBytes(fs) + Encoded(close) == RawBytes(f) + (RawsBytes(rest) + Encoded(close));
      CutWithin(data, i, RawsBytes(fs) + Encoded(close), k);
      CutParts(data, i, RawBytes(f), RawsBytes(rest) + Encoded(close), k);
      if k < |RawBytes(f)| {
        SkipCut(data, i, depth, f, k);
      } else {
        SkipRaw(data, i, depth, f);
        SkipContentCut(data, i + |RawBytes(f)|, depth, rest, close, k - |RawBytes(f)|);
      }
  }

  lemma KnownCut(kind: nat -> Option<Kind>, data: seq<byte>, i: nat, f: Field, k: nat)
    requires Declared(kind, f) && CutAt(data, i, FieldBytes(f), k) && i < |data|
    ensures ReadField(kind, data, i) == Err(UnexpectedEOF)
  {
    hide Read, Encoded, Tag, ReadLength, Skip, CutAt, At;
    CutWithin(data, i, FieldBytes(f), k);
    var t := Tag(f.num, if f.Uint? then 0 else 2);
    TagParts(f.num, if f.Uint? then 0 else 2);
    var rest := if f.Uint? then Encoded(f.v) else Encoded(|f.payload|) + f.payload;
    assert FieldBytes(f) == Encoded(t) + rest;
    CutParts(data, i, Encoded(t), rest, k);
    if k < |Encoded(t)| {
      ReadCut(data, i, t, k);
    } else {
      var next := i + |Encoded(t)|;
      ReadAt(data, i, t);
      if f.Uint? {
        ReadCut(data, next, f.v, k - |Encoded(t)|);
      } else if k - |Encoded(t)| < |Encoded(|f.payload|)| {
        LengthCut(data, next, f.payload, k - |Encoded(t)|);
      } else {
        LengthBehind(data, next, f.payload, k - |Encoded(t)|);
      }
    }
  }

  lemma OtherCut(kind: nat -> Option<Kind>, data: seq<byte>, i: nat, f: Raw, k: nat)
    requires Proper(f) && kind(f.num) == None && CutAt(data, i, RawBytes(f), k) && i < |data|
    ensures ReadField(kind, data, i) == Err(UnexpectedEOF)
  {
    hide Read, Encoded, Tag, ReadLength, Skip, CutAt, At, Rest;
    CutWithin(data, i, RawBytes(f), k);
    var t := Tag(f.num, WireType(f));
    TagParts(f.num, WireType(f));
    CutParts(data, i, Encoded(t), Rest(f), k);
    if k < |Encoded(t)| {
      ReadCut(data, i, t, k);
    } else {
      ReadAt(data, i, t);
      CutTail(data, i, RawBytes(f), k);
      SkipCut(data[i..], 0, 0, f, k);
    }
  }

  lemma CutTail(data: seq<byte>, i: nat, part: seq<byte>, k: nat)
    requires CutAt(data, i, part, k)
    ensures CutAt(data[i..], 0, part, k)
  {
  }

  /** A cut field, declared or not, is reported as the end of the input. */
  lemma ItemCut(kind: nat -> Option<Kind>, data: seq<byte>, i: nat, x: Item, k: nat)
    requires Readable(kind, x) && CutAt(data, i, ItemBytes(x), k) && i < |data|
    ensures ReadField(kind, data, i) == Err(UnexpectedEOF)
  {
    hide ReadField, CutAt;
    match x
    case Known(f) => KnownCut(kind, data, i, f, k);
    case Other(r) => OtherCut(kind, data, i, r, k);
  }

  // Whole messages

  /** Decoding goes on behind any complete fields that store without error. */
  lemma {:induction false} UnmarshalThen<M>(codec: Codec<M>, m: M, data: seq<byte>, i: nat, xs: seq<Item>, m': M)
    requires |data| < TWO_63 && At(data, i, ItemsBytes(xs)) && forall x | x in xs :: Readable(codec.kind, x)
    requires PutAll(codec, m, KnownFields(xs)) == Ok(m')
    ensures Unmarshal(codec, m, data, i) == Unmarshal(codec, m', data, i + |ItemsBytes(xs)|)
    decreases |xs|
  {
    hide ReadField, ItemBytes, Readable, At;
    if xs != [] {
      AtParts(data, i, ItemBytes(xs[0]), ItemsBytes(xs[1..]));
      ReadItem(codec.kind, data, i, xs[0]);
      var next := i + |ItemBytes(xs[0])|;
      if xs[0].Other? {
        assert KnownFields(xs) == KnownFields(xs[1..]);
        UnmarshalThen(codec, m, data, next, xs[1..], m');
      } else {
        assert KnownFields(xs)[1..] == KnownFields(xs[1..]);
        UnmarshalThen(codec, codec.put(m, xs[0].f).value, data, next, xs[1..], m');
      }
    }
  }

  /** What the next field fails with, the message fails with. */
  lemma UnmarshalFails<M>(codec: Codec<M>, m: M, data: seq<byte>, i: nat, e: Error)
    requires i < |data| && ReadField(codec.kind, data, i) == Err(e)
    ensures Unmarshal(codec, m, data, i) == Err(e)
  {
  }

  /** A message that ends within a field, declared or not, is refused as cut off, wherever the cut is. */
  lemma UnmarshalCut<M>(codec: Codec<M>, m: M, xs: seq<Item>, x: Item, k: nat, m': M)
    requires (forall y | y in xs :: Readable(codec.kind, y)) && Readable(codec.kind, x)
    requires PutAll(codec, m, KnownFields(xs)) == Ok(m') && 0 < k < |ItemBytes(x)|
    requires |ItemsBytes(xs)| + |ItemBytes(x)| < TWO_63
    ensures Unmarshal(codec, m, ItemsBytes(xs) + ItemBytes(x)[..k], 0) == Err(UnexpectedEOF)
  {
    hide ReadField, ItemBytes, ItemsBytes, Readable, PutAll, Unmarshal;
    var data := ItemsBytes(xs) + ItemBytes(x)[..k];
    var i := |ItemsBytes(xs)|;
    assert data[..i] == ItemsBytes(xs) && data[i..] == ItemBytes(x)[..k];
    UnmarshalThen(codec, m, data, 0, xs, m');
    ItemCut(codec.kind, data, i, x, k);
    UnmarshalFails(codec, m', data, i, UnexpectedEOF);
  }

  /** What a tag alone gives away: the end of a group that was not begun, an illegal field number, a wire
      type other than the declared one, or one that there is not. */
  lemma BadTag(kind: nat -> Option<Kind>, data: seq<byte>, i: nat, t: uint64)
    requires At(data, i, Encoded(t)) && |data| < TWO_63
    ensures i < |data|
    ensures t % 8 == 4 ==> ReadField(kind, data, i) == Err(EndGroupTag)
    ensures var num := t / 8 % TWO_32;
            t % 8 != 4 ==>
              && (num == 0 || num >= TWO_31 ==> ReadField(kind, data, i) == Err(IllegalTag))
              && (1 <= num < TWO_31 && kind(num) == Some(UintKind) && t % 8 != 0 ==>
                    ReadField(kind, data, i) == Err(WrongWireType))
              && (1 <= num < TWO_31 && kind(num) == Some(BytesKind) && t % 8 != 2 ==>
                    ReadField(kind, data, i) == Err(WrongWireType))
              && (1 <= num < TWO_31 && kind(num) == None && t % 8 >= 6 ==>
                    ReadField(kind, data, i) == Err(IllegalWireType))
  {
    hide Encoded, Read, ReadLength;
    ReadAt(data, i, t);
    AtWithin(data, i, Encoded(t));
    var tail := data[i..];
    assert tail[0..|Encoded(t)|] == data[i..i + |Encoded(t)|];
    ReadAt(tail, 0, t);
  }

  /** A length that does not fit a signed 64-bit index is refused as such, before anything is read. */
  lemma BadLength(kind: nat -> Option<Kind>, data: seq<byte>, i: nat, num: nat, len: uint64)
    requires 1 <= num < TWO_31 && kind(num) == Some(BytesKind) && |data| < TWO_63
    requires At(data, i, Encoded(Tag(num, 2)) + Encoded(len))
    requires i + |Encoded(Tag(num, 2))| + |Encoded(len)| + len >= TWO_63
    ensures i < |data| && ReadField(kind, data, i) == Err(InvalidLength)
  {
    hide Encoded, Read, Tag, At;
    ReadTag(data, i, num, 2, Encoded(len));
    ReadAt(data, i + |Encoded(Tag(num, 2))|, len);
    AtWithin(data, i, Encoded(Tag(num, 2)) + Encoded(len));
  }

  predicate Mismatch(kind: Option<Kind>, wireType: nat) {
    (kind == Some(UintKind) && wireType != 0) || (kind == Some(BytesKind) && wireType != 2)
  }

  /** A declared number with a wire type other than its own makes the whole message fail, whatever complete
      fields come before it and whatever follows. */
  lemma UnmarshalWrongType<M>(codec: Codec<M>, m: M, xs: seq<Item>, num: nat, wireType: nat, rest: seq<byte>, m': M)
    requires (forall y | y in xs :: Readable(codec.kind, y)) && PutAll(codec, m, KnownFields(xs)) == Ok(m')
    requires 1 <= num < TWO_31 && wireType < 8 && wireType != 4
    requires Mismatch(codec.kind(num), wireType)
    requires |ItemsBytes(xs) + Encoded(Tag(num, wireType)) + rest| < TWO_63
    ensures Unmarshal(codec, m, ItemsBytes(xs) + Encoded(Tag(num, wireType)) + rest, 0) == Err(WrongWireType)
  {
    hide ReadField, ItemsBytes, Readable, PutAll, Unmarshal, Encoded, Tag;
    var t := Tag(num, wireType);
    TagParts(num, wireType);
    var data := ItemsBytes(xs) + Encoded(t) + rest;
    var i := |ItemsBytes(xs)|;
    assert data[..i] == ItemsBytes(xs) && data[i..i + |Encoded(t)|] == Encoded(t);
    UnmarshalThen(codec, m, data, 0, xs, m');
    BadTag(codec.kind, data, i, t);
    UnmarshalFails(codec, m', data, i, WrongWireType);
  }
}
