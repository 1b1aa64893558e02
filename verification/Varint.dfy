/**
 Base 128 varints: sovDymint, encodeVarintDymint and the varint loop that every Unmarshal in
 types/pb/dymint/dymint.pb.go repeats.
 */
module Varint {

  type byte = x: int | 0 <= x < 256
  const TWO_63 := 0x8000_0000_0000_0000
  const TWO_64 := 0x1_0000_0000_0000_0000
  type uint64 = x: int | 0 <= x < TWO_64

  datatype Error = IntOverflow | UnexpectedEOF | InvalidLength | UnexpectedEndOfGroup | EndGroupTag |
                   IllegalTag | WrongWireType | IllegalWireType

  datatype Result<+T> = Ok(value: T) | Err(error: Error)

  /** What was read, and the index after it. */
  datatype Parsed<+T> = Parsed(value: T, next: nat)

  function Pow2(n: nat): (p: nat)
    ensures p >= 1
  {
    if n == 0 then 1 else 2 * Pow2(n - 1)
  }

  /** math/bits.Len64 */
  function BitLen(v: nat): nat {
    if v == 0 then 0 else 1 + BitLen(v / 2)
  }

  /** sovDymint: (bits.Len64(x | 1) + 6) / 7 */
  function Sov(v: nat): nat {
    (BitLen(if v % 2 == 0 then v + 1 else v) + 6) / 7
  }

  /** Seven bits a byte, least significant first; the top bit says that more follow. */
  function Encoded(v: nat): (s: seq<byte>)
    ensures 1 <= |s|
  {
    if v < 128 then [v] else [v % 128 + 128] + Encoded(v / 128)
  }

  /** acc |= (b & 0x7F) << shift, in 64 bits; the bits of acc are all below the shift. */
  function Accumulate(acc: uint64, b: byte, shift: nat): uint64 {
    (acc + b % 128 * Pow2(shift)) % TWO_64
  }

  /** The decoding loop at index i with the given shift: at most ten bytes, bits beyond 64 dropped. */
  function Decode(data: seq<byte>, i: nat, shift: nat, acc: uint64): (r: Result<Parsed<uint64>>)
    ensures r.Ok? ==> i < r.value.next <= |data|
    decreases 64 - shift
  {
    if shift >= 64 then Err(IntOverflow)
    else if i >= |data| then Err(UnexpectedEOF)
    else
      var acc' := Accumulate(acc, data[i], shift);
      if data[i] < 128 then Ok(Parsed(acc', i + 1)) else Decode(data, i + 1, shift + 7, acc')
  }

  function Read(data: seq<byte>, i: nat): Result<Parsed<uint64>> {
    Decode(data, i, 0, 0)
  }

  lemma Pow2Shift(n: nat)
    ensures Pow2(n + 7) == 128 * Pow2(n)
  {
    assert Pow2(n + 7) == 2 * Pow2(n + 6) == 4 * Pow2(n + 5) == 8 * Pow2(n + 4);
    assert Pow2(n + 4) == 2 * Pow2(n + 3) == 4 * Pow2(n + 2) == 8 * Pow2(n + 1);
  }

  lemma {:induction false} Pow2Monotone(m: nat, n: nat)
    requires m <= n
    ensures Pow2(m) <= Pow2(n)
  {
    if m < n {
      Pow2Monotone(m, n - 1);
    }
  }

  lemma Pow2Base()
    ensures Pow2(0) == 1
  {
  }

  lemma Pow2Double(n: nat)
    ensures Pow2(n + 1) == 2 * Pow2(n)
  {
  }

  lemma Pow2Of64()
    ensures Pow2(64) == TWO_64
  {
    hide Pow2;
    Pow2Base();
    Pow2Shift(0);
    Pow2Shift(7);
    Pow2Shift(14);
    Pow2Shift(21);
    Pow2Shift(28);
    Pow2Shift(35);
    Pow2Shift(42);
    Pow2Shift(49);
    Pow2Shift(56);
    Pow2Double(63);
  }

  function Scaled(v: nat, shift: nat): nat {
    v * Pow2(shift)
  }

  lemma SplitSeptet(v: nat, p: nat)
    ensures v * p == v % 128 * p + v / 128 * (128 * p)
    ensures v % 128 * p >= 0 && (v >= 128 ==> v / 128 * (128 * p) >= 128 * p)
  {
    var q, r := v / 128, v % 128;
    assert v * p == (128 * q + r) * p == 128 * q * p + r * p;
    assert q * (128 * p) == 128 * q * p;
    if v >= 128 {
      assert q * (128 * p) == (q - 1) * (128 * p) + 128 * p;
      assert (q - 1) * (128 * p) >= 0;
    }
  }

  /** One septet and the rest, both scaled. */
  lemma Septet(v: nat, shift: nat)
    ensures Scaled(v, shift) == Scaled(v % 128, shift) + Scaled(v / 128, shift + 7)
    ensures v >= 128 ==> Scaled(v, shift) >= Pow2(shift + 7)
  {
    hide Pow2;
    Pow2Shift(shift);
    SplitSeptet(v, Pow2(shift));
  }

  /** A number that still has bits to come leaves room for the next shift. */
  lemma ShiftFits(v: nat, shift: nat, acc: nat)
    requires v >= 128 && acc + Scaled(v, shift) < TWO_64
    ensures shift + 7 < 64
  {
    hide Pow2, Scaled;
    Septet(v, shift);
    if shift + 7 >= 64 {
      Pow2Of64();
      Pow2Monotone(64, shift + 7);
    }
  }

  lemma AccumulateSeptet(acc: uint64, b: byte, v: nat, shift: nat)
    requires b % 128 == v % 128 && acc + Scaled(v, shift) < TWO_64
    ensures Accumulate(acc, b, shift) == acc + Scaled(v % 128, shift)
  {
    hide Pow2;
    Septet(v, shift);
  }

  /** The decoder reads back what the encoder wrote, from any position and shift. */
  lemma {:induction false} DecodeEncoded(data: seq<byte>, i: nat, v: nat, shift: nat, acc: uint64)
    requires i + |Encoded(v)| <= |data| && data[i..i + |Encoded(v)|] == Encoded(v)
    requires acc + Scaled(v, shift) < TWO_64 && shift < 64
    ensures Decode(data, i, shift, acc) == Ok(Parsed(acc + Scaled(v, shift), i + |Encoded(v)|))
    decreases v
  {
    hide Pow2, Scaled, Accumulate;
    assert data[i] == Encoded(v)[0];
    AccumulateSeptet(acc, data[i], v, shift);
    if v >= 128 {
      Septet(v, shift);
      ShiftFits(v, shift, acc);
      var tail := Encoded(v / 128);
      assert data[i + 1..i + 1 + |tail|] == data[i..i + |Encoded(v)|][1..];
      DecodeEncoded(data, i + 1, v / 128, shift + 7, acc + Scaled(v % 128, shift));
    }
  }

  lemma ReadEncoded(data: seq<byte>, i: nat, v: uint64)
    requires i + |Encoded(v)| <= |data| && data[i..i + |Encoded(v)|] == Encoded(v)
    ensures Read(data, i) == Ok(Parsed(v, i + |Encoded(v)|))
  {
    Pow2Base();
    DecodeEncoded(data, i, v, 0, 0);
  }

  lemma BitLen7(v: nat)
    requires v >= 128
    ensures BitLen(v) == 7 + BitLen(v / 128)
  {
    assert v / 2 / 2 / 2 / 2 / 2 / 2 / 2 == v / 128;
    assert BitLen(v) == 3 + BitLen(v / 8);
    assert BitLen(v / 8) == 4 + BitLen(v / 128);
  }

  lemma BitLenOdd(v: nat)
    requires v >= 2 && v % 2 == 0
    ensures BitLen(v + 1) == BitLen(v)
  {
    assert (v + 1) / 2 == v / 2;
  }

  lemma SovOfBitLen(v: nat)
    requires v >= 1
    ensures Sov(v) == (BitLen(v) + 6) / 7
  {
    if v % 2 == 0 {
      BitLenOdd(v);
    }
  }

  /** The bit-counting formula is the number of bytes written. */
  lemma {:induction false} SovIsLength(v: nat)
    ensures Sov(v) == |Encoded(v)|
  {
    if v >= 128 {
      SovIsLength(v / 128);
      BitLen7(v);
      SovOfBitLen(v);
      SovOfBitLen(v / 128);
    } else if v >= 1 {
      SovOfBitLen(v);
      assert BitLen(v) <= 7 by { SmallBitLen(v, 7); }
      assert BitLen(v) >= 1;
    } else {
      assert BitLen(1) == 1 + BitLen(0);
    }
  }

  lemma {:induction false} SmallBitLen(v: nat, n: nat)
    requires v < Pow2(n)
    ensures BitLen(v) <= n
  {
    if v > 0 && n > 0 {
      SmallBitLen(v / 2, n - 1);
    }
  }

  /** Larger numbers never take fewer bytes. */
  lemma {:induction false} LengthMonotone(u: nat, v: nat)
    requires u <= v
    ensures |Encoded(u)| <= |Encoded(v)|
    decreases v
  {
    if u >= 128 {
      LengthMonotone(u / 128, v / 128);
    }
  }

  /** encodeVarintDymint: writes the varint so that it ends right before `offset`. */
  method EncodeVarint(buf: array<byte>, offset: nat, v: nat) returns (base: nat)
    requires Sov(v) <= offset <= buf.Length
    modifies buf
    ensures base == offset - Sov(v) && buf[base..offset] == Encoded(v)
    ensures buf[..base] == old(buf[..base]) && buf[offset..] == old(buf[offset..])
  {
    SovIsLength(v);
    base := offset - Sov(v);
    var at := base;
    var rest := v;
    while rest >= 128
      invariant base <= at && at + |Encoded(rest)| == offset
      invariant buf[base..at] + Encoded(rest) == Encoded(v)
      invariant buf[..base] == old(buf[..base]) && buf[offset..] == old(buf[offset..])
    {
      ghost var before := buf[base..at];
      buf[at] := rest % 128 + 128;
      assert buf[base..at + 1] == before + [rest % 128 + 128];
      rest := rest / 128;
      at := at + 1;
    }
    buf[at] := rest;
    assert buf[base..offset] == buf[base..at] + [rest];
  }

  /** The decoding loop as the source runs it. */
  method ReadVarint(data: seq<byte>, start: nat) returns (r: Result<Parsed<uint64>>)
    ensures r == Read(data, start)
  {
    hide Accumulate;
    var v: uint64 := 0;
    var i := start;
    var shift := 0;
    while true
      invariant 0 <= i && 0 <= shift && Read(data, start) == Decode(data, i, shift, v)
      decreases 64 - shift
    {
      if shift >= 64 {
        return Err(IntOverflow);
      }
      if i >= |data| {
        return Err(UnexpectedEOF);
      }
      var b := data[i];
      i := i + 1;
      v := Accumulate(v, b, shift);
      if b < 128 {
        return Ok(Parsed(v, i));
      }
      shift := shift + 7;
    }
  }
}
