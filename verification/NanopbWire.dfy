/** Protocol Buffers wire types as nanopb writes and reads them (pb_encode.c, pb_decode.c):
    "Base 128 Varints", "Message Structure" and "Signed Integers" of the Protocol Buffers Encoding
    specification. The varint itself is that of Coding.dfy. */
module NanopbWire {
  import opened Dbformat
  import opened Coding

  const WT_VARINT: nat := 0
  const WT_64BIT: nat := 1
  const WT_STRING: nat := 2
  const WT_32BIT: nat := 5

  /** pb_encode_varint, with its quick case and the final clearing of the top bit; the result fits the
      ten-byte buffer of the source. */
  method EncodeVarint(value: nat) returns (r: Bytes)
    requires value < TWO64
    ensures r == Varint(value) && |r| <= 10
  {
    ghost var ten: nat := 10;
    TenBytes(value);
    VarintLength(value, ten);
    if value <= 0x7F {
      return [value];
    }
    var buffer: Bytes, v: nat := [], value;
    ghost var head: Bytes, last: nat := [], 0;
    while v != 0
      invariant v > 0 ==> buffer + Varint(v) == Varint(value)
      invariant v == 0 ==> last < 128 && buffer == head + [last + 128] && head + [last] == Varint(value)
      decreases v
    {
      head, last := buffer, v % 128;
      NextByte(head, v, Varint(value));
      buffer := buffer + [v % 128 + 128];
      v := v / 128;
    }
    r := buffer[..|buffer| - 1] + [buffer[|buffer| - 1] - 128];
  }

  lemma {:induction false} NextByte(head: Bytes, v: nat, all: Bytes)
    requires v > 0 && head + Varint(v) == all
    ensures if v < 128 then head + [v % 128] == all
            else head + [v % 128 + 128] + Varint(v / 128) == all && |Varint(v)| == 1 + |Varint(v / 128)|
  {
  }

  lemma {:induction false} TenBytes(v: nat)
    requires v < TWO64
    ensures v < Pow128(10)
  {
    Pow128Five();
    assert Pow128(7) == 128 * 128 * Pow128(5);
    assert Pow128(9) == 128 * 128 * Pow128(7);
  }

  // ---------- reading varints ----------

  /** pb_decode_varint: at most ten bytes, what does not fit into 64 bits is cut off. */
  function DecodeVarint(s: Bytes): (r: Option<(nat, Bytes)>)
    ensures r.Some? ==> |r.value.1| < |s|
  {
    match ParseVarint(s, 10)
    case None => None
    case Some((v, n)) => Some((v % TWO64, s[n..]))
  }

  /** The loop of pb_decode_varint32_eof from the bit position `bitpos` on: bytes beyond 32 bits must be
      zero or look like a sign extension. */
  function Varint32Rest(s: Bytes, result: nat, bitpos: nat): (r: Option<(nat, Bytes)>)
    ensures r.Some? ==> |r.value.1| < |s|
  {
    if s == [] then None
    else
      var byte := s[0];
      if bitpos >= 32 && byte % 128 != 0 && (result / 0x8000_0000 == 0 || byte != (if bitpos < 63 then 255 else 1)) then None
      else
        var grown := if bitpos >= 32 then result else (result + Placed(byte % 128, bitpos)) % TWO32;
        if byte >= 128 then Varint32Rest(s[1..], grown, bitpos + 7)
        else if bitpos + 7 == 35 && (byte / 16) % 8 != 0 then None
        else Some((grown, s[1..]))
  }

  /** `bits << bitpos` for the positions below 32. */
  function Placed(bits: nat, bitpos: nat): nat {
    if bitpos == 7 then bits * 0x80
    else if bitpos == 14 then bits * 0x4000
    else if bitpos == 21 then bits * 0x20_0000
    else bits * 0x1000_0000
  }

  function DecodeVarint32(s: Bytes): (r: Option<(nat, Bytes)>)
    ensures r.Some? ==> |r.value.1| < |s|
  {
    if s == [] then None
    else if s[0] < 128 then Some((s[0] as nat, s[1..]))
    else Varint32Rest(s[1..], s[0] - 128, 7)
  }

  lemma {:induction false} ReadsVarint(v: nat, rest: Bytes)
    requires v < TWO64
    ensures DecodeVarint(Varint(v) + rest) == Some((v, rest))
  {
    var ten: nat := 10;
    TenBytes(v);
    VarintRoundTrip(v, rest, ten);
    assert (Varint(v) + rest)[|Varint(v)|..] == rest;
  }

  lemma {:induction false} HeadAndTail(v: nat, rest: Bytes)
    requires v >= 128
    ensures (Varint(v) + rest)[0] == v % 128 + 128 && (Varint(v) + rest)[1..] == Varint(v / 128) + rest
  {
  }

  /** The 32-bit reader gives back every 32-bit value that was written. */
  lemma {:induction false} ReadsVarint32(v: nat, rest: Bytes)
    requires v < TWO32
    ensures DecodeVarint32(Varint(v) + rest) == Some((v, rest))
  {
    if v < 128 {
      assert (Varint(v) + rest)[1..] == rest;
    } else {
      HeadAndTail(v, rest);
      ReadsRest7(v / 128, rest, v % 128);
    }
  }

  lemma {:induction false} LastByte(v: nat, rest: Bytes, result: nat, bitpos: nat)
    requires v < 128 && bitpos in {7, 14, 21, 28} && (bitpos == 28 ==> v < 16) && result + Placed(v, bitpos) < TWO32
    ensures Varint32Rest(Varint(v) + rest, result, bitpos) == Some((result + Placed(v, bitpos), rest))
  {
    assert (Varint(v) + rest)[1..] == rest;
  }

  lemma {:induction false} ReadsRest28(v: nat, rest: Bytes, result: nat)
    requires v < 16 && result < 0x1000_0000
    ensures Varint32Rest(Varint(v) + rest, result, 28) == Some((result + v * 0x1000_0000, rest))
  {
    LastByte(v, rest, result, 28);
  }

  lemma {:induction false} ReadsRest21(v: nat, rest: Bytes, result: nat)
    requires v < 16 * 128 && result < 0x20_0000
    ensures Varint32Rest(Varint(v) + rest, result, 21) == Some((result + v * 0x20_0000, rest))
  {
    if v < 128 {
      LastByte(v, rest, result, 21);
    } else {
      HeadAndTail(v, rest);
      ReadsRest28(v / 128, rest, result + (v % 128) * 0x20_0000);
    }
  }

  lemma {:induction false} ReadsRest14(v: nat, rest: Bytes, result: nat)
    requires v < 16 * 128 * 128 && result < 0x4000
    ensures Varint32Rest(Varint(v) + rest, result, 14) == Some((result + v * 0x4000, rest))
  {
    if v < 128 {
      LastByte(v, rest, result, 14);
    } else {
      HeadAndTail(v, rest);
      ReadsRest21(v / 128, rest, result + (v % 128) * 0x4000);
    }
  }

  lemma {:induction false} ReadsRest7(v: nat, rest: Bytes, result: nat)
    requires v < 16 * 128 * 128 * 128 && result < 0x80
    ensures Varint32Rest(Varint(v) + rest, result, 7) == Some((result + v * 0x80, rest))
  {
    if v < 128 {
      LastByte(v, rest, result, 7);
    } else {
      HeadAndTail(v, rest);
      ReadsRest14(v / 128, rest, result + (v % 128) * 0x80);
    }
  }

  /** pb_decode_varint32_eof, byte by byte. */
  method ReadVarint32(s: Bytes) returns (r: Option<(nat, Bytes)>)
    ensures r == DecodeVarint32(s)
  {
    if s == [] {
      return None;
    }
    var byte, rest := s[0], s[1..];
    if byte < 128 {
      return Some((byte as nat, rest));
    }
    var bitpos: nat, result: nat := 7, byte % 128;
    while true
      invariant DecodeVarint32(s) == Varint32Rest(rest, result, bitpos)
      decreases |rest|
    {
      if rest == [] {
        return None;
      }
      byte, rest := rest[0], rest[1..];
      if bitpos >= 32 {
        var signExtension := if bitpos < 63 then 255 else 1;
        if byte % 128 != 0 && (result / 0x8000_0000 == 0 || byte != signExtension) {
          return None;
        }
      } else {
        result := (result + Placed(byte % 128, bitpos)) % TWO32;
      }
      bitpos := bitpos + 7;
      if byte < 128 {
        break;
      }
    }
    if bitpos == 35 && (byte / 16) % 8 != 0 {
      return None;
    }
    return Some((result, rest));
  }

  // ---------- signed integers ----------

  /** The two's complement of `v` in 64 bits. */
  function Unsigned64(v: int): nat
    requires -0x8000_0000_0000_0000 <= v < 0x1_0000_0000_0000_0000
  {
    if v < 0 then v + TWO64 else v
  }

  /** The low bits of `x` as a signed number of 1, 2, 4 or 8 bytes. */
  function Signed(x: int, bytes: nat): int {
    if bytes == 1 then Wrapped(x % 0x100, 0x80)
    else if bytes == 2 then Wrapped(x % 0x1_0000, 0x8000)
    else if bytes == 4 then Wrapped(x % 0x1_0000_0000, 0x8000_0000)
    else Wrapped(x % 0x1_0000_0000_0000_0000, 0x8000_0000_0000_0000)
  }

  function Wrapped(x: nat, half: nat): int {
    if x < half then x else x - 2 * half
  }

  function Half(bytes: nat): nat {
    if bytes == 1 then 0x80 else if bytes == 2 then 0x8000 else if bytes == 4 then 0x8000_0000 else 0x8000_0000_0000_0000
  }

  /** pb_dec_varint: fields of up to four bytes are first cut to 32 bits; a value that the field cannot
      hold is an error. */
  function ToSigned(value: nat, bytes: nat): Option<int> {
    var svalue := if bytes == 8 then Signed(value, 8) else Signed(value, 4);
    if Signed(svalue, bytes) == svalue then Some(svalue) else None
  }

  /** Within 32 bits the low half of the 64-bit complement is the complement. */
  lemma {:induction false} LowHalf(v: int)
    requires -0x8000_0000 <= v < 0x8000_0000
    ensures Unsigned64(v) % 0x1_0000_0000 == if v < 0 then v + 0x1_0000_0000 else v
  {
    assert v < 0 ==> Unsigned64(v) == 0xFFFF_FFFF * 0x1_0000_0000 + (v + 0x1_0000_0000);
  }

  predicate InSigned(v: int, bytes: nat) {
    -(Half(bytes) as int) <= v < Half(bytes)
  }

  lemma {:induction false} SignedKeeps(v: int, bytes: nat)
    requires bytes in {1, 2, 4, 8} && InSigned(v, bytes)
    ensures Signed(v, bytes) == v
  {
    if bytes == 1 {
      assert v < 0 ==> v % 0x100 == v + 0x100;
    } else if bytes == 2 {
      assert v < 0 ==> v % 0x1_0000 == v + 0x1_0000;
    } else if bytes == 4 {
      assert v < 0 ==> v % 0x1_0000_0000 == v + 0x1_0000_0000;
    } else {
      assert v < 0 ==> v % 0x1_0000_0000_0000_0000 == v + 0x1_0000_0000_0000_0000;
    }
  }

  lemma {:induction false} SignedRoundTrip(v: int, bytes: nat)
    requires bytes in {1, 2, 4, 8} && InSigned(v, bytes)
    ensures Unsigned64(v) < TWO64 && ToSigned(Unsigned64(v), bytes) == Some(v)
  {
    SignedKeeps(v, bytes);
    if bytes != 8 {
      LowHalf(v);
      assert Signed(Unsigned64(v), 4) == v;
    } else {
      assert Signed(Unsigned64(v), 8) == v;
    }
  }

  /** pb_encode_svarint and pb_decode_svarint. */
  function ZigZag(v: int): nat {
    if v < 0 then -2 * v - 1 else 2 * v
  }

  function UnZigZag(n: nat): int {
    if n % 2 == 1 then -(n / 2) - 1 else n / 2
  }

  lemma {:induction false} ZigZagRoundTrip(v: int)
    requires -0x8000_0000_0000_0000 <= v < 0x8000_0000_0000_0000
    ensures ZigZag(v) < TWO64 && UnZigZag(ZigZag(v)) == v
  {
  }

  // ---------- fields of unknown tags ----------

  /** pb_skip_varint reads on to a byte below 128, however far. */
  function SkipVarint(s: Bytes): (r: Option<Bytes>)
    ensures r.Some? ==> |r.value| < |s|
  {
    if s == [] then None else if s[0] < 128 then Some(s[1..]) else SkipVarint(s[1..])
  }

  function SkipBytes(s: Bytes, n: nat): (r: Option<Bytes>)
    ensures r.Some? ==> |r.value| <= |s|
  {
    if |s| < n then None else Some(s[n..])
  }

  function SkipField(s: Bytes, wireType: nat): (r: Option<Bytes>)
    ensures r.Some? ==> |r.value| <= |s|
  {
    if wireType == WT_VARINT then SkipVarint(s)
    else if wireType == WT_64BIT then SkipBytes(s, 8)
    else if wireType == WT_STRING then
      match DecodeVarint32(s)
      case None => None
      case Some((size, rest)) => SkipBytes(rest, size)
    else if wireType == WT_32BIT then SkipBytes(s, 4)
    else None
  }
}
