/** Fixed-width and variable-length integers, length-prefixed strings (util/coding.cc,
    util/coding.h), and encoded internal keys (db/dbformat.cc, db/dbformat.h). */
module Coding {
  import opened Dbformat

  // ---------- fixed width ----------

  /** The `n` low bytes of `v`, least significant first. */
  function Fixed(v: nat, n: nat): (r: Bytes)
    ensures |r| == n
  {
    if n == 0 then [] else [v % 256] + Fixed(v / 256, n - 1)
  }

  function DecodeFixed(s: Bytes): nat {
    if s == [] then 0 else s[0] + 256 * DecodeFixed(s[1..])
  }

  function Pow256(n: nat): nat {
    if n == 0 then 1 else 256 * Pow256(n - 1)
  }

  lemma {:induction false} FixedRoundTrip(v: nat, n: nat)
    requires v < Pow256(n)
    ensures DecodeFixed(Fixed(v, n)) == v
    decreases n
  {
    if n > 0 {
      FixedRoundTrip(v / 256, n - 1);
      assert Fixed(v, n)[1..] == Fixed(v / 256, n - 1);
    }
  }

  lemma {:induction false} FixedOnto(s: Bytes)
    ensures DecodeFixed(s) < Pow256(|s|) && Fixed(DecodeFixed(s), |s|) == s
  {
    if s != [] {
      FixedOnto(s[1..]);
      assert DecodeFixed(s) / 256 == DecodeFixed(s[1..]);
      assert s == [s[0]] + s[1..];
    }
  }

  /** EncodeFixed64 and EncodeFixed32, byte by byte into a buffer at `at`. */
  method EncodeFixed(buffer: array<Byte>, at: nat, v: nat, n: nat)
    requires at + n <= buffer.Length
    modifies buffer
    ensures buffer[..] == old(buffer[..at]) + Fixed(v, n) + old(buffer[at + n..])
  {
    var rest := v;
    for i := 0 to n
      invariant buffer[..at] == old(buffer[..at]) && buffer[at + i..] == old(buffer[at + i..])
      invariant buffer[at..at + i] + Fixed(rest, n - i) == Fixed(v, n)
    {
      ghost var done := buffer[at..at + i];
      buffer[at + i] := rest % 256;
      assert buffer[at..at + i + 1] == done + [rest % 256];
      rest := rest / 256;
    }
    assert buffer[..] == buffer[..at] + buffer[at..at + n] + buffer[at + n..];
  }

  // ---------- varints ----------

  /** Seven bits a byte, least significant first, the high bit set on all but the last. */
  function Varint(v: nat): (r: Bytes)
    ensures |r| > 0
  {
    if v < 128 then [v] else [v % 128 + 128] + Varint(v / 128)
  }

  function Pow128(n: nat): (r: nat)
    ensures r > 0
  {
    if n == 0 then 1 else 128 * Pow128(n - 1)
  }

  lemma {:induction false} VarintLength(v: nat, n: nat)
    requires n > 0
    ensures |Varint(v)| <= n <==> v < Pow128(n)
    decreases n
  {
    assert Pow128(1) == 128;
    if v >= 128 {
      assert |Varint(v)| == 1 + |Varint(v / 128)|;
      if n > 1 {
        VarintLength(v / 128, n - 1);
      }
    }
  }

  /** EncodeVarint64. */
  method EncodeVarint64(v: nat) returns (r: Bytes)
    ensures r == Varint(v)
  {
    var rest := v;
    r := [];
    while rest >= 128
      invariant r + Varint(rest) == Varint(v)
    {
      r := r + [rest % 128 + 128];
      rest := rest / 128;
    }
    r := r + [rest];
  }

  /** EncodeVarint32, one case per length. */
  method EncodeVarint32(v: nat) returns (r: Bytes)
    requires v < 0x1_0000_0000
    ensures r == Varint(v)
  {
    var v1 := v / 128;
    var v2, v3, v4 := v1 / 128, v1 / 128 / 128, v1 / 128 / 128 / 128;
    if v < 0x80 {
      r := [v];
    } else if v < 0x4000 {
      r := [v % 128 + 128, v1];
    } else if v < 0x20_0000 {
      r := [v % 128 + 128, v1 % 128 + 128, v2];
    } else if v < 0x1000_0000 {
      r := [v % 128 + 128, v1 % 128 + 128, v2 % 128 + 128, v3];
    } else {
      r := [v % 128 + 128, v1 % 128 + 128, v2 % 128 + 128, v3 % 128 + 128, v4];
      assert Varint(v4) == [v4];
    }
    assert v3 < 128 ==> Varint(v3) == [v3];
    assert v2 < 128 ==> Varint(v2) == [v2];
    assert v1 < 128 ==> Varint(v1) == [v1];
    assert v >= 0x1000_0000 ==> Varint(v3) == [v3 % 128 + 128] + Varint(v4);
    assert v >= 0x20_0000 ==> Varint(v2) == [v2 % 128 + 128] + Varint(v3);
    assert v >= 0x4000 ==> Varint(v1) == [v1 % 128 + 128] + Varint(v2);
  }

  /** The varint at the head of `s`: its value, wherever the last byte is among the first `max`,
      and how many bytes it takes. The value is not yet cut to the width of the target. */
  function ParseVarint(s: Bytes, max: nat): (r: Option<(nat, nat)>)
    ensures r.Some? ==> 0 < r.value.1 <= max && r.value.1 <= |s|
  {
    if max == 0 || s == [] then None
    else if s[0] < 128 then Some((s[0] as nat, 1))
    else match ParseVarint(s[1..], max - 1)
      case None => None
      case Some((v, n)) => Some((s[0] - 128 + 128 * v, n + 1))
  }

  /** Reading back what was written, whatever follows it. */
  lemma {:induction false} VarintRoundTrip(v: nat, rest: Bytes, max: nat)
    requires max > 0 && v < Pow128(max)
    ensures ParseVarint(Varint(v) + rest, max) == Some((v, |Varint(v)|))
    decreases max
  {
    if v >= 128 {
      var s := Varint(v) + rest;
      VarintLength(v, max);
      assert s[1..] == Varint(v / 128) + rest;
      assert Pow128(1) == 128;
      VarintRoundTrip(v / 128, rest, max - 1);
    }
  }

  /** A strict prefix of a varint is not one. */
  lemma {:induction false} VarintPrefix(v: nat, n: nat, max: nat)
    requires n < |Varint(v)|
    ensures ParseVarint(Varint(v)[..n], max) == None
    decreases n
  {
    if n > 0 && max > 0 {
      assert Varint(v)[..n][1..] == Varint(v / 128)[..n - 1];
      VarintPrefix(v / 128, n - 1, max - 1);
    }
  }

  /** Seven bits a byte, least significant first. */
  function Septets(s: Bytes): nat {
    if s == [] then 0 else s[0] as nat % 128 + 128 * Septets(s[1..])
  }

  /** The first byte with a clear high bit is the one before `n`. */
  predicate EndsAt(s: Bytes, max: nat, n: nat) {
    0 < n <= max && n <= |s| && s[n - 1] < 128 && forall i | 0 <= i < n - 1 :: s[i] >= 128
  }

  lemma {:induction false} ReadsToEnd(s: Bytes, max: nat, n: nat)
    requires EndsAt(s, max, n)
    ensures ParseVarint(s, max) == Some((Septets(s[..n]), n))
    decreases n
  {
    assert s[..n][0] == s[0];
    if n == 1 {
      assert s[..1][1..] == [];
    } else {
      assert s[..n][1..] == s[1..][..n - 1];
      ReadsToEnd(s[1..], max - 1, n - 1);
    }
  }

  lemma {:induction false} ReadHasEnd(s: Bytes, max: nat)
    ensures ParseVarint(s, max).Some? ==> EndsAt(s, max, ParseVarint(s, max).value.1)
    ensures ParseVarint(s, max).None? ==> forall i | 0 <= i < max && i < |s| :: s[i] >= 128
    decreases max
  {
    if max > 0 && s != [] && s[0] >= 128 {
      ReadHasEnd(s[1..], max - 1);
      assert forall i | 0 < i < |s| :: s[i] == s[1..][i - 1];
    }
  }

  /** On any bytes: a varint ends at the first byte with a clear high bit, which must be among the first
      `max`, and its value is that of the septets up to there. */
  lemma {:induction false} VarintReadsExactly(s: Bytes, max: nat, v: nat, n: nat)
    ensures ParseVarint(s, max) == Some((v, n)) <==> EndsAt(s, max, n) && v == Septets(s[..n])
    ensures ParseVarint(s, max) == None <==> forall i | 0 <= i < max && i < |s| :: s[i] >= 128
  {
    ReadHasEnd(s, max);
    match ParseVarint(s, max)
    case Some((_, m)) =>
      ReadsToEnd(s, max, m);
      assert s[m - 1] < 128;
      if EndsAt(s, max, n) {
        ReadsToEnd(s, max, n);
      }
    case None =>
      assert EndsAt(s, max, n) ==> n - 1 < |s|;
  }

  /** The value and length of a varint whose first `p` bytes contributed `acc`. */
  function Resume(parsed: Option<(nat, nat)>, acc: nat, unit: nat, p: nat): Option<(nat, nat)> {
    match parsed case None => None case Some((v, n)) => Some((acc + unit * v, n + p))
  }

  lemma {:induction false} ResumeNext(s: Bytes, max: nat, acc: nat, unit: nat, p: nat)
    requires p < max && p < |s| && s[p] >= 128
    ensures Resume(ParseVarint(s[p..], max - p), acc, unit, p)
            == Resume(ParseVarint(s[p + 1..], max - p - 1), acc + unit * (s[p] as nat % 128), unit * 128, p + 1)
  {
    assert s[p..][1..] == s[p + 1..];
    match ParseVarint(s[p + 1..], max - p - 1)
    case None =>
    case Some((v, n)) => assert unit * (s[p] - 128 + 128 * v) == unit * (s[p] - 128) + unit * 128 * v;
  }

  const TWO32: nat := 0x1_0000_0000
  const TWO64: nat := 0x1_0000_0000_0000_0000

  /** What a 64-bit or a 32-bit variable keeps of `x`. */
  function Truncate(x: nat, wide: bool): nat {
    if wide then x % TWO64 else x % TWO32
  }

  lemma {:induction false} TruncateSum(a: nat, b: nat, wide: bool)
    ensures Truncate(Truncate(a, wide) + b, wide) == Truncate(a + b, wide)
  {
  }

  /** GetVarint64Ptr (10 bytes) and the fallback of GetVarint32Ptr (5 bytes): bits beyond the width
      of the result are lost. */
  method GetVarint(s: Bytes, max: nat, wide: bool) returns (r: Option<(nat, nat)>)
    ensures r == match ParseVarint(s, max) case None => None case Some((v, n)) => Some((Truncate(v, wide), n))
  {
    var result: nat, p: nat, unit: nat := 0, 0, 1;
    ghost var acc: nat := 0;
    while p < max && p < |s|
      invariant p <= max && p <= |s| && result == Truncate(acc, wide)
      invariant ParseVarint(s, max) == Resume(ParseVarint(s[p..], max - p), acc, unit, p)
    {
      var more := unit * (s[p] as nat % 128);
      TruncateSum(acc, more, wide);
      result := Truncate(result + more, wide);
      if s[p] < 128 {
        return Some((result, p + 1));
      }
      ResumeNext(s, max, acc, unit, p);
      acc, unit, p := acc + more, unit * 128, p + 1;
    }
    return None;
  }

  // ---------- length-prefixed strings ----------

  function LengthPrefixed(s: Bytes): Bytes {
    Varint(|s|) + s
  }

  /** GetLengthPrefixedSlice: the string and what follows it. */
  function ParseLengthPrefixed(s: Bytes): Option<(Bytes, Bytes)> {
    match ParseVarint(s, 5)
    case None => None
    case Some((v, n)) =>
      var length := v % TWO32;
      if n + length <= |s| then Some((s[n..n + length], s[n + length..])) else None
  }

  lemma {:induction false} LengthPrefixedRoundTrip(s: Bytes, rest: Bytes)
    requires |s| < 0x1_0000_0000
    ensures ParseLengthPrefixed(LengthPrefixed(s) + rest) == Some((s, rest))
  {
    Pow128Five();
    VarintRoundTrip(|s|, s + rest, 5);
    assert LengthPrefixed(s) + rest == Varint(|s|) + (s + rest);
  }

  /** A strict prefix of a length-prefixed string is not one. */
  lemma {:induction false} PrefixedCut(s: Bytes, n: nat)
    requires |s| < TWO32 && n < |LengthPrefixed(s)|
    ensures ParseLengthPrefixed(LengthPrefixed(s)[..n]) == None
  {
    var whole, head := LengthPrefixed(s), Varint(|s|);
    if n < |head| {
      assert whole[..n] == head[..n];
      VarintPrefix(|s|, n, 5);
    } else {
      assert whole[..n] == head + s[..n - |head|];
      Pow128Five();
      VarintRoundTrip(|s|, s[..n - |head|], 5);
    }
  }

  lemma {:induction false} Pow128Five()
    ensures Pow128(5) == 0x8_0000_0000
  {
    assert Pow128(3) == 0x20_0000;
  }

  // ---------- encoded internal keys ----------

  /** An internal key with a byte-string user key. */
  datatype EncodedKey = EncodedKey(ukey: Bytes, sequence: nat, typ: ValueType)

  function PackSequenceAndType(sequence: nat, typ: ValueType): nat {
    sequence * 256 + if typ.Value? then 1 else 0
  }

  function AppendInternalKey(k: EncodedKey): Bytes {
    k.ukey + Fixed(PackSequenceAndType(k.sequence, k.typ), 8)
  }

  /** ParseInternalKey: at least eight bytes, and a known type. */
  function ParseInternalKey(s: Bytes): Option<EncodedKey> {
    if |s| < 8 then None
    else
      var num := DecodeFixed(s[|s| - 8..]);
      var c := num % 256;
      if c > 1 then None
      else Some(EncodedKey(s[..|s| - 8], num / 256, if c == 1 then Value else Deletion))
  }

  lemma {:induction false} InternalKeyRoundTrip(k: EncodedKey)
    requires k.sequence <= MAX_SEQUENCE
    ensures ParseInternalKey(AppendInternalKey(k)) == Some(k)
  {
    var s, tag := AppendInternalKey(k), PackSequenceAndType(k.sequence, k.typ);
    assert s[|s| - 8..] == Fixed(tag, 8) && s[..|s| - 8] == k.ukey;
    Pow256Eight();
    FixedRoundTrip(tag, 8);
  }

  lemma {:induction false} Pow256Eight()
    ensures Pow256(8) == 0x1_0000_0000_0000_0000
  {
    assert Pow256(4) == 0x1_0000_0000;
  }

  /** What parses is what was written: no other bytes stand for the same key. */
  lemma {:induction false} InternalKeyOnto(s: Bytes)
    requires ParseInternalKey(s).Some?
    ensures AppendInternalKey(ParseInternalKey(s).value) == s
  {
    var tag := s[|s| - 8..];
    FixedOnto(tag);
    assert PackSequenceAndType(DecodeFixed(tag) / 256, ParseInternalKey(s).value.typ) == DecodeFixed(tag);
    assert s == s[..|s| - 8] + tag;
  }
}
