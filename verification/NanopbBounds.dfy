/** What decoding can leave in a message, whatever the input is: values, strings and arrays within the
    bounds of the descriptor, and one member of a union (pb_decode.c). And which values are refused. */
module NanopbBounds {
  import opened Dbformat
  import opened Coding
  import opened NanopbWire
  import opened Nanopb

  // ---------- every result is within bounds ----------

  /** A type that a generated descriptor has. */
  predicate TypeOk(lt: LType)
    decreases lt, 0
  {
    match lt
    case SIntType(n) => n in {1, 2, 4, 8}
    case UIntType(n) => n in {1, 2, 4, 8}
    case ZigZagType(n) => n in {1, 2, 4, 8}
    case SubType(fields) => DescriptorOk(fields)
    case _ => true
  }

  predicate FieldOk(f: Field)
    decreases f, 1
  {
    TypeOk(f.ltype)
  }

  predicate DescriptorOk(fields: seq<Field>)
    decreases fields, 2
  {
    forall i | 0 <= i < |fields| :: FieldOk(fields[i])
  }

  /** The value fits the place that the descriptor gives it. */
  predicate Holds(lt: LType, v: Value)
    decreases lt, 0
  {
    match lt
    case BytesType(max) => v.Raw? && |v.b| <= max
    case StringType(size) => v.Raw? && 0 !in v.b && (|v.b| < size || v.b == [])
    case FixedBytesType(size) => v.Raw? && |v.b| == size
    case SubType(fields) => v.Msg? && AllHold(fields, v.cs)
    case _ => v.Int? && TypedInt(lt, v.v)
  }

  /** A field in the course of decoding: an array without a count may not be full yet. */
  predicate FieldWithin(f: Field, c: Content)
    decreases f, 1
  {
    match f.htype
    case Repeated(max, _) => c.Many? && |c.items| <= max && forall i | 0 <= i < |c.items| :: Holds(f.ltype, c.items[i])
    case _ => c.Single? && Holds(f.ltype, c.value)
  }

  predicate FieldHolds(f: Field, c: Content)
    decreases f, 2
  {
    FieldWithin(f, c) && (f.htype.Repeated? && !f.htype.counted ==> |c.items| == f.htype.max)
  }

  predicate AllHold(fields: seq<Field>, cs: seq<Content>)
    decreases fields, 2
  {
    && |cs| == |fields| && GroupsOk(fields, cs)
    && forall i | 0 <= i < |cs| :: FieldHolds(fields[i], cs[i])
  }

  /** All fields hold, but for the array that is being filled. */
  predicate Decoding(fields: seq<Field>, st: Progress) {
    && |st.cs| == |fields| && GroupsOk(fields, st.cs)
    && forall i | 0 <= i < |fields| :: FieldWithin(fields[i], st.cs[i]) && (st.fixed != Some(i) ==> FieldHolds(fields[i], st.cs[i]))
  }

  lemma {:induction false} ZeroHolds(lt: LType)
    requires TypeOk(lt)
    ensures Holds(lt, ZeroOf(lt))
    decreases lt, 0
  {
    if lt.SubType? {
      DefaultsHold(lt.fields);
    }
  }

  lemma {:induction false} DefaultHolds(f: Field)
    requires TypeOk(f.ltype)
    ensures FieldHolds(f, Default(f)) && (f.htype.OneOf? ==> !Default(f).present)
    decreases f, 1
  {
    ZeroHolds(f.ltype);
  }

  lemma {:induction false} DefaultsHold(fields: seq<Field>)
    requires DescriptorOk(fields)
    ensures AllHold(fields, Defaults(fields))
    decreases fields, 2
  {
    forall i | 0 <= i < |fields| ensures FieldHolds(fields[i], Defaults(fields)[i]) {
      DefaultHolds(fields[i]);
    }
  }

  lemma {:induction false} UnZigZagKept(n: nat, size: nat)
    requires n < TWO64 && size in {1, 2, 4, 8} && Signed(UnZigZag(n), size) == UnZigZag(n)
    ensures InSigned(UnZigZag(n), size)
  {
    SignedInRange(UnZigZag(n), size);
  }

  lemma {:induction false} SignedInRange(x: int, size: nat)
    requires size in {1, 2, 4, 8}
    ensures InSigned(Signed(x, size), size)
  {
  }

  lemma {:induction false} VarintBelow(s: Bytes)
    ensures DecodeVarint(s).Some? ==> DecodeVarint(s).value.0 < TWO64
  {
  }

  lemma {:induction false} FixedBelow(s: Bytes, n: nat)
    requires |s| == n
    ensures DecodeFixed(s) < Pow256(n)
    decreases n
  {
    if n > 0 {
      FixedBelow(s[1..], n - 1);
    }
  }

  lemma {:induction false} IntHolds(lt: LType, s: Bytes)
    requires TypeOk(lt) && DecInt(lt, s).Some?
    ensures Holds(lt, DecInt(lt, s).value.0)
  {
    VarintBelow(s);
    match lt {
      case SIntType(n) =>
        SignedInRange(Signed(DecodeVarint(s).value.0, if n == 8 then 8 else 4), n);
      case ZigZagType(n) =>
        UnZigZagKept(DecodeVarint(s).value.0, n);
      case Fixed32Type =>
        FixedBelow(s[..4], 4);
        assert Pow256(4) == TWO32;
      case Fixed64Type =>
        FixedBelow(s[..8], 8);
        Pow256Eight();
      case _ =>
    }
  }

  lemma {:induction false} CStringHolds(b: Bytes)
    ensures |CString(b)| <= |b| && 0 !in CString(b)
  {
    if b != [] && b[0] != 0 {
      CStringHolds(b[1..]);
    }
  }

  lemma {:induction false} ValueHolds(lt: LType, prior: Value, s: Bytes)
    requires TypeOk(lt) && Holds(lt, prior) && DecValue(lt, prior, s).Some?
    ensures Holds(lt, DecValue(lt, prior, s).value.0)
    decreases lt, 0
  {
    match lt {
      case BytesType(_) =>
      case FixedBytesType(_) =>
      case StringType(_) =>
        CStringHolds(Substream(s).value.0);
      case SubType(fields) =>
        LoopHolds(fields, prior.cs, Substream(s).value.0);
      case _ =>
        IntHolds(lt, s);
    }
  }

  lemma {:induction false} PackedHolds(lt: LType, items: seq<Value>, max: nat, b: Bytes)
    requires TypeOk(lt) && |items| <= max && (forall i | 0 <= i < |items| :: Holds(lt, items[i])) && DecPacked(lt, items, max, b).Some?
    ensures var r := DecPacked(lt, items, max, b).value; |r| <= max && forall i | 0 <= i < |r| :: Holds(lt, r[i])
    decreases lt, 1, |b|
  {
    if b != [] {
      ZeroHolds(lt);
      ValueHolds(lt, ZeroOf(lt), b);
      var (v, rest) := DecValue(lt, ZeroOf(lt), b).value;
      PackedHolds(lt, items + [v], max, rest);
    }
  }

  lemma {:induction false} FieldKept(f: Field, c: Content, wireType: nat, s: Bytes)
    requires TypeOk(f.ltype) && FieldWithin(f, c) && DecField(f, c, wireType, s).Some?
    ensures FieldWithin(f, DecField(f, c, wireType, s).value.0)
    decreases f, 2
  {
    ZeroHolds(f.ltype);
    if f.htype.Repeated? {
      if wireType == WT_STRING && Packable(f.ltype) {
        PackedHolds(f.ltype, c.items, f.htype.max, Substream(s).value.0);
      } else {
        ValueHolds(f.ltype, ZeroOf(f.ltype), s);
      }
    } else {
      ValueHolds(f.ltype, Prior(f, c), s);
    }
  }

  /** Storing one field; a member of a union unsets the others. */
  lemma {:induction false} StoredHolds(fields: seq<Field>, k: nat, st: Progress, c: Content)
    requires DescriptorOk(fields) && Decoding(fields, st) && k < |fields| && FieldWithin(fields[k], c)
    requires fields[k].htype.Repeated? && !fields[k].htype.counted ==> st.fixed == Some(k)
    ensures Decoding(fields, Stored(fields, k, st, c))
  {
    var r := Replace(fields, k, st.cs, c);
    forall i | 0 <= i < |fields|
      ensures FieldWithin(fields[i], r[i]) && (st.fixed != Some(i) ==> FieldHolds(fields[i], r[i]))
      ensures i != k && fields[k].htype.OneOf? && fields[i].htype == fields[k].htype ==> r[i].Single? && !r[i].present
    {
      DefaultHolds(fields[i]);
    }
    assert forall i | 0 <= i < |fields| && i != k && !(fields[k].htype.OneOf? && fields[i].htype == fields[k].htype) :: r[i] == st.cs[i];
  }

  /** An array without a count is begun only when the one before it is full. */
  lemma {:induction false} BegunHolds(fields: seq<Field>, k: nat, st: Progress)
    requires DescriptorOk(fields) && Decoding(fields, st) && k < |fields| && BeginFixed(fields, k, st).Some?
    ensures var st' := BeginFixed(fields, k, st).value;
            Decoding(fields, st') && (fields[k].htype.Repeated? && !fields[k].htype.counted ==> st'.fixed == Some(k))
  {
    var st' := BeginFixed(fields, k, st).value;
    assert forall i | 0 <= i < |fields| && i != k :: st'.cs[i] == st.cs[i];
    assert fields[k].htype.Repeated? ==> st'.cs[k].Many?;
    forall i | 0 <= i < |fields| ensures FieldWithin(fields[i], st'.cs[i]) && (st'.fixed != Some(i) ==> FieldHolds(fields[i], st'.cs[i])) {
    }
  }

  lemma {:induction false} WalkHolds(fields: seq<Field>, st: Progress, s: Bytes)
    requires DescriptorOk(fields) && Decoding(fields, st) && Walk(fields, st, s).Some?
    ensures Decoding(fields, Walk(fields, st, s).value)
    decreases fields, 3, |s|
  {
    if s != [] && DecodeVarint32(s).value.0 != 0 {
      var (key, rest) := DecodeVarint32(s).value;
      var k := Find(fields, key / 8);
      if k == |fields| {
        WalkHolds(fields, PassedOver(fields, key, st), PassOver(fields, key, rest).value);
      } else {
        BegunHolds(fields, k, st);
        var st' := BeginFixed(fields, k, st).value;
        FieldKept(fields[k], st'.cs[k], key % 8, rest);
        var (c, rest') := DecField(fields[k], st'.cs[k], key % 8, rest).value;
        StoredHolds(fields, k, st', c);
        WalkHolds(fields, Stored(fields, k, st', c), rest');
      }
    }
  }

  lemma {:induction false} LoopHolds(fields: seq<Field>, cs: seq<Content>, s: Bytes)
    requires DescriptorOk(fields) && AllHold(fields, cs) && DecLoop(fields, Progress(cs, {}, None), s).Some?
    ensures AllHold(fields, DecLoop(fields, Progress(cs, {}, None), s).value)
    decreases fields, 4
  {
    WalkHolds(fields, Progress(cs, {}, None), s);
  }

  /** Whatever bytes come in: what pb_decode accepts is a message within the bounds of its descriptor, at
      every level - numbers in range, byte strings and strings no longer than their arrays, strings with
      their terminator, arrays with at most as many items as there is room for, those without a count full,
      and of each union at most one member. */
  lemma {:induction false} DecodedFits(fields: seq<Field>, s: Bytes)
    requires DescriptorOk(fields) && Decode(fields, s).Some?
    ensures AllHold(fields, Decode(fields, s).value)
  {
    DefaultsHold(fields);
    LoopHolds(fields, Defaults(fields), s);
  }

  // ---------- what is refused ----------

  /** A signed field takes exactly the number in its range that agrees with the varint in all 64 bits, or,
      in a field of up to four bytes, in the lower 32. */
  lemma {:induction false} SignedTaken(value: nat, bytes: nat, v: int)
    requires value < TWO64 && bytes in {1, 2, 4, 8}
    ensures ToSigned(value, bytes) == Some(v)
            <==> InSigned(v, bytes) && (value - v) % (if bytes == 8 then TWO64 else TWO32) == 0
  {
    var width := if bytes == 8 then 8 else 4;
    var svalue := Signed(value, width);
    SignedInRange(svalue, bytes);
    SignedAgrees(value, width);
    if InSigned(svalue, bytes) {
      SignedKeeps(svalue, bytes);
    }
    if InSigned(v, bytes) {
      AgreeEqual(v, svalue, value, width);
    }
  }

  lemma {:induction false} SignedAgrees(value: nat, width: nat)
    requires width in {4, 8}
    ensures InSigned(Signed(value, width), width) && (value - Signed(value, width)) % (if width == 8 then TWO64 else TWO32) == 0
  {
    SignedInRange(value, width);
  }

  /** Two numbers within half the modulus that agree are the same. */
  lemma {:induction false} AgreeEqual(v: int, w: int, value: nat, width: nat)
    requires width in {4, 8} && InSigned(v, width) && InSigned(w, width)
    requires (value - w) % (if width == 8 then TWO64 else TWO32) == 0
    ensures (value - v) % (if width == 8 then TWO64 else TWO32) == 0 ==> v == w
  {
  }

  /** Of any varint, each type of integer field takes the number if it is in range and refuses it if not. */
  lemma {:induction false} IntTakenExactlyWhen(lt: LType, n: nat, rest: Bytes)
    requires TypeOk(lt) && n < TWO64
    ensures lt.UIntType? ==> DecInt(lt, Varint(n) + rest) == if TypedInt(lt, n) then Some((Int(n), rest)) else None
    ensures lt.ZigZagType? ==>
              var v := if n % 2 == 0 then n / 2 else -(n + 1) / 2;
              DecInt(lt, Varint(n) + rest) == if TypedInt(lt, v) then Some((Int(v), rest)) else None
    ensures lt.SIntType? ==>
              forall v :: DecInt(lt, Varint(n) + rest) == Some((Int(v), rest))
                <==> TypedInt(lt, v) && (n - v) % (if lt.size == 8 then TWO64 else TWO32) == 0
  {
    ReadsVarint(n, rest);
    if lt.ZigZagType? {
      ZigZagTaken(n, lt.size);
    }
    if lt.SIntType? {
      forall v ensures ToSigned(n, lt.size) == Some(v) <==> InSigned(v, lt.size) && (n - v) % (if lt.size == 8 then TWO64 else TWO32) == 0 {
        SignedTaken(n, lt.size, v);
      }
    }
  }

  lemma {:induction false} ZigZagTaken(n: nat, size: nat)
    requires size in {1, 2, 4, 8} && n < TWO64
    ensures UnZigZag(n) == if n % 2 == 0 then n / 2 else -(n + 1) / 2
    ensures Signed(UnZigZag(n), size) == UnZigZag(n) <==> InSigned(UnZigZag(n), size)
  {
    SignedInRange(UnZigZag(n), size);
    if InSigned(UnZigZag(n), size) {
      SignedKeeps(UnZigZag(n), size);
    }
  }

  /** Of any bytes behind their length, each type takes those that fit and refuses the others; a string
      ends at its first zero byte, and no bytes at all stand for all zeros. */
  lemma {:induction false} RawTakenExactlyWhen(lt: LType, prior: Value, b: Bytes, rest: Bytes)
    requires |b| < TWO32 && (lt.BytesType? || lt.StringType? || lt.FixedBytesType?)
    ensures match DecValue(lt, prior, LengthPrefixed(b) + rest)
            case None => if lt.BytesType? then |b| > lt.max else if lt.StringType? then |b| >= lt.size else b != [] && |b| != lt.size
            case Some((v, after)) =>
              && after == rest && v.Raw?
              && (lt.BytesType? ==> |b| <= lt.max && v.b == b)
              && (lt.StringType? ==> |b| < lt.size && v.b <= b && 0 !in v.b && (|v.b| < |b| ==> b[|v.b|] == 0))
              && (lt.FixedBytesType? ==> |v.b| == lt.size && if b == [] then forall i | 0 <= i < lt.size :: v.b[i] == 0 else v.b == b)
  {
    ReadsSubstream(b, rest);
    if lt.StringType? {
      CStringEnds(b);
    }
  }

  lemma {:induction false} CStringEnds(b: Bytes)
    ensures CString(b) <= b && 0 !in CString(b) && (|CString(b)| < |b| ==> b[|CString(b)|] == 0)
  {
    if b != [] && b[0] != 0 {
      CStringEnds(b[1..]);
    }
  }

  // ---------- numbers too large for the 32-bit reader ----------

  /** `n` groups of seven bits that are all zeros or all ones, and a one on top. */
  predicate SignLike(w: nat, n: nat) {
    if n == 0 then w == 1 else w % 128 in {0, 127} && SignLike(w / 128, n - 1)
  }

  /** The bytes from the bit position `63 - 7 * n` on, when there are bits left. */
  lemma {:induction false} HighRest(w: nat, rest: Bytes, result: nat, n: nat)
    requires n <= 4 && 0 < w && (n == 0 ==> w < 2) && (n == 1 ==> w < 0x100) && (n == 2 ==> w < 0x8000) && (n == 3 ==> w < 0x40_0000)
    requires n == 4 ==> w < 0x2000_0000
    ensures Varint32Rest(Varint(w) + rest, result, 63 - 7 * n)
            == if result / 0x8000_0000 != 0 && SignLike(w, n) then Some((result, rest)) else None
    decreases n
  {
    if w < 128 {
      assert (Varint(w) + rest)[1..] == rest;
      if n > 0 {
        SmallNotSign(w, n);
      }
    } else {
      HeadAndTail(w, rest);
      HighRest(w / 128, rest, result, n - 1);
    }
  }

  lemma {:induction false} SmallNotSign(w: nat, n: nat)
    requires n > 0 && w < 128
    ensures !SignLike(w, n)
    decreases n
  {
    if n > 1 {
      SmallNotSign(w / 128, n - 1);
    }
  }

  lemma {:induction false} Continues(s: Bytes, result: nat, bitpos: nat)
    requires s != [] && s[0] >= 128 && bitpos in {7, 14, 21} && result + Placed(s[0] % 128, bitpos) < TWO32
    ensures Varint32Rest(s, result, bitpos) == Varint32Rest(s[1..], result + Placed(s[0] % 128, bitpos), bitpos + 7)
  {
  }

  /** A byte of the lowest 28 bits, when there are more. */
  lemma {:induction false} LowByte(w: nat, rest: Bytes, result: nat, bitpos: nat)
    requires w >= 128 && bitpos in {7, 14, 21} && result + Placed(w % 128, bitpos) < TWO32
    ensures Varint32Rest(Varint(w) + rest, result, bitpos)
            == Varint32Rest(Varint(w / 128) + rest, result + Placed(w % 128, bitpos), bitpos + 7)
  {
    HeadAndTail(w, rest);
    Continues(Varint(w) + rest, result, bitpos);
  }

  /** The first four groups of seven bits. */
  lemma {:induction false} Groups(v: nat, a: nat, b: nat, c: nat, w: nat)
    requires a == v / 128 && b == a / 128 && c == b / 128 && w == c / 128
    ensures w == v / 0x1000_0000
    ensures v % 128 + a % 128 * 0x80 + b % 128 * 0x4000 + c % 128 * 0x20_0000 == v % 0x1000_0000
  {
    assert v == v % 128 + a % 128 * 0x80 + b % 128 * 0x4000 + c % 128 * 0x20_0000 + w * 0x1000_0000;
  }

  /** The first four bytes of a number that has more. */
  lemma {:induction false} FourBytes(v: nat, rest: Bytes)
    requires TWO32 <= v < TWO64
    ensures DecodeVarint32(Varint(v) + rest) == Varint32Rest(Varint(v / 0x1000_0000) + rest, v % 0x1000_0000, 28)
  {
    var a, b, c, w := v / 128, v / 128 / 128, v / 128 / 128 / 128, v / 128 / 128 / 128 / 128;
    Groups(v, a, b, c, w);
    HeadAndTail(v, rest);
    LowByte(a, rest, v % 128, 7);
    LowByte(b, rest, v % 128 + a % 128 * 0x80, 14);
    LowByte(c, rest, v % 128 + a % 128 * 0x80 + b % 128 * 0x4000, 21);
  }

  lemma {:induction false} BitsAbove(v: nat, w: nat, r: nat, q: nat)
    requires w == v / 0x1000_0000 && r == v % 0x1000_0000 && q == w / 16
    ensures r + w % 16 * 0x1000_0000 == v % TWO32
  {
    assert v == r + w % 16 * 0x1000_0000 + q * TWO32;
  }

  lemma {:induction false} TopBit(v: nat)
    ensures (v % TWO32) / 0x8000_0000 == v / 0x8000_0000 % 2
  {
    var q, m := v / TWO32, v % TWO32;
    assert v == q * TWO32 + m;
    assert m < 0x8000_0000 ==> v / 0x8000_0000 == 2 * q;
    assert m >= 0x8000_0000 ==> v / 0x8000_0000 == 2 * q + 1;
  }

  /** The 32-bit reader takes a number beyond 32 bits only if it looks like the sign extension of a negative
      one: bit 31 and the top bit are set, and each group of seven bits between is all ones or all zeros.
      Bits 32 to 34 are not looked at. */
  lemma {:induction false} LargeTakenExactlyWhen(v: nat, rest: Bytes)
    requires TWO32 <= v < TWO64
    ensures DecodeVarint32(Varint(v) + rest)
            == if v / 0x8000_0000 % 2 == 1 && SignLike(v / 0x8_0000_0000, 4) then Some((v % TWO32, rest)) else None
  {
    FourBytes(v, rest);
    var w, r := v / 0x1000_0000, v % 0x1000_0000;
    BitsAbove(v, w, r, w / 16);
    TopBit(v);
    assert w / 128 == v / 0x8_0000_0000;
    FifthByte(w, rest, r);
    if w < 128 {
      var four: nat := 4;
      SmallNotSign(v / 0x8_0000_0000, four);
    }
  }

  lemma {:induction false} FifthByte(w: nat, rest: Bytes, result: nat)
    requires 16 <= w < 0x10_0000_0000 && result < 0x1000_0000
    ensures Varint32Rest(Varint(w) + rest, result, 28)
            == if w < 128 then None
               else if (result + w % 16 * 0x1000_0000) / 0x8000_0000 != 0 && SignLike(w / 128, 4)
               then Some((result + w % 16 * 0x1000_0000, rest)) else None
  {
    var grown := result + w % 16 * 0x1000_0000;
    assert (result + w % 128 * 0x1000_0000) % TWO32 == grown;
    if w < 128 {
      assert w / 16 % 8 != 0;
    } else {
      HeadAndTail(w, rest);
      var four: nat := 4;
      HighRest(w / 128, rest, grown, four);
    }
  }
}
