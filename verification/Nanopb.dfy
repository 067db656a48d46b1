/** nanopb messages: descriptors, what the encoder writes and what the decoder makes of it
    (pb_encode.c, pb_decode.c). A message is the list of the contents of its fields, in place of the
    C structure at the offsets of the descriptor. */
module Nanopb {
  import opened Dbformat
  import opened Coding
  import opened NanopbWire

  /** PB_LTYPE: how a single value is stored and encoded. `size` is the data_size of the descriptor. */
  datatype LType =
    | BoolType | SIntType(size: nat) | UIntType(size: nat) | ZigZagType(size: nat) | Fixed32Type | Fixed64Type
    | BytesType(max: nat) | StringType(size: nat) | FixedBytesType(size: nat) | SubType(fields: seq<Field>)

  /** PB_HTYPE: an optional field without a has-flag is a proto3 field; a repeated one without a count
      always has `max` items; fields of one `group` share a union. */
  datatype HType = Required | Optional(hasFlag: bool) | Repeated(max: nat, counted: bool) | OneOf(group: nat)

  datatype Field = Field(tag: nat, htype: HType, ltype: LType)

  datatype Value = Int(v: int) | Raw(b: Bytes) | Msg(cs: seq<Content>)

  datatype Content = Single(present: bool, value: Value) | Many(items: seq<Value>)

  const MAX_REQUIRED_FIELDS: nat := 64

  // ---------- encoding ----------

  function WireType(lt: LType): nat {
    match lt
    case Fixed32Type => WT_32BIT
    case Fixed64Type => WT_64BIT
    case BytesType(_) => WT_STRING
    case StringType(_) => WT_STRING
    case FixedBytesType(_) => WT_STRING
    case SubType(_) => WT_STRING
    case _ => WT_VARINT
  }

  /** PB_LTYPE_LAST_PACKABLE. */
  predicate Packable(lt: LType) {
    WireType(lt) != WT_STRING
  }

  function Key(tag: nat, wireType: nat): Bytes {
    Varint(tag * 8 + wireType)
  }

  function EncInt(lt: LType, v: int): Bytes {
    match lt
    case BoolType => Varint(if v != 0 then 1 else 0)
    case ZigZagType(_) => Varint(ZigZag(v) % TWO64)
    case Fixed32Type => Fixed(v % TWO32, 4)
    case Fixed64Type => Fixed(v % TWO64, 8)
    case _ => Varint(v % TWO64)
  }

  function EncValue(lt: LType, v: Value): Bytes
    decreases lt, 0
  {
    match v
    case Int(n) => EncInt(lt, n)
    case Raw(b) => LengthPrefixed(b)
    case Msg(cs) => if lt.SubType? then LengthPrefixed(EncFrom(lt.fields, cs, 0)) else []
  }

  function EncItems(lt: LType, items: seq<Value>): Bytes
    decreases lt, 1, |items|
  {
    if items == [] then [] else EncValue(lt, items[0]) + EncItems(lt, items[1..])
  }

  function EncUnpacked(f: Field, items: seq<Value>): Bytes
    decreases f, 1, |items|
  {
    if items == [] then []
    else (Key(f.tag, WireType(f.ltype)) + EncValue(f.ltype, items[0])) + EncUnpacked(f, items[1..])
  }

  /** pb_check_proto3_default_value for a single value. */
  predicate Zero(lt: LType, v: Value)
    decreases lt, 0
  {
    match v
    case Int(n) => n == 0
    case Raw(b) => if lt.FixedBytesType? then lt.size == 0 else b == []
    case Msg(cs) =>
      lt.SubType? ==> forall i | 0 <= i < |lt.fields| && i < |cs| :: ZeroField(lt.fields[i], cs[i])
  }

  predicate ZeroField(f: Field, c: Content)
    decreases f, 1
  {
    match f.htype
    case Required => false
    case Repeated(_, counted) => counted && c.Many? && c.items == []
    case OneOf(_) => c.Single? && !c.present
    case Optional(hasFlag) => c.Single? && (if hasFlag then !c.present else Zero(f.ltype, c.value))
  }

  /** Whether a field that is not repeated is written. */
  predicate Written(f: Field, c: Content) {
    c.Single? && match f.htype
      case Required => true
      case Optional(hasFlag) => if hasFlag then c.present else !Zero(f.ltype, c.value)
      case OneOf(_) => c.present
      case Repeated(_, _) => false
  }

  /** encode_basic_field. */
  function EncField(f: Field, c: Content): Bytes
    decreases f, 2
  {
    match c
    case Single(_, value) => if Written(f, c) then Key(f.tag, WireType(f.ltype)) + EncValue(f.ltype, value) else []
    case Many(items) =>
      if items == [] then []
      else if Packable(f.ltype) then Key(f.tag, WT_STRING) + LengthPrefixed(EncItems(f.ltype, items))
      else EncUnpacked(f, items)
  }

  /** pb_encode, from field `k` on. */
  function EncFrom(fields: seq<Field>, cs: seq<Content>, k: nat): Bytes
    decreases fields, 3, |fields| - k
  {
    if k >= |fields| || k >= |cs| then [] else EncField(fields[k], cs[k]) + EncFrom(fields, cs, k + 1)
  }

  // ---------- what a message in memory looks like ----------

  predicate TypedInt(lt: LType, v: int) {
    match lt
    case BoolType => v in {0, 1}
    case SIntType(n) => n in {1, 2, 4, 8} && InSigned(v, n)
    case UIntType(n) => n in {1, 2, 4, 8} && 0 <= v < 2 * Half(n)
    case ZigZagType(n) => n in {1, 2, 4, 8} && InSigned(v, n)
    case Fixed32Type => 0 <= v < TWO32
    case Fixed64Type => 0 <= v < TWO64
    case _ => false
  }

  /** Values of the type, within the bounds of the descriptor; a string ends in a zero byte. */
  predicate InBounds(lt: LType, v: Value)
    decreases lt, 0
  {
    match v
    case Int(n) => TypedInt(lt, n)
    case Raw(b) =>
      (match lt
       case BytesType(max) => |b| <= max < TWO32
       case StringType(size) => |b| < size < TWO32 && 0 !in b
       case FixedBytesType(size) => |b| == size < TWO32
       case _ => false)
    case Msg(cs) =>
      && lt.SubType? && |cs| == |lt.fields| && |EncFrom(lt.fields, cs, 0)| < TWO32 && GroupsOk(lt.fields, cs) && TagsOk(lt.fields)
      && forall i | 0 <= i < |cs| :: FieldInBounds(lt.fields[i], cs[i])
  }

  predicate FieldInBounds(f: Field, c: Content)
    decreases f, 1
  {
    match f.htype
    case Repeated(max, counted) =>
      && c.Many? && |c.items| <= max && (!counted ==> |c.items| == max)
      && (Packable(f.ltype) ==> |EncItems(f.ltype, c.items)| < TWO32)
      && forall i | 0 <= i < |c.items| :: InBounds(f.ltype, c.items[i])
    case Optional(hasFlag) => c.Single? && InBounds(f.ltype, c.value) && (hasFlag || c.present)
    case Required => c.Single? && InBounds(f.ltype, c.value) && c.present
    case OneOf(_) => c.Single? && InBounds(f.ltype, c.value)
  }

  /** At most one member of each union is there. */
  predicate GroupsOk(fields: seq<Field>, cs: seq<Content>) {
    forall i, j | 0 <= i < j < |fields| && j < |cs| ::
      fields[i].htype.OneOf? && fields[i].htype == fields[j].htype && cs[i].Single? && cs[j].Single? && cs[i].present ==> !cs[j].present
  }

  predicate TagsOk(fields: seq<Field>) {
    && (forall i | 0 <= i < |fields| :: 0 < fields[i].tag < 0x2000_0000)
    && forall i, j | 0 <= i < j < |fields| :: fields[i].tag != fields[j].tag
  }

  // ---------- defaults ----------

  function ZeroOf(lt: LType): Value
    decreases lt, 0
  {
    match lt
    case BytesType(_) => Raw([])
    case StringType(_) => Raw([])
    case FixedBytesType(n) => Raw(seq(n, _ => 0))
    case SubType(fields) => Msg(Defaults(fields))
    case _ => Int(0)
  }

  /** pb_field_set_to_default; fields have no defaults of their own. */
  function Default(f: Field): Content
    decreases f, 1
  {
    match f.htype
    case Required => Single(true, ZeroOf(f.ltype))
    case Optional(hasFlag) => Single(!hasFlag, ZeroOf(f.ltype))
    case OneOf(_) => Single(false, ZeroOf(f.ltype))
    case Repeated(max, counted) => Many(if counted then [] else seq(max, _ => ZeroOf(f.ltype)))
  }

  function Defaults(fields: seq<Field>): (r: seq<Content>)
    ensures |r| == |fields|
    decreases fields, 2
  {
    seq(|fields|, i requires 0 <= i < |fields| => Default(fields[i]))
  }

  /** The message as the wire shows it: what is not written is at its default. */
  function Normal(lt: LType, v: Value): Value
    decreases lt, 0
  {
    match v
    case Msg(cs) => if lt.SubType? && |cs| == |lt.fields| then Msg(NormalAll(lt.fields, cs)) else v
    case _ => v
  }

  function NormalField(f: Field, c: Content): Content
    decreases f, 1
  {
    match c
    case Single(present, value) =>
      if present then Single(true, Normal(f.ltype, value)) else Single(false, ZeroOf(f.ltype))
    case Many(items) => Many(NormalItems(f.ltype, items))
  }

  function NormalItems(lt: LType, items: seq<Value>): (r: seq<Value>)
    ensures |r| == |items|
    decreases lt, 1
  {
    seq(|items|, i requires 0 <= i < |items| => Normal(lt, items[i]))
  }

  function NormalAll(fields: seq<Field>, cs: seq<Content>): (r: seq<Content>)
    requires |cs| == |fields|
    ensures |r| == |fields|
    decreases fields, 2
  {
    seq(|fields|, i requires 0 <= i < |fields| => NormalField(fields[i], cs[i]))
  }

  // ---------- decoding ----------

  /** Where decoding a message has got to: `seen` holds the indices of required fields, `fixed` the
      array without a count that is being filled. */
  datatype Progress = Progress(cs: seq<Content>, seen: set<nat>, fixed: Option<nat>)

  function CString(b: Bytes): Bytes {
    if b == [] || b[0] == 0 then [] else [b[0]] + CString(b[1..])
  }

  function DecInt(lt: LType, s: Bytes): (r: Option<(Value, Bytes)>)
    ensures r.Some? ==> |r.value.1| < |s|
  {
    match lt
    case BoolType =>
      (match DecodeVarint32(s) case None => None case Some((n, rest)) => Some((Int(if n != 0 then 1 else 0), rest)))
    case SIntType(size) =>
      (match DecodeVarint(s)
       case None => None
       case Some((n, rest)) => match ToSigned(n, size) case None => None case Some(v) => Some((Int(v), rest)))
    case UIntType(size) =>
      (match DecodeVarint(s)
       case None => None
       case Some((n, rest)) => if n < 2 * Half(size) then Some((Int(n), rest)) else None)
    case ZigZagType(size) =>
      (match DecodeVarint(s)
       case None => None
       case Some((n, rest)) => if Signed(UnZigZag(n), size) == UnZigZag(n) then Some((Int(UnZigZag(n)), rest)) else None)
    case Fixed32Type => if |s| < 4 then None else Some((Int(DecodeFixed(s[..4])), s[4..]))
    case Fixed64Type => if |s| < 8 then None else Some((Int(DecodeFixed(s[..8])), s[8..]))
    case _ => None
  }

  /** pb_make_string_substream: the bytes of the substream and what follows it. */
  function Substream(s: Bytes): (r: Option<(Bytes, Bytes)>)
    ensures r.Some? ==> |r.value.0| < |s| && |r.value.1| < |s|
  {
    match DecodeVarint32(s)
    case None => None
    case Some((size, rest)) => if |rest| < size then None else Some((rest[..size], rest[size..]))
  }

  /** The decoder of one value into a place that holds `prior`; the wire type is not looked at. */
  function DecValue(lt: LType, prior: Value, s: Bytes): (r: Option<(Value, Bytes)>)
    ensures r.Some? ==> |r.value.1| < |s|
    decreases lt, 0
  {
    match lt
    case BytesType(max) =>
      (match Substream(s) case None => None case Some((b, rest)) => if |b| > max then None else Some((Raw(b), rest)))
    case StringType(size) =>
      (match Substream(s) case None => None case Some((b, rest)) => if |b| + 1 > size then None else Some((Raw(CString(b)), rest)))
    case FixedBytesType(size) =>
      (match Substream(s)
       case None => None
       case Some((b, rest)) =>
         if b == [] then Some((Raw(seq(size, _ => 0)), rest)) else if |b| != size then None else Some((Raw(b), rest)))
    case SubType(fields) =>
      (match Substream(s)
       case None => None
       case Some((b, rest)) =>
         if !prior.Msg? || |prior.cs| != |fields| then None
         else
           match DecLoop(fields, Progress(prior.cs, {}, None), b)
           case None => None
           case Some(cs) => Some((Msg(cs), rest)))
    case _ => DecInt(lt, s)
  }

  /** The items of a packed array; all of the substream must be used. */
  function DecPacked(lt: LType, items: seq<Value>, max: nat, b: Bytes): Option<seq<Value>>
    decreases lt, 1, |b|
  {
    if b == [] then Some(items)
    else if |items| >= max then None
    else
      match DecValue(lt, ZeroOf(lt), b)
      case None => None
      case Some((v, rest)) => DecPacked(lt, items + [v], max, rest)
  }

  /** What a single value is decoded into: a member of a union that was not there starts from zero. */
  function Prior(f: Field, c: Content): Value
    requires c.Single?
  {
    if f.htype.OneOf? && !c.present then ZeroOf(f.ltype) else c.value
  }

  /** decode_static_field. */
  function DecField(f: Field, c: Content, wireType: nat, s: Bytes): (r: Option<(Content, Bytes)>)
    ensures r.Some? ==> |r.value.1| < |s|
    decreases f, 2
  {
    match f.htype
    case Repeated(max, _) =>
      if !c.Many? then None
      else if wireType == WT_STRING && Packable(f.ltype) then
        (match Substream(s)
         case None => None
         case Some((b, rest)) =>
           match DecPacked(f.ltype, c.items, max, b)
           case None => None
           case Some(items) => Some((Many(items), rest)))
      else if |c.items| >= max then None
      else
        (match DecValue(f.ltype, ZeroOf(f.ltype), s)
         case None => None
         case Some((v, rest)) => Some((Many(c.items + [v]), rest)))
    case _ =>
      if !c.Single? then None
      else
        (match DecValue(f.ltype, Prior(f, c), s)
         case None => None
         case Some((v, rest)) => Some((Single(true, v), rest)))
  }

  /** pb_field_iter_find: the field with the tag. */
  function Find(fields: seq<Field>, tag: nat): (k: nat)
    ensures k <= |fields| && (k < |fields| ==> fields[k].tag == tag)
    ensures forall i | 0 <= i < k :: fields[i].tag != tag
  {
    if fields == [] || fields[0].tag == tag then 0 else 1 + Find(fields[1..], tag)
  }

  function RequiredBefore(fields: seq<Field>, k: nat): nat
    requires k <= |fields|
  {
    if k == 0 then 0 else RequiredBefore(fields, k - 1) + if fields[k - 1].htype.Required? then 1 else 0
  }

  predicate Filled(fields: seq<Field>, st: Progress) {
    st.fixed.Some? ==>
      && st.fixed.value < |fields| && st.fixed.value < |st.cs| && fields[st.fixed.value].htype.Repeated?
      && st.cs[st.fixed.value].Many? && |st.cs[st.fixed.value].items| == fields[st.fixed.value].htype.max
  }

  /** A new array without a count starts from its first item, once the previous one is full. */
  function BeginFixed(fields: seq<Field>, k: nat, st: Progress): Option<Progress>
    requires k < |fields| && |st.cs| == |fields|
  {
    if fields[k].htype.Repeated? && !fields[k].htype.counted && st.fixed != Some(k) then
      if Filled(fields, st) then Some(Progress(st.cs[k := Many([])], st.seen, Some(k))) else None
    else Some(st)
  }

  /** Setting the member of a union takes the place of the others. */
  function Replace(fields: seq<Field>, k: nat, cs: seq<Content>, c: Content): (r: seq<Content>)
    requires k < |fields| && |cs| == |fields|
    ensures |r| == |fields|
  {
    seq(|fields|, i requires 0 <= i < |fields| =>
      if i == k then c
      else if fields[k].htype.OneOf? && fields[i].htype == fields[k].htype then Default(fields[i])
      else cs[i])
  }

  /** A key that no field has: skipped by its wire type. In a descriptor without fields the entry that
      ends it has tag 0 and reads as a boolean. */
  function PassOver(fields: seq<Field>, key: nat, s: Bytes): (r: Option<Bytes>)
    ensures r.Some? ==> |r.value| <= |s|
  {
    if fields == [] && key / 8 == 0 then (match DecodeVarint32(s) case None => None case Some((_, rest)) => Some(rest))
    else SkipField(s, key % 8)
  }

  function PassedOver(fields: seq<Field>, key: nat, st: Progress): (r: Progress)
    ensures r.cs == st.cs && r.fixed == st.fixed
  {
    if fields == [] && key / 8 == 0 then st.(seen := st.seen + {0}) else st
  }

  /** The loop of pb_decode_noinit over the fields of the input. */
  function Walk(fields: seq<Field>, st: Progress, s: Bytes): (r: Option<Progress>)
    requires |st.cs| == |fields|
    ensures r.Some? ==> |r.value.cs| == |fields|
    decreases fields, 3, |s|
  {
    if s == [] then Some(st)
    else
      match DecodeVarint32(s)
      case None => None
      case Some((key, rest)) =>
        if key == 0 then Some(st)
        else
          var k := Find(fields, key / 8);
          if k == |fields| then
            match PassOver(fields, key, rest)
            case None => None
            case Some(rest') => Walk(fields, PassedOver(fields, key, st), rest')
          else
            match BeginFixed(fields, k, st)
            case None => None
            case Some(st') =>
              match DecField(fields[k], st'.cs[k], key % 8, rest)
              case None => None
              case Some((c, rest')) => Walk(fields, Stored(fields, k, st', c), rest')
  }

  /** pb_decode_noinit: the loop and the checks after it. */
  function DecLoop(fields: seq<Field>, st: Progress, s: Bytes): (r: Option<seq<Content>>)
    requires |st.cs| == |fields|
    ensures r.Some? ==> |r.value| == |fields|
    decreases fields, 4
  {
    match Walk(fields, st, s) case None => None case Some(end) => Finish(fields, end)
  }

  function Stored(fields: seq<Field>, k: nat, st: Progress, c: Content): (r: Progress)
    requires k < |fields| && |st.cs| == |fields|
    ensures |r.cs| == |fields|
  {
    Progress(Replace(fields, k, st.cs, c), Seen(fields, k, st.seen), st.fixed)
  }

  /** Only the first 64 required fields have a bit. */
  function Seen(fields: seq<Field>, k: nat, seen: set<nat>): set<nat>
    requires k < |fields|
  {
    if fields[k].htype.Required? && RequiredBefore(fields, k) < MAX_REQUIRED_FIELDS then seen + {RequiredBefore(fields, k)} else seen
  }

  function Min(a: nat, b: nat): nat {
    if a < b then a else b
  }

  function Finish(fields: seq<Field>, st: Progress): (r: Option<seq<Content>>)
    requires |st.cs| == |fields|
    ensures r.Some? ==> |r.value| == |fields|
  {
    if !Filled(fields, st) then None
    else if forall i | 0 <= i < Min(RequiredBefore(fields, |fields|), MAX_REQUIRED_FIELDS) :: i in st.seen then Some(st.cs)
    else None
  }

  /** pb_decode. */
  function Decode(fields: seq<Field>, s: Bytes): Option<seq<Content>> {
    DecLoop(fields, Progress(Defaults(fields), {}, None), s)
  }

  // ---------- one value ----------

  lemma {:induction false} ReadsInt(lt: LType, v: int, rest: Bytes)
    requires TypedInt(lt, v)
    ensures DecInt(lt, EncInt(lt, v) + rest) == Some((Int(v), rest))
  {
    match lt
    case BoolType => ReadsVarint32(v, rest);
    case SIntType(n) => ReadsSInt(v, n, rest);
    case UIntType(n) => ReadsUInt(v, n, rest);
    case ZigZagType(n) => ReadsZigZag(v, n, rest);
    case Fixed32Type => ReadsFixed32(v, rest);
    case Fixed64Type => ReadsFixed64(v, rest);
  }

  lemma {:induction false} ReadsUInt(v: nat, n: nat, rest: Bytes)
    requires n in {1, 2, 4, 8} && v < 2 * Half(n)
    ensures DecInt(UIntType(n), EncInt(UIntType(n), v) + rest) == Some((Int(v), rest))
  {
    assert v % TWO64 == v;
    ReadsVarint(v, rest);
  }

  lemma {:induction false} ReadsFixed32(v: nat, rest: Bytes)
    requires v < TWO32
    ensures DecInt(Fixed32Type, EncInt(Fixed32Type, v) + rest) == Some((Int(v), rest))
  {
    assert v % TWO32 == v;
    ReadsFixed(v, 4, rest);
  }

  lemma {:induction false} ReadsFixed64(v: nat, rest: Bytes)
    requires v < TWO64
    ensures DecInt(Fixed64Type, EncInt(Fixed64Type, v) + rest) == Some((Int(v), rest))
  {
    assert v % TWO64 == v;
    ReadsFixed(v, 8, rest);
  }

  lemma {:induction false} ReadsSInt(v: int, n: nat, rest: Bytes)
    requires n in {1, 2, 4, 8} && InSigned(v, n)
    ensures DecInt(SIntType(n), Varint(v % TWO64) + rest) == Some((Int(v), rest))
  {
    SignedRoundTrip(v, n);
    Complement(v, n);
    ReadsVarint(Unsigned64(v), rest);
  }

  lemma {:induction false} Complement(v: int, n: nat)
    requires n in {1, 2, 4, 8} && InSigned(v, n)
    ensures v % TWO64 == Unsigned64(v)
  {
  }

  lemma {:induction false} ReadsZigZag(v: int, n: nat, rest: Bytes)
    requires n in {1, 2, 4, 8} && InSigned(v, n)
    ensures DecInt(ZigZagType(n), Varint(ZigZag(v) % TWO64) + rest) == Some((Int(v), rest))
  {
    var z := ZigZag(v);
    ZigZagRoundTrip(v);
    SignedKeeps(v, n);
    assert z % TWO64 == z && UnZigZag(z) == v;
    ReadsVarint(z, rest);
  }

  lemma {:induction false} ReadsFixed(v: nat, n: nat, rest: Bytes)
    requires (n == 4 && v < TWO32) || (n == 8 && v < TWO64)
    ensures DecodeFixed((Fixed(v, n) + rest)[..n]) == v && (Fixed(v, n) + rest)[n..] == rest
  {
    var width: nat := n;
    assert Pow256(4) == TWO32;
    Pow256Eight();
    FixedRoundTrip(v, width);
    assert (Fixed(v, n) + rest)[..n] == Fixed(v, n);
  }

  lemma {:induction false} ReadsSubstream(b: Bytes, rest: Bytes)
    requires |b| < TWO32
    ensures Substream(LengthPrefixed(b) + rest) == Some((b, rest))
  {
    ReadsVarint32(|b|, b + rest);
    assert LengthPrefixed(b) + rest == Varint(|b|) + (b + rest);
    assert (b + rest)[..|b|] == b && (b + rest)[|b|..] == rest;
  }

  lemma {:induction false} NoNul(b: Bytes)
    requires 0 !in b
    ensures CString(b) == b
  {
    if b != [] {
      assert b[0] in b;
      NoNul(b[1..]);
      assert b == [b[0]] + b[1..];
    }
  }

  lemma {:induction false} ReadsRaw(lt: LType, b: Bytes, prior: Value, rest: Bytes)
    requires InBounds(lt, Raw(b))
    ensures DecValue(lt, prior, LengthPrefixed(b) + rest) == Some((Raw(b), rest))
  {
    ReadsSubstream(b, rest);
    if lt.StringType? {
      NoNul(b);
    }
    assert b == [] ==> seq(|b|, _ => 0) == b;
  }

  /** A string that fills its array, without a zero byte at its end, is written but not read back. */
  lemma {:induction false} StringReadsBackExactlyWhen(size: nat, b: Bytes, rest: Bytes)
    requires |b| <= size < TWO32 && 0 !in b
    ensures DecValue(StringType(size), Raw([]), EncValue(StringType(size), Raw(b)) + rest) == Some((Raw(b), rest))
            <==> |b| < size
  {
    ReadsSubstream(b, rest);
    NoNul(b);
  }

  /** One letter in an array of one: written, and refused on reading. */
  lemma {:induction false} FullStringLost()
    ensures DecValue(StringType(1), Raw([]), EncValue(StringType(1), Raw([65])) + []) == None
  {
    ReadsSubstream([65], []);
  }
}
