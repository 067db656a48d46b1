/** The two-pass encoder over output streams (pb_encode.c): a submessage is first sized on a stream
    that writes nothing, then written into a substream of just that size. */
module NanopbEncode {
  import opened Dbformat
  import opened Coding
  import opened NanopbWire
  import opened Nanopb
  import opened NanopbRoundTrip

  /** Done, or the error message. */
  datatype Outcome = Done | StreamFull | BytesSizeExceeded | ArrayMaxExceeded | SizeChanged

  /** The buffer behind a stream and its substreams. */
  class Sink {
    var data: Bytes

    constructor ()
      ensures data == []
    {
      data := [];
    }
  }

  // ---------- what the encoder accepts ----------

  predicate Shaped(lt: LType, v: Value)
    decreases lt, 0
  {
    match v
    case Int(n) => TypedInt(lt, n)
    case Raw(b) => lt.BytesType? || lt.StringType? || lt.FixedBytesType?
    case Msg(cs) =>
      lt.SubType? && |cs| == |lt.fields| && forall i | 0 <= i < |cs| :: ShapedField(lt.fields[i], cs[i])
  }

  predicate ShapedField(f: Field, c: Content)
    decreases f, 1
  {
    f.tag < TWO32 &&
    match c
    case Single(_, value) => !f.htype.Repeated? && Shaped(f.ltype, value)
    case Many(items) => f.htype.Repeated? && forall i | 0 <= i < |items| :: Shaped(f.ltype, items[i])
  }

  /** No byte string and no array that is written is longer than its descriptor allows. */
  predicate Encodable(lt: LType, v: Value)
    decreases lt, 0
  {
    match v
    case Int(_) => true
    case Raw(b) => lt.BytesType? ==> |b| <= lt.max
    case Msg(cs) => lt.SubType? ==> forall i | 0 <= i < |lt.fields| && i < |cs| :: EncodableField(lt.fields[i], cs[i])
  }

  predicate EncodableField(f: Field, c: Content)
    decreases f, 1
  {
    match c
    case Single(_, value) => Written(f, c) ==> Encodable(f.ltype, value)
    case Many(items) =>
      items != [] && f.htype.Repeated? ==> |items| <= f.htype.max && forall i | 0 <= i < |items| :: Encodable(f.ltype, items[i])
  }

  class OStream {
    /** Null on a stream that only counts. */
    const sink: Sink?
    const maxSize: nat
    var written: nat

    constructor (sink: Sink?, maxSize: nat)
      ensures this.sink == sink && this.maxSize == maxSize && written == 0
    {
      this.sink, this.maxSize, written := sink, maxSize, 0;
    }

    ghost predicate Valid()
      reads this
    {
      sink != null ==> written <= maxSize
    }

    /** What has gone into the sink so far; nothing on a stream that only counts. */
    ghost function Output(): Bytes
      reads this, sink
    {
      if sink == null then [] else sink.data
    }

    /** Whether `n` more bytes are accepted. */
    ghost predicate Room(n: nat)
      reads this
    {
      sink == null || written + n <= maxSize
    }

    /** pb_write. */
    method Write(buf: Bytes) returns (r: Outcome)
      requires Valid()
      modifies this`written, sink
      ensures Valid() && r == (if old(Room(|buf|)) then Done else StreamFull)
      ensures r.Done? ==> written == old(written) + |buf| && (sink != null ==> Output() == old(Output()) + buf)
      ensures !r.Done? ==> written == old(written) && Output() == old(Output())
    {
      if |buf| > 0 && sink != null {
        if written + |buf| > maxSize {
          return StreamFull;
        }
        sink.data := sink.data + buf;
      }
      written := written + |buf|;
      return Done;
    }

    /** pb_write of `n` bytes that are not given, on a stream that only counts. */
    method Count(n: nat)
      requires Valid() && sink == null
      modifies this`written
      ensures Valid() && written == old(written) + n
    {
      written := written + n;
    }
  }

  /** What every encoder does to its stream: all of `bytes` if they may be encoded and fit, an error
      otherwise; and it never counts more or less than it writes. */
  twostate predicate Emitted(stream: OStream, bytes: Bytes, encodable: bool, r: Outcome)
    reads stream, stream.sink
  {
    && stream.Valid() && r != SizeChanged
    && (r.Done? <==> encodable && old(stream.Room(|bytes|)))
    && (r.Done? ==> stream.written == old(stream.written) + |bytes|)
    && (r.Done? && stream.sink != null ==> stream.Output() == old(stream.Output()) + bytes)
  }

  method PutVarint(stream: OStream, value: nat) returns (r: Outcome)
    requires stream.Valid() && value < TWO64
    modifies stream`written, stream.sink
    ensures Emitted(stream, Varint(value), true, r)
  {
    var bytes := EncodeVarint(value);
    r := stream.Write(bytes);
  }

  /** pb_encode_tag. */
  method PutKey(stream: OStream, tag: nat, wireType: nat) returns (r: Outcome)
    requires stream.Valid() && tag < TWO32 && wireType < 8
    modifies stream`written, stream.sink
    ensures Emitted(stream, Key(tag, wireType), true, r)
  {
    r := PutVarint(stream, tag * 8 + wireType);
  }

  /** pb_encode_string. */
  method PutString(stream: OStream, b: Bytes) returns (r: Outcome)
    requires stream.Valid() && |b| < TWO64
    modifies stream`written, stream.sink
    ensures Emitted(stream, LengthPrefixed(b), true, r)
  {
    r := PutVarint(stream, |b|);
    if r.Done? {
      ghost var before := stream.Output();
      r := stream.Write(b);
      Concat(old(stream.Output()), Varint(|b|), b);
    }
  }

  lemma {:induction false} Concat(a: Bytes, b: Bytes, c: Bytes)
    ensures (a + b) + c == a + (b + c)
  {
  }

  /** One more piece of all that is to be written, and of what the sink has. */
  lemma {:induction false} Progress(all: Bytes, done: Bytes, bytes: Bytes, rest: Bytes, done': Bytes,
                                    out0: Bytes, out: Bytes, out': Bytes, sink: bool)
    requires all == done + (bytes + rest) && done' == done + bytes
    requires sink ==> out == out0 + done && out' == out + bytes
    ensures all == done' + rest && |done'| == |done| + |bytes| && (sink ==> out' == out0 + done')
  {
    Concat(done, bytes, rest);
    Concat(out0, done, bytes);
  }

  lemma {:induction false} FourBytes(v: nat)
    ensures Fixed(v, 4) == [v % 256, v / 256 % 256, v / 256 / 256 % 256, v / 256 / 256 / 256 % 256]
  {
    assert Fixed(v / 256 / 256 / 256, 1) == [v / 256 / 256 / 256 % 256];
    assert Fixed(v / 256 / 256, 2) == [v / 256 / 256 % 256] + Fixed(v / 256 / 256 / 256, 1);
    assert Fixed(v / 256, 3) == [v / 256 % 256] + Fixed(v / 256 / 256, 2);
  }

  lemma {:induction false} EightBytes(v: nat, high: nat)
    requires high == v / 256 / 256 / 256 / 256
    ensures Fixed(v, 8) == Fixed(v, 4) + Fixed(high, 4)
  {
    var w := v / 256 / 256;
    assert Fixed(v / 256, 7) == [v / 256 % 256] + Fixed(w, 6);
    assert Fixed(w / 256, 5) == [w / 256 % 256] + Fixed(high, 4);
    assert Fixed(w, 6) == [w % 256] + Fixed(w / 256, 5);
    FourBytes(v);
  }

  /** pb_encode_fixed32. */
  method PutFixed32(stream: OStream, v: nat) returns (r: Outcome)
    requires stream.Valid() && v < TWO32
    modifies stream`written, stream.sink
    ensures Emitted(stream, Fixed(v, 4), true, r)
  {
    FourBytes(v);
    r := stream.Write([v % 256, v / 256 % 256, v / 256 / 256 % 256, v / 256 / 256 / 256 % 256]);
  }

  /** pb_encode_fixed64. */
  method PutFixed64(stream: OStream, v: nat) returns (r: Outcome)
    requires stream.Valid() && v < TWO64
    modifies stream`written, stream.sink
    ensures Emitted(stream, Fixed(v, 8), true, r)
  {
    var high := v / 256 / 256 / 256 / 256;
    EightBytes(v, high);
    FourBytes(v);
    FourBytes(high);
    r := stream.Write([v % 256, v / 256 % 256, v / 256 / 256 % 256, v / 256 / 256 / 256 % 256]
                      + [high % 256, high / 256 % 256, high / 256 / 256 % 256, high / 256 / 256 / 256 % 256]);
  }

  lemma {:induction false} EncIntIs(lt: LType, v: int)
    requires TypedInt(lt, v)
    ensures EncInt(lt, v) == match lt
      case BoolType => Varint(if v != 0 then 1 else 0)
      case ZigZagType(_) => Varint(ZigZag(v))
      case Fixed32Type => Fixed(v, 4)
      case Fixed64Type => Fixed(v, 8)
      case _ => Varint(v % TWO64)
  {
    match lt
    case ZigZagType(_) =>
      ZigZagRoundTrip(v);
      assert ZigZag(v) % TWO64 == ZigZag(v);
    case Fixed32Type => assert v % TWO32 == v;
    case Fixed64Type => assert v % TWO64 == v;
    case _ =>
  }

  /** The encoders of numbers. */
  method PutInt(stream: OStream, lt: LType, v: int) returns (r: Outcome)
    requires stream.Valid() && TypedInt(lt, v)
    modifies stream`written, stream.sink
    ensures Emitted(stream, EncInt(lt, v), true, r)
  {
    EncIntIs(lt, v);
    if lt.BoolType? {
      r := PutVarint(stream, if v != 0 then 1 else 0);
    } else if lt.ZigZagType? {
      ZigZagRoundTrip(v);
      r := PutVarint(stream, ZigZag(v));
    } else if lt.Fixed32Type? {
      r := PutFixed32(stream, v);
    } else if lt.Fixed64Type? {
      r := PutFixed64(stream, v);
    } else {
      r := PutVarint(stream, v % TWO64);
    }
  }

  method PutValue(stream: OStream, lt: LType, v: Value) returns (r: Outcome)
    requires stream.Valid() && Shaped(lt, v) && |EncValue(lt, v)| < TWO64
    modifies stream`written, stream.sink
    ensures Emitted(stream, EncValue(lt, v), Encodable(lt, v), r)
    decreases lt, 0
  {
    match v {
      case Int(n) => r := PutInt(stream, lt, n);
      case Raw(b) =>
        if lt.BytesType? && |b| > lt.max {
          return BytesSizeExceeded;
        }
        r := PutString(stream, b);
      case Msg(cs) => r := PutSubmessage(stream, lt.fields, cs);
    }
  }

  /** pb_encode_submessage. The second pass always writes what the first one counted: the error that
      the size has changed cannot arise. */
  method PutSubmessage(stream: OStream, fields: seq<Field>, cs: seq<Content>) returns (r: Outcome)
    requires stream.Valid() && |cs| == |fields| && (forall i | 0 <= i < |cs| :: ShapedField(fields[i], cs[i]))
    requires |LengthPrefixed(EncFrom(fields, cs, 0))| < TWO64
    modifies stream`written, stream.sink
    ensures Emitted(stream, LengthPrefixed(EncFrom(fields, cs, 0)),
                    forall i | 0 <= i < |cs| :: EncodableField(fields[i], cs[i]), r)
    decreases fields, 4
  {
    ghost var bytes := EncFrom(fields, cs, 0);
    var sizing := new OStream(null, 0);
    r := PutMessage(sizing, fields, cs);
    if !r.Done? {
      return;
    }
    var size := sizing.written;
    r := PutVarint(stream, size);
    if !r.Done? {
      return;
    }
    if stream.sink == null {
      stream.Count(size);
      return Done;
    }
    if stream.written + size > stream.maxSize {
      return StreamFull;
    }
    var sub := new OStream(stream.sink, size);
    ghost var before := stream.Output();
    var status := PutMessage(sub, fields, cs);
    stream.written := stream.written + sub.written;
    if sub.written != size {
      return SizeChanged;
    }
    Concat(old(stream.Output()), Varint(size), bytes);
    r := status;
  }

  lemma {:induction false} FromStep(fields: seq<Field>, cs: seq<Content>, k: nat)
    requires |cs| == |fields| && k < |fields|
    ensures EncFrom(fields, cs, k) == EncField(fields[k], cs[k]) + EncFrom(fields, cs, k + 1)
  {
  }

  /** One turn of the loop: field `k` behind what is `done` of all the fields. */
  method PutNextField(stream: OStream, fields: seq<Field>, cs: seq<Content>, k: nat, ghost all: Bytes, ghost done: Bytes,
                      ghost out: Bytes) returns (r: Outcome, ghost done': Bytes)
    requires stream.Valid() && |cs| == |fields| && k < |fields| && ShapedField(fields[k], cs[k])
    requires all == done + EncFrom(fields, cs, k) && |all| < TWO64 && (stream.sink != null ==> stream.Output() == out + done)
    modifies stream`written, stream.sink
    ensures stream.Valid() && r != SizeChanged
    ensures r.Done? ==> EncodableField(fields[k], cs[k]) && all == done' + EncFrom(fields, cs, k + 1)
    ensures r.Done? ==> stream.written - old(stream.written) == |done'| - |done|
    ensures r.Done? && stream.sink != null ==> stream.Output() == out + done'
    ensures !r.Done? ==> !EncodableField(fields[k], cs[k]) || !old(stream.Room(|all| - |done|))
    decreases fields, 3, 0
  {
    FromStep(fields, cs, k);
    ghost var bytes, before := EncField(fields[k], cs[k]), stream.Output();
    r := PutField(stream, fields[k], cs[k]);
    done' := done + bytes;
    if r.Done? {
      Progress(all, done, bytes, EncFrom(fields, cs, k + 1), done', out, before, stream.Output(), stream.sink != null);
    }
  }

  /** The loop of pb_encode: it stops at the first field that is in error or does not fit. */
  method PutFields(stream: OStream, fields: seq<Field>, cs: seq<Content>) returns (r: Outcome)
    requires stream.Valid() && |cs| == |fields| && forall i | 0 <= i < |cs| :: ShapedField(fields[i], cs[i])
    requires |EncFrom(fields, cs, 0)| < TWO64
    modifies stream`written, stream.sink
    ensures stream.Valid() && r != SizeChanged
    ensures r.Done? ==> stream.written == old(stream.written) + |EncFrom(fields, cs, 0)|
    ensures r.Done? && stream.sink != null ==> stream.Output() == old(stream.Output()) + EncFrom(fields, cs, 0)
    ensures r.Done? ==> forall i | 0 <= i < |cs| :: EncodableField(fields[i], cs[i])
    ensures !r.Done? ==> !(forall i | 0 <= i < |cs| :: EncodableField(fields[i], cs[i])) || !old(stream.Room(|EncFrom(fields, cs, 0)|))
    decreases fields, 3, 1
  {
    var k := 0;
    ghost var all := EncFrom(fields, cs, 0);
    ghost var done: Bytes := [];
    while k < |fields|
      invariant k <= |fields| && stream.Valid()
      invariant all == done + EncFrom(fields, cs, k)
      invariant stream.written == old(stream.written) + |done|
      invariant stream.sink != null ==> stream.Output() == old(stream.Output()) + done
      invariant forall i | 0 <= i < k :: EncodableField(fields[i], cs[i])
    {
      r, done := PutNextField(stream, fields, cs, k, all, done, old(stream.Output()));
      if !r.Done? {
        return;
      }
      k := k + 1;
    }
    assert done == all;
    return Done;
  }

  /** pb_encode. */
  method PutMessage(stream: OStream, fields: seq<Field>, cs: seq<Content>) returns (r: Outcome)
    requires stream.Valid() && |cs| == |fields| && forall i | 0 <= i < |cs| :: ShapedField(fields[i], cs[i])
    requires |EncFrom(fields, cs, 0)| < TWO64
    modifies stream`written, stream.sink
    ensures Emitted(stream, EncFrom(fields, cs, 0), forall i | 0 <= i < |cs| :: EncodableField(fields[i], cs[i]), r)
    decreases fields, 3, 2
  {
    r := PutFields(stream, fields, cs);
  }

  /** encode_basic_field. */
  method PutField(stream: OStream, f: Field, c: Content) returns (r: Outcome)
    requires stream.Valid() && ShapedField(f, c) && |EncField(f, c)| < TWO64
    modifies stream`written, stream.sink
    ensures Emitted(stream, EncField(f, c), EncodableField(f, c), r)
    decreases f, 3
  {
    match c {
      case Many(items) => r := PutArray(stream, f, items);
      case Single(_, value) =>
        if !Written(f, c) {
          return Done;
        }
        r := PutEntry(stream, f, value);
    }
  }

  /** encode_array: one packed record where the type allows it, one record an item elsewhere. */
  method PutArray(stream: OStream, f: Field, items: seq<Value>) returns (r: Outcome)
    requires stream.Valid() && ShapedField(f, Many(items)) && |EncField(f, Many(items))| < TWO64
    modifies stream`written, stream.sink
    ensures Emitted(stream, EncField(f, Many(items)), EncodableField(f, Many(items)), r)
    decreases f, 2
  {
    if |items| == 0 {
      return Done;
    }
    if |items| > f.htype.max {
      return ArrayMaxExceeded;
    }
    if Packable(f.ltype) {
      r := PutPacked(stream, f, items);
    } else {
      r := PutUnpacked(stream, f, items);
    }
  }

  lemma {:induction false} ItemsStep(lt: LType, items: seq<Value>, i: nat)
    requires i < |items|
    ensures EncItems(lt, items[i..]) == EncValue(lt, items[i]) + EncItems(lt, items[i + 1..])
  {
    assert items[i..][1..] == items[i + 1..];
  }

  method PutNextItem(stream: OStream, lt: LType, items: seq<Value>, i: nat, ghost all: Bytes, ghost done: Bytes, ghost out: Bytes)
    returns (r: Outcome, ghost done': Bytes)
    requires stream.Valid() && Packable(lt) && i < |items| && Shaped(lt, items[i])
    requires all == done + EncItems(lt, items[i..]) && (stream.sink != null ==> stream.Output() == out + done)
    modifies stream`written, stream.sink
    ensures stream.Valid() && r != SizeChanged
    ensures r.Done? ==> all == done' + EncItems(lt, items[i + 1..])
    ensures r.Done? ==> stream.written - old(stream.written) == |done'| - |done|
    ensures r.Done? && stream.sink != null ==> stream.Output() == out + done'
    ensures !r.Done? ==> !old(stream.Room(|all| - |done|))
  {
    ItemsStep(lt, items, i);
    ghost var bytes, before := EncValue(lt, items[i]), stream.Output();
    r := PutInt(stream, lt, items[i].v);
    done' := done + bytes;
    if r.Done? {
      Progress(all, done, bytes, EncItems(lt, items[i + 1..]), done', out, before, stream.Output(), stream.sink != null);
    }
  }

  /** The loop over the items of a packed array. */
  method PutEachItem(stream: OStream, lt: LType, items: seq<Value>) returns (r: Outcome)
    requires stream.Valid() && Packable(lt) && |EncItems(lt, items)| < TWO64
    requires forall i | 0 <= i < |items| :: Shaped(lt, items[i])
    modifies stream`written, stream.sink
    ensures stream.Valid() && r != SizeChanged
    ensures r.Done? ==> stream.written == old(stream.written) + |EncItems(lt, items)|
    ensures r.Done? && stream.sink != null ==> stream.Output() == old(stream.Output()) + EncItems(lt, items)
    ensures !r.Done? ==> !old(stream.Room(|EncItems(lt, items)|))
  {
    ghost var all := EncItems(lt, items);
    ghost var done: Bytes := [];
    assert items[0..] == items;
    for i := 0 to |items|
      invariant stream.Valid() && all == done + EncItems(lt, items[i..])
      invariant stream.written == old(stream.written) + |done|
      invariant stream.sink != null ==> stream.Output() == old(stream.Output()) + done
    {
      r, done := PutNextItem(stream, lt, items, i, all, done, old(stream.Output()));
      if !r.Done? {
        return;
      }
    }
    assert EncItems(lt, items[|items|..]) == [];
    return Done;
  }

  /** The items of a packed array, on a stream that counts or into the sink. */
  method PutItems(stream: OStream, lt: LType, items: seq<Value>) returns (r: Outcome)
    requires stream.Valid() && Packable(lt) && |EncItems(lt, items)| < TWO64
    requires forall i | 0 <= i < |items| :: Shaped(lt, items[i])
    modifies stream`written, stream.sink
    ensures Emitted(stream, EncItems(lt, items), true, r)
  {
    r := PutEachItem(stream, lt, items);
  }

  lemma {:induction false} FixedItems(lt: LType, items: seq<Value>)
    requires forall i | 0 <= i < |items| :: Shaped(lt, items[i])
    ensures lt.Fixed32Type? ==> |EncItems(lt, items)| == 4 * |items|
    ensures lt.Fixed64Type? ==> |EncItems(lt, items)| == 8 * |items|
  {
    if items != [] {
      assert Shaped(lt, items[0]);
      FixedItems(lt, items[1..]);
    }
  }

  method PackedSize(lt: LType, items: seq<Value>) returns (size: nat)
    requires Packable(lt) && |EncItems(lt, items)| < TWO64 && forall i | 0 <= i < |items| :: Shaped(lt, items[i])
    ensures size == |EncItems(lt, items)|
  {
    FixedItems(lt, items);
    if lt.Fixed32Type? {
      return 4 * |items|;
    }
    if lt.Fixed64Type? {
      return 8 * |items|;
    }
    var sizing := new OStream(null, 0);
    var r := PutItems(sizing, lt, items);
    return sizing.written;
  }

  method PutPacked(stream: OStream, f: Field, items: seq<Value>) returns (r: Outcome)
    requires stream.Valid() && Packable(f.ltype) && f.tag < TWO32 && items != []
    requires |EncItems(f.ltype, items)| < TWO64 && forall i | 0 <= i < |items| :: Shaped(f.ltype, items[i])
    modifies stream`written, stream.sink
    ensures Emitted(stream, Key(f.tag, WT_STRING) + LengthPrefixed(EncItems(f.ltype, items)), true, r)
  {
    ghost var out, bytes := stream.Output(), EncItems(f.ltype, items);
    r := PutKey(stream, f.tag, WT_STRING);
    if !r.Done? {
      return;
    }
    var size := PackedSize(f.ltype, items);
    r := PutVarint(stream, size);
    if !r.Done? {
      return;
    }
    if stream.sink == null {
      stream.Count(size);
      return Done;
    }
    r := PutItems(stream, f.ltype, items);
    Concat(out, Key(f.tag, WT_STRING), Varint(size));
    Concat(out, Key(f.tag, WT_STRING) + Varint(size), bytes);
    Concat(Key(f.tag, WT_STRING), Varint(size), bytes);
  }

  lemma {:induction false} UnpackedEnds(f: Field, items: seq<Value>)
    ensures [] + EncUnpacked(f, items[0..]) == EncUnpacked(f, items) && EncUnpacked(f, items[|items|..]) == []
  {
    assert items[0..] == items;
  }

  lemma {:induction false} UnpackedNext(f: Field, items: seq<Value>, i: nat)
    requires i < |items|
    ensures EncUnpacked(f, items[i..])
            == (Key(f.tag, WireType(f.ltype)) + EncValue(f.ltype, items[i])) + EncUnpacked(f, items[i + 1..])
  {
    assert items[i..][1..] == items[i + 1..];
  }

  method PutNextEntry(stream: OStream, f: Field, items: seq<Value>, i: nat, ghost all: Bytes, ghost done: Bytes, ghost out: Bytes)
    returns (r: Outcome, ghost done': Bytes)
    requires stream.Valid() && f.tag < TWO32 && i < |items| && Shaped(f.ltype, items[i])
    requires all == done + EncUnpacked(f, items[i..]) && |all| < TWO64 && (stream.sink != null ==> stream.Output() == out + done)
    modifies stream`written, stream.sink
    ensures stream.Valid() && r != SizeChanged
    ensures r.Done? ==> Encodable(f.ltype, items[i]) && all == done' + EncUnpacked(f, items[i + 1..])
    ensures r.Done? ==> stream.written - old(stream.written) == |done'| - |done|
    ensures r.Done? && stream.sink != null ==> stream.Output() == out + done'
    ensures !r.Done? ==> !Encodable(f.ltype, items[i]) || !old(stream.Room(|all| - |done|))
    decreases f, 1, 0
  {
    UnpackedNext(f, items, i);
    ghost var bytes, before := Key(f.tag, WireType(f.ltype)) + EncValue(f.ltype, items[i]), stream.Output();
    r := PutEntry(stream, f, items[i]);
    done' := done + bytes;
    if r.Done? {
      Progress(all, done, bytes, EncUnpacked(f, items[i + 1..]), done', out, before, stream.Output(), stream.sink != null);
    }
  }

  /** The loop over the items of an array that is not packed. */
  method PutEntries(stream: OStream, f: Field, items: seq<Value>) returns (r: Outcome)
    requires stream.Valid() && f.tag < TWO32 && |EncUnpacked(f, items)| < TWO64
    requires forall i | 0 <= i < |items| :: Shaped(f.ltype, items[i])
    modifies stream`written, stream.sink
    ensures stream.Valid() && r != SizeChanged
    ensures r.Done? ==> stream.written == old(stream.written) + |EncUnpacked(f, items)|
    ensures r.Done? && stream.sink != null ==> stream.Output() == old(stream.Output()) + EncUnpacked(f, items)
    ensures r.Done? ==> forall i | 0 <= i < |items| :: Encodable(f.ltype, items[i])
    ensures !r.Done? ==> !(forall i | 0 <= i < |items| :: Encodable(f.ltype, items[i])) || !old(stream.Room(|EncUnpacked(f, items)|))
    decreases f, 1, 1
  {
    ghost var all := EncUnpacked(f, items);
    ghost var done: Bytes := [];
    UnpackedEnds(f, items);
    var i := 0;
    while i < |items|
      invariant i <= |items| && stream.Valid() && all == done + EncUnpacked(f, items[i..])
      invariant stream.written == old(stream.written) + |done|
      invariant stream.sink != null ==> stream.Output() == old(stream.Output()) + done
      invariant forall j | 0 <= j < i :: Encodable(f.ltype, items[j])
    {
      r, done := PutNextEntry(stream, f, items, i, all, done, old(stream.Output()));
      if !r.Done? {
        return;
      }
      i := i + 1;
    }
    assert done == all;
    return Done;
  }

  method PutUnpacked(stream: OStream, f: Field, items: seq<Value>) returns (r: Outcome)
    requires stream.Valid() && f.tag < TWO32 && |EncUnpacked(f, items)| < TWO64
    requires forall i | 0 <= i < |items| :: Shaped(f.ltype, items[i])
    modifies stream`written, stream.sink
    ensures Emitted(stream, EncUnpacked(f, items), forall i | 0 <= i < |items| :: Encodable(f.ltype, items[i]), r)
    decreases f, 1, 2
  {
    r := PutEntries(stream, f, items);
  }

  /** A key and a value. */
  method PutEntry(stream: OStream, f: Field, v: Value) returns (r: Outcome)
    requires stream.Valid() && f.tag < TWO32 && Shaped(f.ltype, v) && |EncValue(f.ltype, v)| < TWO64
    modifies stream`written, stream.sink
    ensures Emitted(stream, Key(f.tag, WireType(f.ltype)) + EncValue(f.ltype, v), Encodable(f.ltype, v), r)
    decreases f, 0
  {
    ghost var out := stream.Output();
    r := PutKey(stream, f.tag, WireType(f.ltype));
    if r.Done? {
      Concat(out, Key(f.tag, WireType(f.ltype)), EncValue(f.ltype, v));
      r := PutValue(stream, f.ltype, v);
    }
  }

  // ---------- whole messages ----------

  lemma {:induction false} InBoundsIsEncodable(lt: LType, v: Value)
    requires InBounds(lt, v)
    ensures Shaped(lt, v) && Encodable(lt, v)
    decreases lt, 0
  {
    match v
    case Msg(cs) =>
      forall i | 0 <= i < |cs| ensures ShapedField(lt.fields[i], cs[i]) && EncodableField(lt.fields[i], cs[i]) {
        assert FieldInBounds(lt.fields[i], cs[i]);
        FieldIsEncodable(lt.fields[i], cs[i]);
      }
    case _ =>
  }

  lemma {:induction false} FieldIsEncodable(f: Field, c: Content)
    requires FieldInBounds(f, c) && f.tag < TWO32
    ensures ShapedField(f, c) && EncodableField(f, c)
    decreases f, 1
  {
    match c
    case Single(_, value) => InBoundsIsEncodable(f.ltype, value);
    case Many(items) =>
      forall i | 0 <= i < |items| ensures Shaped(f.ltype, items[i]) && Encodable(f.ltype, items[i]) {
        InBoundsIsEncodable(f.ltype, items[i]);
      }
  }

  lemma {:induction false} MessageIsEncodable(fields: seq<Field>, cs: seq<Content>)
    requires MessageOk(fields, cs)
    ensures forall i | 0 <= i < |cs| :: ShapedField(fields[i], cs[i]) && EncodableField(fields[i], cs[i])
  {
    forall i | 0 <= i < |cs| ensures ShapedField(fields[i], cs[i]) && EncodableField(fields[i], cs[i]) {
      FieldIsEncodable(fields[i], cs[i]);
    }
  }

  /** pb_get_encoded_size. */
  method GetEncodedSize(fields: seq<Field>, cs: seq<Content>) returns (size: nat)
    requires MessageOk(fields, cs) && |EncFrom(fields, cs, 0)| < TWO64
    ensures size == |EncFrom(fields, cs, 0)|
  {
    MessageIsEncodable(fields, cs);
    var stream := new OStream(null, 0);
    var r := PutMessage(stream, fields, cs);
    return stream.written;
  }

  /** Encoding into a buffer succeeds if and only if the message fits, and what is then in the buffer
      decodes to the message. */
  method EncodeToBuffer(fields: seq<Field>, cs: seq<Content>, capacity: nat) returns (r: Outcome, data: Bytes)
    requires MessageOk(fields, cs) && |EncFrom(fields, cs, 0)| < TWO64
    ensures r != SizeChanged && (r.Done? <==> |EncFrom(fields, cs, 0)| <= capacity)
    ensures r.Done? ==> data == EncFrom(fields, cs, 0) && Decode(fields, data) == Some(NormalAll(fields, cs))
  {
    MessageIsEncodable(fields, cs);
    var sink := new Sink();
    var stream := new OStream(sink, capacity);
    r := PutMessage(stream, fields, cs);
    data := sink.data;
    RoundTrip(fields, cs);
  }
}
