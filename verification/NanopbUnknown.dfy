/** Fields that the descriptor does not have: they are passed over, whatever their values are, so that
    an old reader takes what a newer writer writes (pb_decode.c). */
module NanopbUnknown {
  import opened Dbformat
  import opened Coding
  import opened NanopbWire
  import opened Nanopb
  import opened NanopbRoundTrip

  // ---------- values on the wire ----------

  /** The four kinds of values of "Message Structure" in the Protocol Buffers Encoding specification that
      are in use: a varint, eight bytes, a string of bytes behind its length, four bytes. */
  datatype WireValue = Number(n: nat) | Eight(b: Bytes) | Delimited(b: Bytes) | Four(b: Bytes)

  predicate OnWire(v: WireValue) {
    match v
    case Number(n) => n < TWO64
    case Eight(b) => |b| == 8
    case Delimited(b) => |b| < TWO32
    case Four(b) => |b| == 4
  }

  function ValueBytes(v: WireValue): Bytes {
    match v
    case Number(n) => Varint(n)
    case Eight(b) => b
    case Delimited(b) => LengthPrefixed(b)
    case Four(b) => b
  }

  function WireCode(v: WireValue): nat {
    match v case Number(_) => 0 case Eight(_) => 1 case Delimited(_) => 2 case Four(_) => 5
  }

  predicate Foreign(fields: seq<Field>, tag: nat) {
    forall i | 0 <= i < |fields| :: fields[i].tag != tag
  }

  lemma {:induction false} SkipsVarint(n: nat, s: Bytes)
    ensures SkipVarint(Varint(n) + s) == Some(s)
  {
    if n < 128 {
      assert (Varint(n) + s)[1..] == s;
    } else {
      HeadAndTail(n, s);
      SkipsVarint(n / 128, s);
    }
  }

  lemma {:induction false} SkipsBytes(b: Bytes, s: Bytes, n: nat)
    requires |b| == n
    ensures SkipBytes(b + s, n) == Some(s)
  {
    assert (b + s)[n..] == s;
  }

  lemma {:induction false} SkipsString(b: Bytes, s: Bytes)
    requires |b| < TWO32
    ensures SkipField(LengthPrefixed(b) + s, 2) == Some(s)
  {
    ReadsVarint32(|b|, b + s);
    assert LengthPrefixed(b) + s == Varint(|b|) + (b + s);
    SkipsBytes(b, s, |b|);
  }

  lemma {:induction false} SkipsValue(v: WireValue, s: Bytes)
    requires OnWire(v)
    ensures SkipField(ValueBytes(v) + s, WireCode(v)) == Some(s)
  {
    match v
    case Number(n) => SkipsVarint(n, s);
    case Eight(b) => SkipsBytes(b, s, 8);
    case Delimited(b) => SkipsString(b, s);
    case Four(b) => SkipsBytes(b, s, 4);
  }

  // ---------- one field ----------

  lemma {:induction false} KeyReads(tag: nat, wireType: nat, s: Bytes, input: Bytes)
    requires tag < 0x2000_0000 && wireType < 8 && input == Key(tag, wireType) + s
    ensures input != [] && DecodeVarint32(input) == Some((tag * 8 + wireType, s))
    ensures (tag * 8 + wireType) / 8 == tag && (tag * 8 + wireType) % 8 == wireType
  {
    ReadsVarint32(tag * 8 + wireType, s);
  }

  lemma {:induction false} NotFound(fields: seq<Field>, tag: nat)
    requires Foreign(fields, tag)
    ensures Find(fields, tag) == |fields|
  {
  }

  /** The key of a field that the descriptor does not have: what follows is passed over by its wire type. */
  lemma {:induction false} WalkSkips(fields: seq<Field>, st: Progress, tag: nat, wireType: nat, s: Bytes, input: Bytes)
    requires fields != [] && |st.cs| == |fields| && Foreign(fields, tag)
    requires tag < 0x2000_0000 && wireType < 8 && tag * 8 + wireType != 0 && input == Key(tag, wireType) + s
    ensures Walk(fields, st, input) == match SkipField(s, wireType) case None => None case Some(rest) => Walk(fields, st, rest)
  {
    KeyReads(tag, wireType, s, input);
    NotFound(fields, tag);
  }

  /** A field with an unknown tag leaves everything as it is, and what follows it is read on. */
  lemma {:induction false} UnknownPassed(fields: seq<Field>, st: Progress, tag: nat, v: WireValue, s: Bytes)
    requires fields != [] && |st.cs| == |fields| && Foreign(fields, tag) && OnWire(v)
    requires tag < 0x2000_0000 && tag * 8 + WireCode(v) != 0
    ensures Walk(fields, st, Key(tag, WireCode(v)) + ValueBytes(v) + s) == Walk(fields, st, s)
  {
    assert Key(tag, WireCode(v)) + ValueBytes(v) + s == Key(tag, WireCode(v)) + (ValueBytes(v) + s);
    SkipsValue(v, s);
    WalkSkips(fields, st, tag, WireCode(v), ValueBytes(v) + s, Key(tag, WireCode(v)) + (ValueBytes(v) + s));
  }

  /** Groups and the two wire types that do not exist are refused under an unknown tag. */
  lemma {:induction false} UnknownRefused(fields: seq<Field>, st: Progress, tag: nat, wireType: nat, s: Bytes)
    requires fields != [] && |st.cs| == |fields| && Foreign(fields, tag) && tag < 0x2000_0000 && wireType in {3, 4, 6, 7}
    ensures Walk(fields, st, Key(tag, wireType) + s) == None
  {
    WalkSkips(fields, st, tag, wireType, s, Key(tag, wireType) + s);
  }

  /** A value of four or eight bytes, or a string, that the input is too short for is refused. */
  lemma {:induction false} UnknownCut(fields: seq<Field>, st: Progress, tag: nat, v: WireValue, b: Bytes)
    requires fields != [] && |st.cs| == |fields| && Foreign(fields, tag) && OnWire(v) && !v.Number?
    requires tag < 0x2000_0000 && b < v.b
    ensures var head := if v.Delimited? then Varint(|v.b|) + b else b;
            Walk(fields, st, Key(tag, WireCode(v)) + head) == None
  {
    var head := if v.Delimited? then Varint(|v.b|) + b else b;
    if v.Delimited? {
      ReadsVarint32(|v.b|, b);
    }
    WalkSkips(fields, st, tag, WireCode(v), head, Key(tag, WireCode(v)) + head);
  }

  // ---------- what the encoder writes, to a reader without the field ----------

  /** The encoding of a value is a value of its wire type. */
  lemma {:induction false} ValueOnWire(lt: LType, v: Value) returns (w: WireValue)
    requires InBounds(lt, v)
    ensures OnWire(w) && ValueBytes(w) == EncValue(lt, v) && WireCode(w) == WireType(lt)
  {
    match v {
      case Int(n) =>
        match lt {
          case Fixed32Type => w := Four(EncInt(lt, n));
          case Fixed64Type => w := Eight(EncInt(lt, n));
          case BoolType => w := Number(if n != 0 then 1 else 0);
          case ZigZagType(_) => w := Number(ZigZag(n) % TWO64);
          case _ => w := Number(n % TWO64);
        }
      case Raw(b) => w := Delimited(b);
      case Msg(cs) => w := Delimited(EncFrom(lt.fields, cs, 0));
    }
  }

  /** One key and value as the encoder writes them. */
  lemma {:induction false} RecordPassed(fields: seq<Field>, st: Progress, tag: nat, lt: LType, v: Value, s: Bytes)
    requires fields != [] && |st.cs| == |fields| && Foreign(fields, tag) && 0 < tag < 0x2000_0000 && InBounds(lt, v)
    ensures Walk(fields, st, Key(tag, WireType(lt)) + EncValue(lt, v) + s) == Walk(fields, st, s)
  {
    var w := ValueOnWire(lt, v);
    UnknownPassed(fields, st, tag, w, s);
  }

  lemma {:induction false} ItemsPassed(fields: seq<Field>, st: Progress, f: Field, items: seq<Value>, s: Bytes)
    requires fields != [] && |st.cs| == |fields| && Foreign(fields, f.tag) && 0 < f.tag < 0x2000_0000
    requires forall i | 0 <= i < |items| :: InBounds(f.ltype, items[i])
    ensures Walk(fields, st, EncUnpacked(f, items) + s) == Walk(fields, st, s)
    decreases |items|
  {
    if items == [] {
      assert EncUnpacked(f, items) + s == s;
    } else {
      var after := EncUnpacked(f, items[1..]) + s;
      UnpackedFirst(f, items, s);
      RecordPassed(fields, st, f.tag, f.ltype, items[0], after);
      ItemsPassed(fields, st, f, items[1..], s);
    }
  }

  lemma {:induction false} UnpackedFirst(f: Field, items: seq<Value>, s: Bytes)
    requires items != []
    ensures EncUnpacked(f, items) + s == Key(f.tag, WireType(f.ltype)) + EncValue(f.ltype, items[0]) + (EncUnpacked(f, items[1..]) + s)
  {
  }

  /** A field written by a sender that knows it, read by a receiver that does not. */
  lemma {:induction false} FieldPassed(fields: seq<Field>, st: Progress, f: Field, c: Content, s: Bytes)
    requires fields != [] && |st.cs| == |fields| && Foreign(fields, f.tag) && 0 < f.tag < 0x2000_0000 && FieldInBounds(f, c)
    ensures Walk(fields, st, EncField(f, c) + s) == Walk(fields, st, s)
  {
    if EncField(f, c) == [] {
      assert EncField(f, c) + s == s;
    } else if c.Single? {
      RecordPassed(fields, st, f.tag, f.ltype, c.value, s);
    } else if Packable(f.ltype) {
      UnknownPassed(fields, st, f.tag, Delimited(EncItems(f.ltype, c.items)), s);
    } else {
      ItemsPassed(fields, st, f, c.items, s);
    }
  }

  lemma {:induction false} FieldsPassed(fields: seq<Field>, st: Progress, more: seq<Field>, cs: seq<Content>, k: nat, s: Bytes)
    requires fields != [] && |st.cs| == |fields| && |cs| == |more| && k <= |more|
    requires forall i | 0 <= i < |more| :: Foreign(fields, more[i].tag) && 0 < more[i].tag < 0x2000_0000 && FieldInBounds(more[i], cs[i])
    ensures Walk(fields, st, EncFrom(more, cs, k) + s) == Walk(fields, st, s)
    decreases |more| - k
  {
    if k == |more| {
      assert EncFrom(more, cs, k) + s == s;
    } else {
      var after := EncFrom(more, cs, k + 1) + s;
      assert EncFrom(more, cs, k) + s == EncField(more[k], cs[k]) + after;
      FieldPassed(fields, st, more[k], cs[k], after);
      FieldsPassed(fields, st, more, cs, k + 1, s);
    }
  }

  // ---------- a whole message of a newer sender ----------

  /** Fields of a newer version of the message type, and what they hold. */
  datatype Addition = Addition(fields: seq<Field>, cs: seq<Content>)

  predicate Fits(fields: seq<Field>, a: Addition) {
    && |a.cs| == |a.fields|
    && forall i | 0 <= i < |a.fields| ::
         Foreign(fields, a.fields[i].tag) && 0 < a.fields[i].tag < 0x2000_0000 && FieldInBounds(a.fields[i], a.cs[i])
  }

  /** The message from field `k` on, with the new fields in front of each field and behind the last. */
  function EncNewer(fields: seq<Field>, cs: seq<Content>, added: seq<Addition>, k: nat): Bytes
    requires |cs| == |fields| && |added| == |fields| + 1 && k <= |fields|
    decreases |fields| - k
  {
    EncFrom(added[k].fields, added[k].cs, 0)
    + if k == |fields| then [] else EncField(fields[k], cs[k]) + EncNewer(fields, cs, added, k + 1)
  }

  lemma {:induction false} ReadsNewer(fields: seq<Field>, cs: seq<Content>, added: seq<Addition>, k: nat, st: Progress)
    requires MessageOk(fields, cs) && fields != [] && |added| == |fields| + 1 && k <= |fields| && NanopbRoundTrip.Before(fields, cs, k, st)
    requires forall i | 0 <= i < |added| :: Fits(fields, added[i])
    ensures DecLoop(fields, st, EncNewer(fields, cs, added, k)) == Some(NormalAll(fields, cs))
    decreases |fields| - k
  {
    var after := if k == |fields| then [] else EncField(fields[k], cs[k]) + EncNewer(fields, cs, added, k + 1);
    assert Fits(fields, added[k]);
    FieldsPassed(fields, st, added[k].fields, added[k].cs, 0, after);
    if k == |fields| {
      ReadsFrom(fields, cs, k, st);
      assert EncFrom(fields, cs, k) == [];
    } else {
      var next := FieldStep(fields, cs, k, st, EncNewer(fields, cs, added, k + 1));
      ReadsNewer(fields, cs, added, k + 1, next);
    }
  }

  /** What a newer sender writes, with fields of any types added anywhere among the fields that the
      receiver knows, is read as the message without them. */
  lemma {:induction false} NewerIsRead(fields: seq<Field>, cs: seq<Content>, added: seq<Addition>)
    requires MessageOk(fields, cs) && fields != [] && |added| == |fields| + 1
    requires forall i | 0 <= i < |added| :: Fits(fields, added[i])
    ensures Decode(fields, EncNewer(fields, cs, added, 0)) == Some(NormalAll(fields, cs))
  {
    assert Defaults(fields) == Mixed(fields, cs, 0);
    ReadsNewer(fields, cs, added, 0, Progress(Defaults(fields), {}, None));
  }

  // ---------- fields in any order, or more than once ----------

  /** Wherever the field of a plain value stands in the input, and whatever the message holds by then, the
      value takes its place; of a union it unsets the other members. */
  lemma {:induction false} FieldTaken(fields: seq<Field>, k: nat, st: Progress, c: Content, s: Bytes)
    requires TagsOk(fields) && k < |fields| && |st.cs| == |fields| && st.cs[k].Single?
    requires !fields[k].htype.Repeated? && !fields[k].ltype.SubType? && FieldInBounds(fields[k], c) && Nanopb.Written(fields[k], c)
    ensures var taken := st.(cs := Replace(fields, k, st.cs, Single(true, c.value)), seen := Seen(fields, k, st.seen));
            Walk(fields, st, EncField(fields[k], c) + s) == Walk(fields, taken, s)
  {
    var f := fields[k];
    var body := EncValue(f.ltype, c.value) + s;
    ReadsPlain(f.ltype, Prior(f, st.cs[k]), c.value, s);
    assert EncField(f, c) + s == Key(f.tag, WireType(f.ltype)) + body;
    KeyReads(f.tag, WireType(f.ltype), body, Key(f.tag, WireType(f.ltype)) + body);
    FindsTag(fields, k);
  }

  lemma {:induction false} ReadsPlain(lt: LType, prior: Value, v: Value, rest: Bytes)
    requires InBounds(lt, v) && !lt.SubType?
    ensures DecValue(lt, prior, EncValue(lt, v) + rest) == Some((v, rest))
  {
    match v
    case Int(n) => ReadsInt(lt, n, rest);
    case Raw(b) => ReadsRaw(lt, b, prior, rest);
    case Msg(_) =>
  }

  /** Of a field that comes twice the value that comes last is kept. */
  lemma {:induction false} LastIsKept(fields: seq<Field>, k: nat, st: Progress, a: Content, b: Content, s: Bytes)
    requires TagsOk(fields) && k < |fields| && |st.cs| == |fields| && st.cs[k].Single?
    requires !fields[k].htype.Repeated? && !fields[k].ltype.SubType?
    requires FieldInBounds(fields[k], a) && Nanopb.Written(fields[k], a) && FieldInBounds(fields[k], b) && Nanopb.Written(fields[k], b)
    ensures Walk(fields, st, EncField(fields[k], a) + EncField(fields[k], b) + s) == Walk(fields, st, EncField(fields[k], b) + s)
  {
    var f, once := fields[k], st.(cs := Replace(fields, k, st.cs, Single(true, a.value)), seen := Seen(fields, k, st.seen));
    assert EncField(f, a) + EncField(f, b) + s == EncField(f, a) + (EncField(f, b) + s);
    FieldTaken(fields, k, st, a, EncField(f, b) + s);
    FieldTaken(fields, k, once, b, s);
    FieldTaken(fields, k, st, b, s);
    assert Replace(fields, k, once.cs, Single(true, b.value)) == Replace(fields, k, st.cs, Single(true, b.value));
    assert Seen(fields, k, once.seen) == Seen(fields, k, st.seen);
  }
}
