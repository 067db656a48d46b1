/** Decoding what was encoded: pb_decode of the bytes of pb_encode restores the message. */
module NanopbRoundTrip {
  import opened Dbformat
  import opened Coding
  import opened NanopbWire
  import opened Nanopb

  // ---------- what is not written is at its default ----------

  lemma {:induction false} ZeroIsDefault(lt: LType, v: Value)
    requires InBounds(lt, v) && Zero(lt, v)
    ensures Normal(lt, v) == ZeroOf(lt)
    decreases lt, 0
  {
    match v
    case Msg(cs) =>
      forall i | 0 <= i < |cs| ensures NormalField(lt.fields[i], cs[i]) == Default(lt.fields[i]) {
        assert ZeroField(lt.fields[i], cs[i]) && FieldInBounds(lt.fields[i], cs[i]);
        ZeroFieldIsDefault(lt.fields[i], cs[i]);
      }
      assert NormalAll(lt.fields, cs) == Defaults(lt.fields);
    case Raw(b) => assert lt.FixedBytesType? ==> b == seq(lt.size, _ => 0);
    case Int(n) =>
  }

  lemma {:induction false} ZeroFieldIsDefault(f: Field, c: Content)
    requires FieldInBounds(f, c) && ZeroField(f, c)
    ensures NormalField(f, c) == Default(f)
    decreases f, 1
  {
    if f.htype.Optional? && !f.htype.hasFlag {
      ZeroIsDefault(f.ltype, c.value);
    }
  }

  lemma {:induction false} UnwrittenIsDefault(f: Field, c: Content)
    requires FieldInBounds(f, c) && c.Single? && !Written(f, c)
    ensures NormalField(f, c) == Default(f)
  {
    if f.htype.Optional? && !f.htype.hasFlag {
      ZeroIsDefault(f.ltype, c.value);
    }
  }

  // ---------- values ----------

  lemma {:induction false} PackableIsInt(lt: LType, v: Value)
    requires InBounds(lt, v) && Packable(lt)
    ensures v.Int? && Normal(lt, v) == v && EncValue(lt, v) != []
  {
    if lt.Fixed32Type? || lt.Fixed64Type? {
      assert |EncInt(lt, v.v)| >= 4;
    }
  }

  lemma {:induction false} ReadsValue(lt: LType, v: Value, rest: Bytes)
    requires InBounds(lt, v)
    ensures DecValue(lt, ZeroOf(lt), EncValue(lt, v) + rest) == Some((Normal(lt, v), rest))
    decreases lt, 0
  {
    match v
    case Int(n) => ReadsInt(lt, n, rest);
    case Raw(b) => ReadsRaw(lt, b, ZeroOf(lt), rest);
    case Msg(cs) =>
      ReadsSubstream(EncFrom(lt.fields, cs, 0), rest);
      ReadsMessage(lt.fields, cs);
  }

  lemma {:induction false} ReadsPacked(lt: LType, done: seq<Value>, items: seq<Value>, max: nat)
    requires Packable(lt) && |done| + |items| <= max
    requires forall i | 0 <= i < |items| :: InBounds(lt, items[i])
    ensures DecPacked(lt, done, max, EncItems(lt, items)) == Some(done + NormalItems(lt, items))
    decreases lt, 1, |items|
  {
    if items == [] {
      assert done + NormalItems(lt, items) == done;
    } else {
      PackableIsInt(lt, items[0]);
      ReadsValue(lt, items[0], EncItems(lt, items[1..]));
      ReadsPacked(lt, done + [items[0]], items[1..], max);
      NormalNext(lt, done, items, done + [items[0]]);
    }
  }

  lemma {:induction false} NormalNext(lt: LType, done: seq<Value>, items: seq<Value>, more: seq<Value>)
    requires items != [] && Normal(lt, items[0]) == items[0] && more == done + [items[0]]
    ensures more + NormalItems(lt, items[1..]) == done + NormalItems(lt, items)
  {
    assert NormalItems(lt, items) == [items[0]] + NormalItems(lt, items[1..]);
  }

  // ---------- one field ----------

  lemma {:induction false} ReadsSingle(f: Field, c: Content, rest: Bytes)
    requires FieldInBounds(f, c) && c.Single? && Written(f, c)
    ensures DecField(f, Default(f), WireType(f.ltype), EncValue(f.ltype, c.value) + rest) == Some((NormalField(f, c), rest))
    decreases f, 2
  {
    ReadsValue(f.ltype, c.value, rest);
  }

  lemma {:induction false} ReadsPackedField(f: Field, c: Content, rest: Bytes)
    requires FieldInBounds(f, c) && c.Many? && Packable(f.ltype)
    ensures DecField(f, Many([]), WT_STRING, LengthPrefixed(EncItems(f.ltype, c.items)) + rest) == Some((NormalField(f, c), rest))
    decreases f, 2
  {
    ReadsSubstream(EncItems(f.ltype, c.items), rest);
    ReadsPacked(f.ltype, [], c.items, f.htype.max);
    assert [] + NormalItems(f.ltype, c.items) == NormalItems(f.ltype, c.items);
  }

  lemma {:induction false} ReadsItem(f: Field, items: seq<Value>, j: nat, rest: Bytes)
    requires FieldInBounds(f, Many(items)) && !Packable(f.ltype) && j < |items|
    ensures DecField(f, Many(NormalItems(f.ltype, items[..j])), WireType(f.ltype), EncValue(f.ltype, items[j]) + rest)
            == Some((Many(NormalItems(f.ltype, items[..j + 1])), rest))
    decreases f, 2
  {
    ReadsValue(f.ltype, items[j], rest);
    assert NormalItems(f.ltype, items[..j]) + [Normal(f.ltype, items[j])] == NormalItems(f.ltype, items[..j + 1]);
  }

  // ---------- the loop ----------

  lemma {:induction false} FindsTag(fields: seq<Field>, k: nat)
    requires TagsOk(fields) && k < |fields|
    ensures Find(fields, fields[k].tag) == k
  {
    var i := Find(fields, fields[k].tag);
    assert fields[i].tag == fields[k].tag;
  }

  /** One entry of the input, from its key to the content it leaves behind. */
  lemma {:induction false} LoopStep(fields: seq<Field>, k: nat, st: Progress, st': Progress, wireType: nat, body: Bytes,
                    c: Content, rest: Bytes, input: Bytes)
    requires TagsOk(fields) && k < |fields| && |st.cs| == |fields| && |st'.cs| == |fields| && wireType < 8
    requires BeginFixed(fields, k, st) == Some(st') && DecField(fields[k], st'.cs[k], wireType, body) == Some((c, rest))
    requires input == Key(fields[k].tag, wireType) + body
    ensures DecLoop(fields, st, input) == DecLoop(fields, Stored(fields, k, st', c), rest)
  {
    ReadsKey(fields, k, wireType, body, input);
    WalksOn(fields, k, st, st', wireType, body, c, rest, input);
  }

  lemma {:induction false} ReadsKey(fields: seq<Field>, k: nat, wireType: nat, body: Bytes, input: Bytes)
    requires TagsOk(fields) && k < |fields| && wireType < 8 && input == Key(fields[k].tag, wireType) + body
    ensures input != [] && Find(fields, fields[k].tag) == k
    ensures exists key: nat :: DecodeVarint32(input) == Some((key, body)) && key / 8 == fields[k].tag && key % 8 == wireType && key != 0
  {
    var key := fields[k].tag * 8 + wireType;
    ReadsVarint32(key, body);
    FindsTag(fields, k);
    assert key / 8 == fields[k].tag && key % 8 == wireType;
  }

  lemma {:induction false} WalksOn(fields: seq<Field>, k: nat, st: Progress, st': Progress, wireType: nat, body: Bytes,
                    c: Content, rest: Bytes, input: Bytes)
    requires k < |fields| && |st.cs| == |fields| && |st'.cs| == |fields| && input != [] && Find(fields, fields[k].tag) == k
    requires exists key: nat :: DecodeVarint32(input) == Some((key, body)) && key / 8 == fields[k].tag && key % 8 == wireType && key != 0
    requires BeginFixed(fields, k, st) == Some(st') && DecField(fields[k], st'.cs[k], wireType, body) == Some((c, rest))
    ensures DecLoop(fields, st, input) == DecLoop(fields, Stored(fields, k, st', c), rest)
  {
  }

  /** Fields before `k` are decoded, the others at their defaults. */
  function Mixed(fields: seq<Field>, cs: seq<Content>, k: nat): (r: seq<Content>)
    requires |cs| == |fields|
    ensures |r| == |fields|
  {
    seq(|fields|, i requires 0 <= i < |fields| => if i < k then NormalField(fields[i], cs[i]) else Default(fields[i]))
  }

  predicate AllSeen(fields: seq<Field>, k: nat, seen: set<nat>)
    requires k <= |fields|
  {
    forall i | 0 <= i < Min(RequiredBefore(fields, k), MAX_REQUIRED_FIELDS) :: i in seen
  }

  ghost predicate Before(fields: seq<Field>, cs: seq<Content>, k: nat, st: Progress)
    requires |cs| == |fields| && k <= |fields|
  {
    && st.cs == Mixed(fields, cs, k) && AllSeen(fields, k, st.seen) && Filled(fields, st)
    && (st.fixed.Some? ==> st.fixed.value < k)
  }

  predicate MessageOk(fields: seq<Field>, cs: seq<Content>) {
    && |cs| == |fields| && TagsOk(fields) && GroupsOk(fields, cs)
    && forall i | 0 <= i < |cs| :: FieldInBounds(fields[i], cs[i])
  }

  lemma {:induction false} MixedNext(fields: seq<Field>, cs: seq<Content>, k: nat)
    requires MessageOk(fields, cs) && k < |fields| && (cs[k].Single? ==> Written(fields[k], cs[k]))
    ensures Replace(fields, k, Mixed(fields, cs, k), NormalField(fields[k], cs[k])) == Mixed(fields, cs, k + 1)
  {
    assert FieldInBounds(fields[k], cs[k]);
    forall i | 0 <= i < |fields|
      ensures Replace(fields, k, Mixed(fields, cs, k), NormalField(fields[k], cs[k]))[i] == Mixed(fields, cs, k + 1)[i]
    {
      assert FieldInBounds(fields[i], cs[i]);
    }
  }

  lemma {:induction false} SeenNext(fields: seq<Field>, k: nat, seen: set<nat>)
    requires k < |fields| && AllSeen(fields, k, seen)
    ensures AllSeen(fields, k + 1, Seen(fields, k, seen))
  {
  }

  lemma {:induction false} SingleStep(fields: seq<Field>, cs: seq<Content>, k: nat, st: Progress, rest: Bytes)
    returns (next: Progress)
    requires MessageOk(fields, cs) && k < |fields| && Before(fields, cs, k, st)
    requires cs[k].Single? && Written(fields[k], cs[k])
    ensures Before(fields, cs, k + 1, next)
    ensures DecLoop(fields, st, EncField(fields[k], cs[k]) + rest) == DecLoop(fields, next, rest)
    decreases fields, 2
  {
    var f, c := fields[k], cs[k];
    assert FieldInBounds(f, c);
    var value := EncValue(f.ltype, c.value);
    ReadsSingle(f, c, rest);
    LoopStep(fields, k, st, st, WireType(f.ltype), value + rest, NormalField(f, c), rest, EncField(f, c) + rest);
    next := Stored(fields, k, st, NormalField(f, c));
    MixedNext(fields, cs, k);
    SeenNext(fields, k, st.seen);
  }

  lemma {:induction false} SkipStep(fields: seq<Field>, cs: seq<Content>, k: nat, st: Progress)
    requires MessageOk(fields, cs) && k < |fields| && Before(fields, cs, k, st) && EncField(fields[k], cs[k]) == []
    requires if cs[k].Single? then !Written(fields[k], cs[k]) else cs[k].items == []
    ensures Before(fields, cs, k + 1, st)
  {
    assert FieldInBounds(fields[k], cs[k]);
    if cs[k].Single? {
      UnwrittenIsDefault(fields[k], cs[k]);
    } else {
      EmptyIsDefault(fields[k]);
    }
    MixedSame(fields, cs, k);
  }

  lemma {:induction false} EmptyIsDefault(f: Field)
    requires FieldInBounds(f, Many([]))
    ensures NormalField(f, Many([])) == Default(f)
  {
    assert NormalItems(f.ltype, []) == [];
    assert seq(0, _ => ZeroOf(f.ltype)) == [];
  }

  lemma {:induction false} MixedSame(fields: seq<Field>, cs: seq<Content>, k: nat)
    requires |cs| == |fields| && k < |fields| && NormalField(fields[k], cs[k]) == Default(fields[k])
    ensures Mixed(fields, cs, k) == Mixed(fields, cs, k + 1)
  {
    forall i | 0 <= i < |fields| ensures Mixed(fields, cs, k)[i] == Mixed(fields, cs, k + 1)[i] {
    }
  }

  /** The array at `k` with the first `j` items in it. */
  ghost predicate Filling(fields: seq<Field>, cs: seq<Content>, k: nat, j: nat, st: Progress)
    requires |cs| == |fields| && k < |fields| && cs[k].Many? && j <= |cs[k].items|
  {
    && st.cs == Mixed(fields, cs, k)[k := Many(NormalItems(fields[k].ltype, cs[k].items[..j]))]
    && AllSeen(fields, k, st.seen)
    && if fields[k].htype.Repeated? && !fields[k].htype.counted then st.fixed == Some(k)
       else Filled(fields, st) && (st.fixed.Some? ==> st.fixed.value < k)
  }

  lemma {:induction false} BeginArray(fields: seq<Field>, cs: seq<Content>, k: nat, st: Progress) returns (begun: Progress)
    requires MessageOk(fields, cs) && k < |fields| && Before(fields, cs, k, st) && cs[k].Many?
    ensures BeginFixed(fields, k, st) == Some(begun) && Filling(fields, cs, k, 0, begun)
    ensures begun.cs[k] == Many([])
  {
    assert FieldInBounds(fields[k], cs[k]);
    begun := BeginFixed(fields, k, st).value;
    assert NormalItems(fields[k].ltype, cs[k].items[..0]) == [];
    assert begun.cs == Mixed(fields, cs, k)[k := Many([])];
  }

  lemma {:induction false} ArrayDone(fields: seq<Field>, cs: seq<Content>, k: nat, st: Progress)
    requires MessageOk(fields, cs) && k < |fields| && cs[k].Many? && Filling(fields, cs, k, |cs[k].items|, st)
    ensures Before(fields, cs, k + 1, st)
  {
    assert FieldInBounds(fields[k], cs[k]);
    assert cs[k].items[..|cs[k].items|] == cs[k].items;
    assert st.cs == Mixed(fields, cs, k + 1);
  }

  lemma {:induction false} ArrayStored(fields: seq<Field>, cs: seq<Content>, k: nat, i: nat, j: nat, st: Progress)
    requires MessageOk(fields, cs) && k < |fields| && cs[k].Many? && i <= |cs[k].items| && j <= |cs[k].items|
    requires Filling(fields, cs, k, i, st)
    ensures Filling(fields, cs, k, j, Stored(fields, k, st, Many(NormalItems(fields[k].ltype, cs[k].items[..j]))))
  {
    assert FieldInBounds(fields[k], cs[k]);
    var next := Stored(fields, k, st, Many(NormalItems(fields[k].ltype, cs[k].items[..j])));
    assert next.cs == Mixed(fields, cs, k)[k := Many(NormalItems(fields[k].ltype, cs[k].items[..j]))];
  }

  lemma {:induction false} PackedLoop(fields: seq<Field>, k: nat, c: Content, st: Progress, begun: Progress, rest: Bytes)
    requires TagsOk(fields) && k < |fields| && |st.cs| == |fields| && |begun.cs| == |fields|
    requires FieldInBounds(fields[k], c) && c.Many? && c.items != [] && Packable(fields[k].ltype)
    requires BeginFixed(fields, k, st) == Some(begun) && begun.cs[k] == Many([])
    ensures DecLoop(fields, st, EncField(fields[k], c) + rest)
            == DecLoop(fields, Stored(fields, k, begun, NormalField(fields[k], c)), rest)
    decreases fields, 1
  {
    var f := fields[k];
    var body := LengthPrefixed(EncItems(f.ltype, c.items));
    ReadsPackedField(f, c, rest);
    LoopStep(fields, k, st, begun, WT_STRING, body + rest, NormalField(f, c), rest, EncField(f, c) + rest);
  }

  lemma {:induction false} PackedStep(fields: seq<Field>, cs: seq<Content>, k: nat, st: Progress, rest: Bytes)
    returns (next: Progress)
    requires MessageOk(fields, cs) && k < |fields| && Before(fields, cs, k, st)
    requires cs[k].Many? && cs[k].items != [] && Packable(fields[k].ltype)
    ensures Before(fields, cs, k + 1, next)
    ensures DecLoop(fields, st, EncField(fields[k], cs[k]) + rest) == DecLoop(fields, next, rest)
    decreases fields, 2
  {
    assert FieldInBounds(fields[k], cs[k]);
    var begun := BeginArray(fields, cs, k, st);
    PackedLoop(fields, k, cs[k], st, begun, rest);
    assert cs[k].items[..|cs[k].items|] == cs[k].items;
    next := Stored(fields, k, begun, NormalField(fields[k], cs[k]));
    ArrayStored(fields, cs, k, 0, |cs[k].items|, begun);
    ArrayDone(fields, cs, k, next);
  }

  /** Items one by one, from the `j`-th on. */
  lemma {:induction false} UnpackedSteps(fields: seq<Field>, cs: seq<Content>, k: nat, j: nat, st: Progress, rest: Bytes)
    returns (next: Progress)
    requires MessageOk(fields, cs) && k < |fields| && cs[k].Many? && !Packable(fields[k].ltype)
    requires j <= |cs[k].items| && Filling(fields, cs, k, j, st)
    ensures Before(fields, cs, k + 1, next)
    ensures DecLoop(fields, st, EncUnpacked(fields[k], cs[k].items[j..]) + rest) == DecLoop(fields, next, rest)
    decreases fields, 2, |cs[k].items| - j
  {
    var f, items := fields[k], cs[k].items;
    if j == |items| {
      ArrayDone(fields, cs, k, st);
      assert EncUnpacked(f, items[j..]) + rest == rest;
      next := st;
    } else {
      var after := EncUnpacked(f, items[j + 1..]) + rest;
      OneItem(fields, cs, k, j, st, st, after);
      UnpackedHead(f, items, j, rest);
      ArrayStored(fields, cs, k, j, j + 1, st);
      next := UnpackedSteps(fields, cs, k, j + 1, Stored(fields, k, st, Many(NormalItems(f.ltype, items[..j + 1]))), rest);
    }
  }

  lemma {:induction false} OneItem(fields: seq<Field>, cs: seq<Content>, k: nat, j: nat, st: Progress, begun: Progress,
                    after: Bytes)
    requires MessageOk(fields, cs) && k < |fields| && cs[k].Many? && !Packable(fields[k].ltype)
    requires j < |cs[k].items| && Filling(fields, cs, k, j, begun)
    requires |st.cs| == |fields| && (st == begun || BeginFixed(fields, k, st) == Some(begun))
    ensures DecLoop(fields, st, Key(fields[k].tag, WireType(fields[k].ltype)) + (EncValue(fields[k].ltype, cs[k].items[j]) + after))
            == DecLoop(fields, Stored(fields, k, begun, Many(NormalItems(fields[k].ltype, cs[k].items[..j + 1]))), after)
    decreases fields, 1
  {
    var f, items := fields[k], cs[k].items;
    assert FieldInBounds(f, cs[k]);
    ReadsItem(f, items, j, after);
    LoopStep(fields, k, st, begun, WireType(f.ltype), EncValue(f.ltype, items[j]) + after,
             Many(NormalItems(f.ltype, items[..j + 1])), after,
             Key(f.tag, WireType(f.ltype)) + (EncValue(f.ltype, items[j]) + after));
  }

  lemma {:induction false} UnpackedHead(f: Field, items: seq<Value>, j: nat, rest: Bytes)
    requires j < |items|
    ensures EncUnpacked(f, items[j..]) + rest
            == Key(f.tag, WireType(f.ltype)) + (EncValue(f.ltype, items[j]) + (EncUnpacked(f, items[j + 1..]) + rest))
  {
    assert items[j..][1..] == items[j + 1..];
  }

  lemma {:induction false} UnpackedStep(fields: seq<Field>, cs: seq<Content>, k: nat, st: Progress, rest: Bytes)
    returns (next: Progress)
    requires MessageOk(fields, cs) && k < |fields| && Before(fields, cs, k, st)
    requires cs[k].Many? && cs[k].items != [] && !Packable(fields[k].ltype)
    ensures Before(fields, cs, k + 1, next)
    ensures DecLoop(fields, st, EncField(fields[k], cs[k]) + rest) == DecLoop(fields, next, rest)
    decreases fields, 3
  {
    var f, items := fields[k], cs[k].items;
    var begun := BeginArray(fields, cs, k, st);
    var after := EncUnpacked(f, items[1..]) + rest;
    OneItem(fields, cs, k, 0, st, begun, after);
    UnpackedHead(f, items, 0, rest);
    assert items[0..] == items;
    ArrayStored(fields, cs, k, 0, 1, begun);
    next := UnpackedSteps(fields, cs, k, 1, Stored(fields, k, begun, Many(NormalItems(f.ltype, items[..1]))), rest);
  }

  lemma {:induction false} FieldStep(fields: seq<Field>, cs: seq<Content>, k: nat, st: Progress, rest: Bytes)
    returns (next: Progress)
    requires MessageOk(fields, cs) && k < |fields| && Before(fields, cs, k, st)
    ensures Before(fields, cs, k + 1, next)
    ensures DecLoop(fields, st, EncField(fields[k], cs[k]) + rest) == DecLoop(fields, next, rest)
    decreases fields, 4
  {
    if cs[k].Single? && Written(fields[k], cs[k]) {
      next := SingleStep(fields, cs, k, st, rest);
    } else if cs[k].Single? || cs[k].items == [] {
      SkipStep(fields, cs, k, st);
      assert EncField(fields[k], cs[k]) + rest == rest;
      next := st;
    } else if Packable(fields[k].ltype) {
      next := PackedStep(fields, cs, k, st, rest);
    } else {
      next := UnpackedStep(fields, cs, k, st, rest);
    }
  }

  lemma {:induction false} ReadsFrom(fields: seq<Field>, cs: seq<Content>, k: nat, st: Progress)
    requires MessageOk(fields, cs) && k <= |fields| && Before(fields, cs, k, st)
    ensures DecLoop(fields, st, EncFrom(fields, cs, k)) == Some(NormalAll(fields, cs))
    decreases fields, 5, |fields| - k
  {
    if k == |fields| {
      assert Mixed(fields, cs, k) == NormalAll(fields, cs);
    } else {
      var next := FieldStep(fields, cs, k, st, EncFrom(fields, cs, k + 1));
      ReadsFrom(fields, cs, k + 1, next);
    }
  }

  lemma {:induction false} ReadsMessage(fields: seq<Field>, cs: seq<Content>)
    requires MessageOk(fields, cs)
    ensures DecLoop(fields, Progress(Defaults(fields), {}, None), EncFrom(fields, cs, 0)) == Some(NormalAll(fields, cs))
    decreases fields, 6
  {
    assert Defaults(fields) == Mixed(fields, cs, 0);
    ReadsFrom(fields, cs, 0, Progress(Defaults(fields), {}, None));
  }

  /** pb_decode of what pb_encode wrote: every field that was there has its value again, every other
      one its default; required, optional, repeated, packed and union fields, nested to any depth. */
  lemma {:induction false} RoundTrip(fields: seq<Field>, cs: seq<Content>)
    requires MessageOk(fields, cs)
    ensures Decode(fields, EncFrom(fields, cs, 0)) == Some(NormalAll(fields, cs))
  {
    ReadsMessage(fields, cs);
  }

  // ---------- messages that come back unchanged ----------

  /** What is not there is at its default, at every level. */
  predicate Tidy(lt: LType, v: Value)
    decreases lt, 0
  {
    v.Msg? && lt.SubType? ==>
      forall i | 0 <= i < |lt.fields| && i < |v.cs| :: TidyField(lt.fields[i], v.cs[i])
  }

  predicate TidyField(f: Field, c: Content)
    decreases f, 1
  {
    match c
    case Single(present, value) => if present then Tidy(f.ltype, value) else value == ZeroOf(f.ltype)
    case Many(items) => forall i | 0 <= i < |items| :: Tidy(f.ltype, items[i])
  }

  lemma {:induction false} TidyIsNormal(lt: LType, v: Value)
    requires Tidy(lt, v)
    ensures Normal(lt, v) == v
    decreases lt, 0
  {
    if v.Msg? && lt.SubType? && |v.cs| == |lt.fields| {
      forall i | 0 <= i < |v.cs| ensures NormalField(lt.fields[i], v.cs[i]) == v.cs[i] {
        assert TidyField(lt.fields[i], v.cs[i]);
        TidyFieldIsNormal(lt.fields[i], v.cs[i]);
      }
      assert NormalAll(lt.fields, v.cs) == v.cs;
    }
  }

  lemma {:induction false} TidyFieldIsNormal(f: Field, c: Content)
    requires TidyField(f, c)
    ensures NormalField(f, c) == c
    decreases f, 1
  {
    match c
    case Single(present, value) =>
      if present {
        TidyIsNormal(f.ltype, value);
      }
    case Many(items) =>
      forall i | 0 <= i < |items| ensures Normal(f.ltype, items[i]) == items[i] {
        TidyIsNormal(f.ltype, items[i]);
      }
      assert NormalItems(f.ltype, items) == items;
  }

  /** A message whose absent fields are at their defaults comes back exactly as it was. */
  lemma {:induction false} TidyRoundTrip(fields: seq<Field>, cs: seq<Content>)
    requires MessageOk(fields, cs) && Tidy(SubType(fields), Msg(cs))
    ensures Decode(fields, EncFrom(fields, cs, 0)) == Some(cs)
  {
    RoundTrip(fields, cs);
    TidyIsNormal(SubType(fields), Msg(cs));
  }
}
