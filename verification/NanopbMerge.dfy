/** What a field adds to a message that holds something already: arrays grow item by item or run by run,
    and a submessage that comes again changes only the fields it has (pb_decode.c). */
module NanopbMerge {
  import opened Dbformat
  import opened Coding
  import opened NanopbWire
  import opened Nanopb
  import opened NanopbRoundTrip
  import opened NanopbUnknown

  // ---------- arrays ----------

  /** Field `k` is an array that takes more items: one with a count, or the one without that is being
      filled. */
  predicate Takes(fields: seq<Field>, k: nat, st: Progress) {
    && TagsOk(fields) && k < |fields| && |st.cs| == |fields| && fields[k].htype.Repeated? && st.cs[k].Many?
    && (fields[k].htype.counted || st.fixed == Some(k)) && |st.cs[k].items| <= fields[k].htype.max
  }

  function Grown(fields: seq<Field>, k: nat, st: Progress, more: seq<Value>): (r: Progress)
    requires Takes(fields, k, st)
    ensures |r.cs| == |fields|
  {
    st.(cs := st.cs[k := Many(st.cs[k].items + more)])
  }

  predicate Room(fields: seq<Field>, k: nat, st: Progress, n: nat)
    requires Takes(fields, k, st)
  {
    |st.cs[k].items| + n <= fields[k].htype.max
  }

  lemma {:induction false} ArrayStored(fields: seq<Field>, k: nat, st: Progress, more: seq<Value>)
    requires Takes(fields, k, st)
    ensures Stored(fields, k, st, Many(st.cs[k].items + more)) == Grown(fields, k, st, more)
    ensures BeginFixed(fields, k, st) == Some(st)
  {
  }

  /** One more item with a key of its own: it joins the array, or there is no room and all is refused. */
  lemma {:induction false} ItemTaken(fields: seq<Field>, k: nat, st: Progress, v: Value, s: Bytes)
    requires Takes(fields, k, st) && InBounds(fields[k].ltype, v)
    ensures var lt := fields[k].ltype;
            Walk(fields, st, Key(fields[k].tag, WireType(lt)) + EncValue(lt, v) + s)
            == if Room(fields, k, st, 1) then Walk(fields, Grown(fields, k, st, [Normal(lt, v)]), s) else None
  {
    var f := fields[k];
    var body := EncValue(f.ltype, v) + s;
    assert Key(f.tag, WireType(f.ltype)) + EncValue(f.ltype, v) + s == Key(f.tag, WireType(f.ltype)) + body;
    KeyReads(f.tag, WireType(f.ltype), body, Key(f.tag, WireType(f.ltype)) + body);
    FindsTag(fields, k);
    ReadsValue(f.ltype, v, s);
    ArrayStored(fields, k, st, [Normal(f.ltype, v)]);
  }

  lemma {:induction false} GrownTwice(fields: seq<Field>, k: nat, st: Progress, lt: LType, items: seq<Value>)
    requires Takes(fields, k, st) && items != [] && Room(fields, k, st, 1)
    ensures var once := Grown(fields, k, st, [Normal(lt, items[0])]);
            && Takes(fields, k, once)
            && Grown(fields, k, once, NormalItems(lt, items[1..])) == Grown(fields, k, st, NormalItems(lt, items))
  {
    var a := st.cs[k].items;
    assert a + [Normal(lt, items[0])] + NormalItems(lt, items[1..]) == a + NormalItems(lt, items);
  }

  /** Items one after the other. */
  lemma {:induction false} ItemsTaken(fields: seq<Field>, k: nat, st: Progress, items: seq<Value>, s: Bytes)
    requires Takes(fields, k, st) && forall i | 0 <= i < |items| :: InBounds(fields[k].ltype, items[i])
    ensures Walk(fields, st, EncUnpacked(fields[k], items) + s)
            == if Room(fields, k, st, |items|) then Walk(fields, Grown(fields, k, st, NormalItems(fields[k].ltype, items)), s)
               else None
    decreases |items|
  {
    var f := fields[k];
    if items == [] {
      assert EncUnpacked(f, items) + s == s;
      assert st.cs[k].items + NormalItems(f.ltype, items) == st.cs[k].items;
      assert st.cs[k := st.cs[k]] == st.cs;
    } else {
      UnpackedFirst(f, items, s);
      ItemTaken(fields, k, st, items[0], EncUnpacked(f, items[1..]) + s);
      if Room(fields, k, st, 1) {
        GrownTwice(fields, k, st, f.ltype, items);
        ItemsTaken(fields, k, Grown(fields, k, st, [Normal(f.ltype, items[0])]), items[1..], s);
      }
    }
  }

  lemma {:induction false} PackedTooMany(lt: LType, done: seq<Value>, items: seq<Value>, max: nat)
    requires Packable(lt) && |done| <= max < |done| + |items|
    requires forall i | 0 <= i < |items| :: InBounds(lt, items[i])
    ensures DecPacked(lt, done, max, EncItems(lt, items)) == None
    decreases |items|
  {
    PackableIsInt(lt, items[0]);
    if |done| < max {
      ReadsValue(lt, items[0], EncItems(lt, items[1..]));
      PackedTooMany(lt, done + [items[0]], items[1..], max);
    }
  }

  /** A packed run of items: all of them join the array, or all is refused. */
  lemma {:induction false} RunTaken(fields: seq<Field>, k: nat, st: Progress, items: seq<Value>, s: Bytes)
    requires Takes(fields, k, st) && Packable(fields[k].ltype) && |EncItems(fields[k].ltype, items)| < TWO32
    requires forall i | 0 <= i < |items| :: InBounds(fields[k].ltype, items[i])
    ensures var lt := fields[k].ltype;
            Walk(fields, st, Key(fields[k].tag, WT_STRING) + LengthPrefixed(EncItems(lt, items)) + s)
            == if Room(fields, k, st, |items|) then Walk(fields, Grown(fields, k, st, NormalItems(lt, items)), s) else None
  {
    var f, had := fields[k], st.cs[k].items;
    var b := EncItems(f.ltype, items);
    var body := LengthPrefixed(b) + s;
    assert Key(f.tag, WT_STRING) + LengthPrefixed(b) + s == Key(f.tag, WT_STRING) + body;
    KeyReads(f.tag, WT_STRING, body, Key(f.tag, WT_STRING) + body);
    FindsTag(fields, k);
    ReadsSubstream(b, s);
    ArrayStored(fields, k, st, NormalItems(f.ltype, items));
    if Room(fields, k, st, |items|) {
      ReadsPacked(f.ltype, had, items, f.htype.max);
    } else {
      PackedTooMany(f.ltype, had, items, f.htype.max);
    }
  }

  /** Numbers may come packed or one by one, in runs of any length, behind whatever is there already: the
      message is the same, and so is the refusal where there is no room. */
  lemma {:induction false} PackingDoesNotMatter(fields: seq<Field>, k: nat, st: Progress, items: seq<Value>, s: Bytes)
    requires Takes(fields, k, st) && Packable(fields[k].ltype) && |EncItems(fields[k].ltype, items)| < TWO32
    requires forall i | 0 <= i < |items| :: InBounds(fields[k].ltype, items[i])
    ensures Walk(fields, st, EncField(fields[k], Many(items)) + s) == Walk(fields, st, EncUnpacked(fields[k], items) + s)
  {
    ItemsTaken(fields, k, st, items, s);
    if items == [] {
      assert EncField(fields[k], Many(items)) == [] == EncUnpacked(fields[k], items);
    } else {
      RunTaken(fields, k, st, items, s);
    }
  }

  // ---------- submessages ----------

  /** Single values that stand for themselves. */
  predicate Plain(fields: seq<Field>) {
    forall i | 0 <= i < |fields| :: PlainField(fields[i])
  }

  predicate PlainField(f: Field) {
    (f.htype.Required? || f.htype.Optional?) && !f.ltype.SubType?
  }

  /** `old` with the fields that are written of `new`. */
  function Merged(fields: seq<Field>, old': seq<Content>, new': seq<Content>, k: nat): (r: seq<Content>)
    requires |old'| == |fields| && |new'| == |fields|
    ensures |r| == |fields|
  {
    seq(|fields|, i requires 0 <= i < |fields| =>
      if i < k && Nanopb.Written(fields[i], new'[i]) && new'[i].Single? then Single(true, new'[i].value) else old'[i])
  }

  predicate PlainMessage(fields: seq<Field>, cs: seq<Content>) {
    Plain(fields) && |cs| == |fields| && forall i | 0 <= i < |fields| :: FieldInBounds(fields[i], cs[i])
  }

  predicate Singles(fields: seq<Field>, cs: seq<Content>) {
    |cs| == |fields| && forall i | 0 <= i < |cs| :: cs[i].Single?
  }

  lemma {:induction false} MergedNext(fields: seq<Field>, had: seq<Content>, cs: seq<Content>, k: nat)
    requires Singles(fields, had) && PlainMessage(fields, cs) && k < |fields|
    ensures Merged(fields, had, cs, k + 1)
            == if Nanopb.Written(fields[k], cs[k]) then Replace(fields, k, Merged(fields, had, cs, k), Single(true, cs[k].value))
               else Merged(fields, had, cs, k)
  {
    assert PlainField(fields[k]) && FieldInBounds(fields[k], cs[k]);
  }

  /** The fields of a message, read into one that holds `had`: what is written takes its place, the rest
      stays. */
  lemma {:induction false} MergesFrom(fields: seq<Field>, had: seq<Content>, cs: seq<Content>, k: nat, st: Progress)
    returns (end: Progress)
    requires TagsOk(fields) && Singles(fields, had) && PlainMessage(fields, cs) && k <= |fields|
    requires st.cs == Merged(fields, had, cs, k) && AllSeen(fields, k, st.seen) && st.fixed == None
    ensures Walk(fields, st, EncFrom(fields, cs, k)) == Some(end)
    ensures end.cs == Merged(fields, had, cs, |fields|) && AllSeen(fields, |fields|, end.seen) && end.fixed == None
    decreases |fields| - k
  {
    if k == |fields| {
      end := st;
    } else {
      var next := MergesNext(fields, had, cs, k, st);
      end := MergesFrom(fields, had, cs, k + 1, next);
    }
  }

  lemma {:induction false} MergesNext(fields: seq<Field>, had: seq<Content>, cs: seq<Content>, k: nat, st: Progress)
    returns (next: Progress)
    requires TagsOk(fields) && Singles(fields, had) && PlainMessage(fields, cs) && k < |fields|
    requires st.cs == Merged(fields, had, cs, k) && AllSeen(fields, k, st.seen) && st.fixed == None
    ensures next.cs == Merged(fields, had, cs, k + 1) && AllSeen(fields, k + 1, next.seen) && next.fixed == None
    ensures Walk(fields, st, EncFrom(fields, cs, k)) == Walk(fields, next, EncFrom(fields, cs, k + 1))
  {
    var rest := EncFrom(fields, cs, k + 1);
    assert PlainField(fields[k]) && FieldInBounds(fields[k], cs[k]);
    MergedNext(fields, had, cs, k);
    SeenNext(fields, k, st.seen);
    if Nanopb.Written(fields[k], cs[k]) {
      FieldTaken(fields, k, st, cs[k], rest);
      next := st.(cs := Replace(fields, k, st.cs, Single(true, cs[k].value)), seen := Seen(fields, k, st.seen));
    } else {
      assert EncField(fields[k], cs[k]) + rest == rest;
      next := st;
    }
  }

  /** A submessage that comes again is merged into what is there: its fields that are written take their
      places, the others keep what the first one gave them. */
  lemma {:induction false} SubmessageMerges(fields: seq<Field>, k: nat, st: Progress, had: seq<Content>, cs: seq<Content>, s: Bytes)
    requires TagsOk(fields) && k < |fields| && |st.cs| == |fields| && fields[k].ltype.SubType? && PlainHolder(fields[k])
    requires var sub := fields[k].ltype.fields;
             && TagsOk(sub) && Singles(sub, had) && PlainMessage(sub, cs) && |EncFrom(sub, cs, 0)| < TWO32
             && st.cs[k].Single? && st.cs[k].value == Msg(had)
    ensures var sub := fields[k].ltype.fields;
            var merged := Single(true, Msg(Merged(sub, had, cs, |sub|)));
            Walk(fields, st, Key(fields[k].tag, WT_STRING) + LengthPrefixed(EncFrom(sub, cs, 0)) + s)
            == Walk(fields, Stored(fields, k, st, merged), s)
  {
    var f, sub := fields[k], fields[k].ltype.fields;
    var b := EncFrom(sub, cs, 0);
    ReadsSubstream(b, s);
    SubmessageRead(sub, had, cs);
    assert Key(f.tag, WT_STRING) + LengthPrefixed(b) + s == Key(f.tag, WT_STRING) + (LengthPrefixed(b) + s);
    ValueStored(fields, k, st, WT_STRING, LengthPrefixed(b) + s, Msg(Merged(sub, had, cs, |sub|)), s);
  }

  lemma {:induction false} ValueStored(fields: seq<Field>, k: nat, st: Progress, wireType: nat, body: Bytes, v: Value, s: Bytes)
    requires TagsOk(fields) && k < |fields| && |st.cs| == |fields| && PlainHolder(fields[k]) && st.cs[k].Single? && wireType < 8
    requires DecValue(fields[k].ltype, st.cs[k].value, body) == Some((v, s))
    ensures Walk(fields, st, Key(fields[k].tag, wireType) + body) == Walk(fields, Stored(fields, k, st, Single(true, v)), s)
  {
    KeyReads(fields[k].tag, wireType, body, Key(fields[k].tag, wireType) + body);
    FindsTag(fields, k);
  }

  predicate PlainHolder(f: Field) {
    f.htype.Required? || f.htype.Optional?
  }

  lemma {:induction false} SubmessageRead(sub: seq<Field>, had: seq<Content>, cs: seq<Content>)
    requires TagsOk(sub) && Singles(sub, had) && PlainMessage(sub, cs)
    ensures DecLoop(sub, Progress(had, {}, None), EncFrom(sub, cs, 0)) == Some(Merged(sub, had, cs, |sub|))
  {
    assert Merged(sub, had, cs, 0) == had;
    var end := MergesFrom(sub, had, cs, 0, Progress(had, {}, None));
  }
}
