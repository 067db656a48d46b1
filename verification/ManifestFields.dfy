/** Manifest records that no writer wrote, or that end early: what VersionEdit::DecodeFrom accepts and
    what it refuses (db/version_edit.cc). */
module ManifestFields {
  import opened Dbformat
  import opened Coding
  import opened ManifestEdit

  /** What the bytes of a field can hold at all: 64-bit numbers, 32-bit levels and lengths. */
  predicate Wide(item: Item) {
    match item
    case Comparator(name) => |name| < TWO32
    case LogNumber(n) => n < TWO64
    case PrevLogNumber(n) => n < TWO64
    case NextFileNumber(n) => n < TWO64
    case LastSequence(n) => n < TWO64
    case CompactPointer(level, key) => level < TWO32 && |key| < TWO32
    case DeletedFile(level, n) => level < TWO32 && n < TWO64
    case NewFile(level, f) =>
      level < TWO32 && f.number < TWO64 && f.size < TWO64 && |f.smallest| < TWO32 && |f.largest| < TWO32
  }

  function ProblemOf(item: Item): Problem {
    match item
    case Comparator(_) => ComparatorName
    case LogNumber(_) => LogNumberField
    case PrevLogNumber(_) => PrevLogNumberField
    case NextFileNumber(_) => NextFileField
    case LastSequence(_) => LastSequenceField
    case CompactPointer(_, _) => CompactionPointer
    case DeletedFile(_, _) => DeletedFileField
    case NewFile(_, _) => NewFileEntry
  }

  // ---------- fields out of bounds ----------

  lemma {:induction false} LevelTakenExactlyWhen(level: nat, rest: Bytes)
    requires level < TWO32
    ensures TakeLevel(Varint(level) + rest) == if level < NUM_LEVELS then Some((level, rest)) else None
  {
    TakesVarint(level, rest);
  }

  lemma {:induction false} KeyTakenExactlyWhen(key: Bytes, rest: Bytes)
    requires |key| < TWO32
    ensures TakeKey(LengthPrefixed(key) + rest) == if key == [] then None else Some((key, rest))
  {
    LengthPrefixedRoundTrip(key, rest);
  }

  lemma {:induction false} NewFileTakenExactlyWhen(level: nat, f: FileMeta, rest: Bytes)
    requires Wide(NewFile(level, f))
    ensures TakeNewFile(Payload(NewFile(level, f)) + rest)
            == if Holds(NewFile(level, f)) then Field(NewFile(level, f), rest) else Bad(NewFileEntry)
  {
    var s4 := LengthPrefixed(f.largest);
    var s3 := LengthPrefixed(f.smallest) + s4;
    var s2 := Varint(f.size) + s3;
    var s1 := Varint(f.number) + s2;
    Assoc(Varint(level), s1, rest);
    Assoc(Varint(f.number), s2, rest);
    Assoc(Varint(f.size), s3, rest);
    Assoc(LengthPrefixed(f.smallest), s4, rest);
    LevelTakenExactlyWhen(level, s1 + rest);
    TakesVarint(f.number, s2 + rest);
    TakesVarint(f.size, s3 + rest);
    KeyTakenExactlyWhen(f.smallest, s4 + rest);
    KeyTakenExactlyWhen(f.largest, rest);
  }

  lemma {:induction false} PointerTakenExactlyWhen(level: nat, key: Bytes, rest: Bytes)
    requires Wide(CompactPointer(level, key))
    ensures TakeField(5, Payload(CompactPointer(level, key)) + rest)
            == if Holds(CompactPointer(level, key)) then Field(CompactPointer(level, key), rest) else Bad(CompactionPointer)
  {
    Assoc(Varint(level), LengthPrefixed(key), rest);
    LevelTakenExactlyWhen(level, LengthPrefixed(key) + rest);
    KeyTakenExactlyWhen(key, rest);
  }

  lemma {:induction false} DeletedTakenExactlyWhen(level: nat, n: nat, rest: Bytes)
    requires Wide(DeletedFile(level, n))
    ensures TakeField(6, Payload(DeletedFile(level, n)) + rest)
            == if Holds(DeletedFile(level, n)) then Field(DeletedFile(level, n), rest) else Bad(DeletedFileField)
  {
    Assoc(Varint(level), Varint(n), rest);
    LevelTakenExactlyWhen(level, Varint(n) + rest);
    TakesVarint(n, rest);
  }

  /** A field as it is written is taken if and only if its level exists and its keys are not empty. */
  lemma {:induction false} TakenExactlyWhen(item: Item, rest: Bytes)
    requires Wide(item)
    ensures TakeField(Tag(item), Payload(item) + rest) == if Holds(item) then Field(item, rest) else Bad(ProblemOf(item))
  {
    if Holds(item) {
      TakesField(item, rest);
    } else {
      match item
      case CompactPointer(level, key) => PointerTakenExactlyWhen(level, key, rest);
      case DeletedFile(level, n) => DeletedTakenExactlyWhen(level, n, rest);
      case NewFile(level, f) => NewFileTakenExactlyWhen(level, f, rest);
    }
  }

  /** Decoding goes on behind the fields of a writer. */
  lemma {:induction false} DecodesOn(e: Edit, items: seq<Item>, rest: Bytes)
    requires AllHold(items)
    ensures Decode(e, ItemsBytes(items) + rest) == Decode(ApplyAll(e, items), rest)
    decreases |items|
  {
    if items == [] {
      assert ItemsBytes(items) + rest == rest;
    } else {
      var tail := ItemsBytes(items[1..]);
      Assoc(Varint(Tag(items[0])), Payload(items[0]) + tail, rest);
      Assoc(Payload(items[0]), tail, rest);
      TakesVarint(Tag(items[0]), Payload(items[0]) + (tail + rest));
      TakesField(items[0], tail + rest);
      DecodesOn(Apply(e, items[0]), items[1..], rest);
    }
  }

  /** The first field that is out of bounds stops the decoding, whatever follows it. */
  lemma {:induction false} OutOfBoundsStops(e: Edit, items: seq<Item>, bad: Item, rest: Bytes)
    requires AllHold(items) && Wide(bad) && !Holds(bad)
    ensures Decode(e, ItemsBytes(items) + (Varint(Tag(bad)) + (Payload(bad) + rest)))
            == (ApplyAll(e, items), Some(ProblemOf(bad)))
  {
    DecodesOn(e, items, Varint(Tag(bad)) + (Payload(bad) + rest));
    TakesVarint(Tag(bad), Payload(bad) + rest);
    TakenExactlyWhen(bad, rest);
  }

  /** A tag that no field has stops it too, whatever follows. */
  lemma {:induction false} UnknownTagStops(e: Edit, items: seq<Item>, tag: nat, rest: Bytes)
    requires AllHold(items) && tag < TWO32 && (forall item: Item :: Tag(item) != tag)
    ensures Decode(e, ItemsBytes(items) + (Varint(tag) + rest)) == (ApplyAll(e, items), Some(UnknownTag))
  {
    DecodesOn(e, items, Varint(tag) + rest);
    TakesVarint(tag, rest);
    NoSuchTag(tag, rest);
  }

  lemma {:induction false} NoSuchTag(tag: nat, s: Bytes)
    requires forall item: Item :: Tag(item) != tag
    ensures TakeField(tag, s) == Bad(UnknownTag)
  {
    assert tag != Tag(Comparator([])) && tag != Tag(LogNumber(0)) && tag != Tag(PrevLogNumber(0));
    assert tag != Tag(NextFileNumber(0)) && tag != Tag(LastSequence(0)) && tag != Tag(CompactPointer(0, []));
    assert tag != Tag(DeletedFile(0, 0)) && tag != Tag(NewFile(0, FileMeta(0, 0, [], [])));
  }

  // ---------- records that end early ----------

  lemma {:induction false} CutPair(a: Bytes, b: Bytes, n: nat)
    requires n <= |a + b|
    ensures (a + b)[..n] == if n < |a| then a[..n] else a + b[..n - |a|]
  {
  }

  lemma {:induction false} CutVarint(v: nat, n: nat)
    requires n < |Varint(v)|
    ensures TakeVarint(Varint(v)[..n], 10, true) == None && TakeLevel(Varint(v)[..n]) == None
  {
    VarintPrefix(v, n, 10);
    VarintPrefix(v, n, 5);
  }

  lemma {:induction false} CutKey(key: Bytes, n: nat)
    requires |key| < TWO32 && n < |LengthPrefixed(key)|
    ensures TakeKey(LengthPrefixed(key)[..n]) == None && TakeString(LengthPrefixed(key)[..n]) == None
  {
    PrefixedCut(key, n);
  }

  lemma {:induction false} CutKeys(smallest: Bytes, largest: Bytes, n: nat)
    requires 0 < |smallest| < TWO32 && |largest| < TWO32 && n < |LengthPrefixed(smallest) + LengthPrefixed(largest)|
    ensures var s := (LengthPrefixed(smallest) + LengthPrefixed(largest))[..n];
            TakeKey(s).Some? ==> TakeKey(TakeKey(s).value.1) == None
  {
    var first := LengthPrefixed(smallest);
    CutPair(first, LengthPrefixed(largest), n);
    if n < |first| {
      CutKey(smallest, n);
    } else {
      TakesKey(smallest, LengthPrefixed(largest)[..n - |first|]);
      CutKey(largest, n - |first|);
    }
  }

  /** The numbers of a file, and then its keys. */
  lemma {:induction false} CutNumbers(f: FileMeta, keys: Bytes, n: nat)
    requires f.number < TWO64 && f.size < TWO64 && n < |Varint(f.number) + (Varint(f.size) + keys)|
    ensures var s := (Varint(f.number) + (Varint(f.size) + keys))[..n];
            TakeVarint(s, 10, true).Some? ==>
              var s2 := TakeVarint(s, 10, true).value.1;
              TakeVarint(s2, 10, true).Some? ==>
                exists m: nat | m < |keys| :: TakeVarint(s2, 10, true).value.1 == keys[..m]
  {
    var first, second := Varint(f.number), Varint(f.size);
    CutPair(first, second + keys, n);
    if n < |first| {
      CutVarint(f.number, n);
    } else {
      var m := n - |first|;
      TakesVarint(f.number, (second + keys)[..m]);
      CutPair(second, keys, m);
      if m < |second| {
        CutVarint(f.size, m);
      } else {
        TakesVarint(f.size, keys[..m - |second|]);
      }
    }
  }

  lemma {:induction false} CutNewFile(level: nat, f: FileMeta, n: nat)
    requires Holds(NewFile(level, f)) && n < |Payload(NewFile(level, f))|
    ensures TakeNewFile(Payload(NewFile(level, f))[..n]) == Bad(NewFileEntry)
  {
    var first, keys := Varint(level), LengthPrefixed(f.smallest) + LengthPrefixed(f.largest);
    var numbers := Varint(f.number) + (Varint(f.size) + keys);
    CutPair(first, numbers, n);
    if n < |first| {
      CutVarint(level, n);
    } else {
      CutBehindLevel(level, f, keys, numbers[..n - |first|]);
    }
  }

  lemma {:induction false} CutBehindLevel(level: nat, f: FileMeta, keys: Bytes, s1: Bytes)
    requires Holds(NewFile(level, f)) && keys == LengthPrefixed(f.smallest) + LengthPrefixed(f.largest)
    requires s1 < Varint(f.number) + (Varint(f.size) + keys)
    ensures TakeNewFile(Varint(level) + s1) == Bad(NewFileEntry)
  {
    TakesLevel(level, s1);
    assert s1 == (Varint(f.number) + (Varint(f.size) + keys))[..|s1|];
    CutNumbers(f, keys, |s1|);
    if TakeVarint(s1, 10, true).Some? {
      var s2 := TakeVarint(s1, 10, true).value.1;
      if TakeVarint(s2, 10, true).Some? {
        var m: nat :| m < |keys| && TakeVarint(s2, 10, true).value.1 == keys[..m];
        CutKeys(f.smallest, f.largest, m);
      }
    }
  }

  lemma {:induction false} CutField(item: Item, n: nat)
    requires Holds(item) && n < |Payload(item)|
    ensures TakeField(Tag(item), Payload(item)[..n]) == Bad(ProblemOf(item))
  {
    match item
    case Comparator(name) => CutKey(name, n);
    case CompactPointer(level, key) =>
      var first := Varint(level);
      CutPair(first, LengthPrefixed(key), n);
      if n < |first| {
        CutVarint(level, n);
      } else {
        TakesLevel(level, LengthPrefixed(key)[..n - |first|]);
        CutKey(key, n - |first|);
      }
    case DeletedFile(level, number) =>
      var first := Varint(level);
      CutPair(first, Varint(number), n);
      if n < |first| {
        CutVarint(level, n);
      } else {
        TakesLevel(level, Varint(number)[..n - |first|]);
        CutVarint(number, n - |first|);
      }
    case NewFile(level, f) => CutNewFile(level, f, n);
    case LogNumber(v) => CutVarint(v, n);
    case PrevLogNumber(v) => CutVarint(v, n);
    case NextFileNumber(v) => CutVarint(v, n);
    case LastSequence(v) => CutVarint(v, n);
  }

  /** How many of the fields lie wholly in the first `n` bytes. */
  function WholeItems(items: seq<Item>, n: nat): (k: nat)
    ensures k <= |items|
    decreases |items|
  {
    if items == [] then 0
    else
      var size := |Varint(Tag(items[0])) + Payload(items[0])|;
      if n < size then 0 else 1 + WholeItems(items[1..], n - size)
  }

  /** What is read of a record that is cut at `n`: the fields wholly in it are set, and an error is
      returned if and only if the cut is not between two fields. */
  predicate CutReads(e: Edit, items: seq<Item>, n: nat)
    requires n <= |ItemsBytes(items)|
  {
    var k := WholeItems(items, n);
    Decode(e, ItemsBytes(items)[..n]).0 == ApplyAll(e, items[..k])
    && (Decode(e, ItemsBytes(items)[..n]).1 == None <==> n == |ItemsBytes(items[..k])|)
  }

  /** This holds of every record and every byte to cut it at. */
  lemma {:induction false} CutRecord(e: Edit, items: seq<Item>, n: nat)
    requires AllHold(items) && n <= |ItemsBytes(items)|
    ensures CutReads(e, items, n)
    decreases |items|
  {
    if items != [] {
      var first := Varint(Tag(items[0])) + Payload(items[0]);
      FirstBytes(items);
      if n < |first| {
        CutPair(first, ItemsBytes(items[1..]), n);
        CutItem(e, items[0], n);
      } else {
        CutRecord(Apply(e, items[0]), items[1..], n - |first|);
        CutLater(e, items, n, n - |first|);
      }
    }
  }

  lemma {:induction false} CutLater(e: Edit, items: seq<Item>, n: nat, m: nat)
    requires items != [] && Holds(items[0]) && n <= |ItemsBytes(items)| && m <= |ItemsBytes(items[1..])|
    requires n == |Varint(Tag(items[0])) + Payload(items[0])| + m && CutReads(Apply(e, items[0]), items[1..], m)
    ensures CutReads(e, items, n)
  {
    FirstBytes(items);
    CutPair(Varint(Tag(items[0])) + Payload(items[0]), ItemsBytes(items[1..]), n);
    DecodesFirst(e, items[0], ItemsBytes(items[1..])[..m]);
    FirstItems(e, items, WholeItems(items[1..], m));
  }

  lemma {:induction false} FirstBytes(items: seq<Item>)
    requires items != []
    ensures ItemsBytes(items) == Varint(Tag(items[0])) + Payload(items[0]) + ItemsBytes(items[1..])
  {
    Assoc(Varint(Tag(items[0])), Payload(items[0]), ItemsBytes(items[1..]));
  }

  lemma {:induction false} DecodesFirst(e: Edit, item: Item, rest: Bytes)
    requires Holds(item)
    ensures Decode(e, Varint(Tag(item)) + Payload(item) + rest) == Decode(Apply(e, item), rest)
  {
    Assoc(Varint(Tag(item)), Payload(item), rest);
    TakesVarint(Tag(item), Payload(item) + rest);
    TakesField(item, rest);
  }

  lemma {:induction false} FirstItems(e: Edit, items: seq<Item>, k: nat)
    requires k < |items|
    ensures ApplyAll(e, items[..k + 1]) == ApplyAll(Apply(e, items[0]), items[1..][..k])
    ensures |ItemsBytes(items[..k + 1])| == |Varint(Tag(items[0])) + Payload(items[0])| + |ItemsBytes(items[1..][..k])|
  {
    assert items[..k + 1][1..] == items[1..][..k];
  }

  lemma {:induction false} CutItem(e: Edit, item: Item, n: nat)
    requires Holds(item) && n < |Varint(Tag(item)) + Payload(item)|
    ensures var (got, problem) := Decode(e, (Varint(Tag(item)) + Payload(item))[..n]);
            got == e && (problem == None <==> n == 0)
  {
    var tag := Varint(Tag(item));
    CutPair(tag, Payload(item), n);
    if n >= |tag| {
      TakesVarint(Tag(item), Payload(item)[..n - |tag|]);
      CutField(item, n - |tag|);
    } else {
      assert tag == [Tag(item)];
    }
  }

  // ---------- any bytes ----------

  /** The fields of the edit are within bounds. */
  predicate InBounds(e: Edit) {
    && (e.comparator.Some? ==> Holds(Comparator(e.comparator.value)))
    && (e.logNumber.Some? ==> Holds(LogNumber(e.logNumber.value)))
    && (e.prevLogNumber.Some? ==> Holds(PrevLogNumber(e.prevLogNumber.value)))
    && (e.nextFileNumber.Some? ==> Holds(NextFileNumber(e.nextFileNumber.value)))
    && (e.lastSequence.Some? ==> Holds(LastSequence(e.lastSequence.value)))
    && (forall i | 0 <= i < |e.compactPointers| :: Holds(CompactPointer(e.compactPointers[i].0, e.compactPointers[i].1)))
    && (forall d | d in e.deleted :: Holds(DeletedFile(d.0, d.1)))
    && (forall i | 0 <= i < |e.added| :: Holds(NewFile(e.added[i].0, e.added[i].1)))
  }

  lemma {:induction false} LevelHolds(s: Bytes)
    ensures TakeLevel(s).Some? ==> TakeLevel(s).value.0 < NUM_LEVELS
  {
  }

  lemma {:induction false} KeyHolds(s: Bytes)
    ensures TakeString(s).Some? ==> |TakeString(s).value.0| < TWO32
    ensures TakeKey(s).Some? ==> 0 < |TakeKey(s).value.0| < TWO32
  {
  }

  lemma {:induction false} NumberHolds(s: Bytes)
    ensures TakeVarint(s, 10, true).Some? ==> TakeVarint(s, 10, true).value.0 < TWO64
  {
  }

  lemma {:induction false} NewFileHolds(s: Bytes)
    ensures TakeNewFile(s).Field? ==> Holds(TakeNewFile(s).item)
  {
    if TakeNewFile(s).Field? {
      LevelHolds(s);
      var s1 := TakeLevel(s).value.1;
      NumberHolds(s1);
      var s2 := TakeVarint(s1, 10, true).value.1;
      NumberHolds(s2);
      var s3 := TakeVarint(s2, 10, true).value.1;
      KeyHolds(s3);
      KeyHolds(TakeKey(s3).value.1);
    }
  }

  lemma {:induction false} TakenHolds(tag: nat, s: Bytes)
    ensures TakeField(tag, s).Field? ==> Holds(TakeField(tag, s).item)
  {
    if TakeField(tag, s).Field? {
      if tag == 7 {
        NewFileHolds(s);
      } else if tag == 1 {
        KeyHolds(s);
      } else if tag in {5, 6} {
        LevelHolds(s);
        KeyHolds(TakeLevel(s).value.1);
        NumberHolds(TakeLevel(s).value.1);
      } else {
        NumberHolds(s);
      }
    }
  }

  lemma {:induction false} AppliedInBounds(e: Edit, item: Item)
    requires InBounds(e) && Holds(item)
    ensures InBounds(Apply(e, item))
  {
  }

  /** Whatever the bytes, the edit read from them names real levels and keys that are not empty. */
  lemma {:induction false} DecodedInBounds(e: Edit, input: Bytes)
    requires InBounds(e)
    ensures InBounds(Decode(e, input).0)
    decreases |input|
  {
    match TakeVarint(input, 5, false)
    case None =>
    case Some((tag, rest)) =>
      TakenHolds(tag, rest);
      match TakeField(tag, rest)
      case Bad(_) =>
      case Field(item, rest') =>
        AppliedInBounds(e, item);
        DecodedInBounds(Apply(e, item), rest');
  }
}
