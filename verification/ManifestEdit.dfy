/** Manifest records: version edits as tagged fields (db/version_edit.cc). */
module ManifestEdit {
  import opened Dbformat
  import opened Coding

  datatype FileMeta = FileMeta(number: nat, size: nat, smallest: Bytes, largest: Bytes)

  /** The contents of an edit; a scalar field that is not set is None. */
  datatype Edit = Edit(
    comparator: Option<Bytes>,
    logNumber: Option<nat>,
    prevLogNumber: Option<nat>,
    nextFileNumber: Option<nat>,
    lastSequence: Option<nat>,
    compactPointers: seq<(nat, Bytes)>,
    deleted: set<(nat, nat)>,
    added: seq<(nat, FileMeta)>)

  /** Clear forgets everything but the compaction pointers. */
  function Cleared(e: Edit): Edit {
    Edit(None, None, None, None, None, e.compactPointers, {}, [])
  }

  datatype Problem =
    | ComparatorName | LogNumberField | PrevLogNumberField | NextFileField | LastSequenceField
    | CompactionPointer | DeletedFileField | NewFileEntry | UnknownTag | InvalidTag

  // ---------- one field ----------

  datatype Item =
    | Comparator(name: Bytes)
    | LogNumber(n: nat)
    | PrevLogNumber(n: nat)
    | NextFileNumber(n: nat)
    | LastSequence(n: nat)
    | CompactPointer(level: nat, key: Bytes)
    | DeletedFile(level: nat, n: nat)
    | NewFile(level: nat, file: FileMeta)

  function Tag(item: Item): nat {
    match item
    case Comparator(_) => 1
    case LogNumber(_) => 2
    case NextFileNumber(_) => 3
    case LastSequence(_) => 4
    case CompactPointer(_, _) => 5
    case DeletedFile(_, _) => 6
    case NewFile(_, _) => 7
    case PrevLogNumber(_) => 9
  }

  function Payload(item: Item): Bytes {
    match item
    case Comparator(name) => LengthPrefixed(name)
    case LogNumber(n) => Varint(n)
    case PrevLogNumber(n) => Varint(n)
    case NextFileNumber(n) => Varint(n)
    case LastSequence(n) => Varint(n)
    case CompactPointer(level, key) => Varint(level) + LengthPrefixed(key)
    case DeletedFile(level, n) => Varint(level) + Varint(n)
    case NewFile(level, f) =>
      Varint(level) + (Varint(f.number) + (Varint(f.size) + (LengthPrefixed(f.smallest) + LengthPrefixed(f.largest))))
  }

  function ItemsBytes(items: seq<Item>): Bytes {
    if items == [] then [] else Varint(Tag(items[0])) + (Payload(items[0]) + ItemsBytes(items[1..]))
  }

  function Apply(e: Edit, item: Item): Edit {
    match item
    case Comparator(name) => e.(comparator := Some(name))
    case LogNumber(n) => e.(logNumber := Some(n))
    case PrevLogNumber(n) => e.(prevLogNumber := Some(n))
    case NextFileNumber(n) => e.(nextFileNumber := Some(n))
    case LastSequence(n) => e.(lastSequence := Some(n))
    case CompactPointer(level, key) => e.(compactPointers := e.compactPointers + [(level, key)])
    case DeletedFile(level, n) => e.(deleted := e.deleted + {(level, n)})
    case NewFile(level, f) => e.(added := e.added + [(level, f)])
  }

  function ApplyAll(e: Edit, items: seq<Item>): Edit
    decreases |items|
  {
    if items == [] then e else ApplyAll(Apply(e, items[0]), items[1..])
  }

  /** What the fields of the source can hold: 64-bit numbers, real levels, keys that are not empty. */
  predicate Holds(item: Item) {
    match item
    case Comparator(name) => |name| < TWO32
    case LogNumber(n) => n < TWO64
    case PrevLogNumber(n) => n < TWO64
    case NextFileNumber(n) => n < TWO64
    case LastSequence(n) => n < TWO64
    case CompactPointer(level, key) => level < NUM_LEVELS && 0 < |key| < TWO32
    case DeletedFile(level, n) => level < NUM_LEVELS && n < TWO64
    case NewFile(level, f) =>
      && level < NUM_LEVELS && f.number < TWO64 && f.size < TWO64
      && 0 < |f.smallest| < TWO32 && 0 < |f.largest| < TWO32
  }

  // ---------- parsing ----------

  /** GetVarint32 and GetVarint64 on a slice: the number and what follows. */
  function TakeVarint(s: Bytes, max: nat, wide: bool): (r: Option<(nat, Bytes)>)
    ensures r.Some? ==> |r.value.1| < |s|
  {
    match ParseVarint(s, max)
    case None => None
    case Some((v, n)) => Some((Truncate(v, wide), s[n..]))
  }

  function TakeString(s: Bytes): (r: Option<(Bytes, Bytes)>)
    ensures r.Some? ==> |r.value.1| < |s|
  {
    ParseLengthPrefixed(s)
  }

  /** GetInternalKey: InternalKey::DecodeFrom refuses the empty string. */
  function TakeKey(s: Bytes): (r: Option<(Bytes, Bytes)>)
    ensures r.Some? ==> |r.value.1| < |s|
  {
    match TakeString(s)
    case None => None
    case Some((key, rest)) => if key == [] then None else Some((key, rest))
  }

  function TakeLevel(s: Bytes): (r: Option<(nat, Bytes)>)
    ensures r.Some? ==> |r.value.1| < |s|
  {
    match TakeVarint(s, 5, false)
    case None => None
    case Some((level, rest)) => if level < NUM_LEVELS then Some((level, rest)) else None
  }

  datatype Parsed = Field(item: Item, rest: Bytes) | Bad(problem: Problem)

  function TakeScalar(s: Bytes, tag: nat): (r: Parsed)
    requires tag in {2, 3, 4, 9}
    ensures r.Field? ==> |r.rest| < |s|
  {
    match TakeVarint(s, 10, true)
    case None =>
      Bad(if tag == 2 then LogNumberField else if tag == 3 then NextFileField else if tag == 4 then LastSequenceField
          else PrevLogNumberField)
    case Some((n, rest)) =>
      Field(if tag == 2 then LogNumber(n) else if tag == 3 then NextFileNumber(n) else if tag == 4 then LastSequence(n)
            else PrevLogNumber(n), rest)
  }

  function TakeNewFile(s: Bytes): (r: Parsed)
    ensures r.Field? ==> |r.rest| < |s|
  {
    match TakeLevel(s)
    case None => Bad(NewFileEntry)
    case Some((level, s1)) =>
      match TakeVarint(s1, 10, true)
      case None => Bad(NewFileEntry)
      case Some((number, s2)) =>
        match TakeVarint(s2, 10, true)
        case None => Bad(NewFileEntry)
        case Some((size, s3)) =>
          match TakeKey(s3)
          case None => Bad(NewFileEntry)
          case Some((smallest, s4)) =>
            match TakeKey(s4)
            case None => Bad(NewFileEntry)
            case Some((largest, s5)) => Field(NewFile(level, FileMeta(number, size, smallest, largest)), s5)
  }

  /** The switch on the tag. */
  function TakeField(tag: nat, s: Bytes): (r: Parsed)
    ensures r.Field? ==> |r.rest| < |s|
  {
    if tag == 1 then
      match TakeString(s)
      case None => Bad(ComparatorName)
      case Some((name, rest)) => Field(Comparator(name), rest)
    else if tag in {2, 3, 4, 9} then TakeScalar(s, tag)
    else if tag == 5 then
      match TakeLevel(s)
      case None => Bad(CompactionPointer)
      case Some((level, rest)) =>
        match TakeKey(rest)
        case None => Bad(CompactionPointer)
        case Some((key, rest')) => Field(CompactPointer(level, key), rest')
    else if tag == 6 then
      match TakeLevel(s)
      case None => Bad(DeletedFileField)
      case Some((level, rest)) =>
        match TakeVarint(rest, 10, true)
        case None => Bad(DeletedFileField)
        case Some((n, rest')) => Field(DeletedFile(level, n), rest')
    else if tag == 7 then TakeNewFile(s)
    else Bad(UnknownTag)
  }

  /** What DecodeFrom makes of the rest of a record, and the problem that stops it. */
  function Decode(e: Edit, input: Bytes): (Edit, Option<Problem>)
    decreases |input|
  {
    match TakeVarint(input, 5, false)
    case None => (e, if input == [] then None else Some(InvalidTag))
    case Some((tag, rest)) =>
      match TakeField(tag, rest)
      case Bad(problem) => (e, Some(problem))
      case Field(item, rest') => Decode(Apply(e, item), rest')
  }

  // ---------- round trip ----------

  lemma {:induction false} TakesVarint(v: nat, rest: Bytes)
    requires v < TWO64
    ensures TakeVarint(Varint(v) + rest, 10, true) == Some((v, rest))
    ensures v < TWO32 ==> TakeVarint(Varint(v) + rest, 5, false) == Some((v, rest))
  {
    var ten: nat, five: nat := 10, 5;
    Pow128Ten();
    VarintRoundTrip(v, rest, ten);
    assert (Varint(v) + rest)[|Varint(v)|..] == rest;
    if v < TWO32 {
      Pow128Five();
      VarintRoundTrip(v, rest, five);
    }
  }

  lemma {:induction false} Pow128Ten()
    ensures TWO64 <= Pow128(10)
  {
    Pow128Five();
    assert Pow128(7) == 128 * 128 * Pow128(5);
    assert Pow128(9) == 128 * 128 * Pow128(7);
  }

  lemma {:induction false} TakesKey(key: Bytes, rest: Bytes)
    requires 0 < |key| < TWO32
    ensures TakeKey(LengthPrefixed(key) + rest) == Some((key, rest))
  {
    LengthPrefixedRoundTrip(key, rest);
  }

  lemma {:induction false} TakesLevel(level: nat, rest: Bytes)
    requires level < NUM_LEVELS
    ensures TakeLevel(Varint(level) + rest) == Some((level, rest))
  {
    TakesVarint(level, rest);
  }

  lemma {:induction false} Assoc(a: Bytes, b: Bytes, c: Bytes)
    ensures (a + b) + c == a + (b + c)
  {
  }

  lemma {:induction false} TakesNewFile(level: nat, f: FileMeta, rest: Bytes)
    requires Holds(NewFile(level, f))
    ensures TakeNewFile(Payload(NewFile(level, f)) + rest) == Field(NewFile(level, f), rest)
  {
    var s4 := LengthPrefixed(f.largest);
    var s3 := LengthPrefixed(f.smallest) + s4;
    var s2 := Varint(f.size) + s3;
    var s1 := Varint(f.number) + s2;
    Assoc(Varint(level), s1, rest);
    Assoc(Varint(f.number), s2, rest);
    Assoc(Varint(f.size), s3, rest);
    Assoc(LengthPrefixed(f.smallest), s4, rest);
    TakesLevel(level, s1 + rest);
    TakesVarint(f.number, s2 + rest);
    TakesVarint(f.size, s3 + rest);
    TakesKey(f.smallest, s4 + rest);
    TakesKey(f.largest, rest);
  }

  lemma {:induction false} TakesField(item: Item, rest: Bytes)
    requires Holds(item)
    ensures TakeField(Tag(item), Payload(item) + rest) == Field(item, rest)
  {
    match item
    case Comparator(name) => LengthPrefixedRoundTrip(name, rest);
    case LogNumber(n) => TakesVarint(n, rest);
    case PrevLogNumber(n) => TakesVarint(n, rest);
    case NextFileNumber(n) => TakesVarint(n, rest);
    case LastSequence(n) => TakesVarint(n, rest);
    case CompactPointer(level, key) =>
      Assoc(Varint(level), LengthPrefixed(key), rest);
      TakesLevel(level, LengthPrefixed(key) + rest);
      TakesKey(key, rest);
    case DeletedFile(level, n) =>
      Assoc(Varint(level), Varint(n), rest);
      TakesLevel(level, Varint(n) + rest);
      TakesVarint(n, rest);
    case NewFile(level, f) => TakesNewFile(level, f, rest);
  }

  /** Fields written one after the other are read back and applied in that order. */
  lemma {:induction false} DecodesItems(e: Edit, items: seq<Item>)
    requires forall i | 0 <= i < |items| :: Holds(items[i])
    ensures Decode(e, ItemsBytes(items)) == (ApplyAll(e, items), None)
    decreases |items|
  {
    if items != [] {
      TakesVarint(Tag(items[0]), Payload(items[0]) + ItemsBytes(items[1..]));
      TakesField(items[0], ItemsBytes(items[1..]));
      DecodesItems(Apply(e, items[0]), items[1..]);
    }
  }

  lemma {:induction false} OneMoreItem(e: Edit, items: seq<Item>, item: Item)
    ensures ItemsBytes(items + [item]) == ItemsBytes(items) + (Varint(Tag(item)) + Payload(item))
    ensures ApplyAll(e, items + [item]) == Apply(ApplyAll(e, items), item)
    decreases |items|
  {
    if items == [] {
      assert items + [item] == [item] && [item][1..] == [];
    } else {
      assert (items + [item])[1..] == items[1..] + [item];
      OneMoreItem(Apply(e, items[0]), items[1..], item);
      FourParts(Varint(Tag(items[0])), Payload(items[0]), ItemsBytes(items[1..]), Varint(Tag(item)) + Payload(item));
    }
  }

  lemma {:induction false} FourParts(a: Bytes, b: Bytes, c: Bytes, d: Bytes)
    ensures a + (b + (c + d)) == (a + (b + c)) + d
  {
  }

  // ---------- the pointers that Clear leaves ----------

  const BLANK: Edit := Edit(None, None, None, None, None, [], {}, [])

  function Prepended(pointers: seq<(nat, Bytes)>, e: Edit): Edit {
    e.(compactPointers := pointers + e.compactPointers)
  }

  lemma {:induction false} ApplyPrepended(pointers: seq<(nat, Bytes)>, e: Edit, items: seq<Item>)
    ensures ApplyAll(Prepended(pointers, e), items) == Prepended(pointers, ApplyAll(e, items))
    decreases |items|
  {
    if items != [] {
      if items[0].CompactPointer? {
        var more := [(items[0].level, items[0].key)];
        assert pointers + e.compactPointers + more == pointers + (e.compactPointers + more);
      }
      ApplyPrepended(pointers, Apply(e, items[0]), items[1..]);
    }
  }

  predicate AllHold(items: seq<Item>) {
    forall i | 0 <= i < |items| :: Holds(items[i])
  }

  /** An edit that is written and read back is the same edit if and only if the one it is read into
      had no compaction pointers; otherwise those come first. */
  lemma {:induction false} RoundTrip(e: Edit, items: seq<Item>, into: Edit)
    requires AllHold(items) && ApplyAll(BLANK, items) == e
    ensures Decode(Cleared(into), ItemsBytes(items)) == (Prepended(into.compactPointers, e), None)
    ensures Prepended(into.compactPointers, e) == e <==> into.compactPointers == []
  {
    DecodesItems(Cleared(into), items);
    ApplyPrepended(into.compactPointers, BLANK, items);
    assert Cleared(into) == Prepended(into.compactPointers, BLANK);
    var p := into.compactPointers;
    assert p == [] ==> p + e.compactPointers == e.compactPointers;
    assert p + e.compactPointers == e.compactPointers ==> |p| == 0;
  }

  /** The bytes so far are these fields, which make up `e`. */
  predicate Written(dst: Bytes, items: seq<Item>, e: Edit) {
    dst == ItemsBytes(items) && AllHold(items) && ApplyAll(BLANK, items) == e
  }

  class VersionEdit {
    var comparator: Option<Bytes>
    var logNumber: Option<nat>
    var prevLogNumber: Option<nat>
    var nextFileNumber: Option<nat>
    var lastSequence: Option<nat>
    var compactPointers: seq<(nat, Bytes)>
    var deleted: set<(nat, nat)>
    var added: seq<(nat, FileMeta)>

    ghost function Contents(): Edit
      reads this
    {
      Edit(comparator, logNumber, prevLogNumber, nextFileNumber, lastSequence, compactPointers, deleted, added)
    }

    /** What the fields of the source can hold. */
    ghost predicate Valid()
      reads this
    {
      && (comparator.Some? ==> |comparator.value| < TWO32)
      && (logNumber.Some? ==> logNumber.value < TWO64) && (prevLogNumber.Some? ==> prevLogNumber.value < TWO64)
      && (nextFileNumber.Some? ==> nextFileNumber.value < TWO64) && (lastSequence.Some? ==> lastSequence.value < TWO64)
      && (forall i | 0 <= i < |compactPointers| :: Holds(CompactPointer(compactPointers[i].0, compactPointers[i].1)))
      && (forall d | d in deleted :: Holds(DeletedFile(d.0, d.1)))
      && (forall i | 0 <= i < |added| :: Holds(NewFile(added[i].0, added[i].1)))
    }

    constructor ()
      ensures Contents() == BLANK
    {
      comparator, logNumber, prevLogNumber, nextFileNumber, lastSequence := None, None, None, None, None;
      compactPointers, deleted, added := [], {}, [];
    }

    method Clear()
      modifies this
      ensures Contents() == Cleared(old(Contents()))
    {
      comparator, logNumber, prevLogNumber, nextFileNumber, lastSequence := None, None, None, None, None;
      deleted, added := {}, [];
    }

    method PutItem(dst: Bytes, item: Item, ghost items: seq<Item>, ghost e: Edit) returns (r: Bytes)
      requires Written(dst, items, e) && Holds(item)
      ensures Written(r, items + [item], Apply(e, item))
    {
      OneMoreItem(BLANK, items, item);
      r := dst + (Varint(Tag(item)) + Payload(item));
    }

    method EncodeScalars() returns (dst: Bytes, ghost items: seq<Item>)
      requires Valid()
      ensures Written(dst, items, Edit(comparator, logNumber, prevLogNumber, nextFileNumber, lastSequence, [], {}, []))
    {
      dst, items := [], [];
      ghost var e := BLANK;
      if comparator.Some? {
        var item := Comparator(comparator.value);
        dst := PutItem(dst, item, items, e);
        items, e := items + [item], Apply(e, item);
      }
      if logNumber.Some? {
        var item := LogNumber(logNumber.value);
        dst := PutItem(dst, item, items, e);
        items, e := items + [item], Apply(e, item);
      }
      if prevLogNumber.Some? {
        var item := PrevLogNumber(prevLogNumber.value);
        dst := PutItem(dst, item, items, e);
        items, e := items + [item], Apply(e, item);
      }
      if nextFileNumber.Some? {
        var item := NextFileNumber(nextFileNumber.value);
        dst := PutItem(dst, item, items, e);
        items, e := items + [item], Apply(e, item);
      }
      if lastSequence.Some? {
        var item := LastSequence(lastSequence.value);
        dst := PutItem(dst, item, items, e);
        items, e := items + [item], Apply(e, item);
      }
    }

    method EncodePointers(before: Bytes, ghost before': seq<Item>, ghost e0: Edit) returns (dst: Bytes, ghost items: seq<Item>)
      requires Valid() && Written(before, before', e0) && e0.compactPointers == []
      ensures Written(dst, items, e0.(compactPointers := compactPointers))
    {
      dst, items := before, before';
      for i := 0 to |compactPointers|
        invariant Written(dst, items, e0.(compactPointers := compactPointers[..i]))
      {
        var item := CompactPointer(compactPointers[i].0, compactPointers[i].1);
        dst := PutItem(dst, item, items, e0.(compactPointers := compactPointers[..i]));
        items := items + [item];
        assert compactPointers[..i + 1] == compactPointers[..i] + [compactPointers[i]];
      }
      assert compactPointers[..|compactPointers|] == compactPointers;
    }

    /** The set is walked in some order; the bytes decode to the same set in any. */
    method EncodeDeleted(before: Bytes, ghost before': seq<Item>, ghost e0: Edit) returns (dst: Bytes, ghost items: seq<Item>)
      requires Valid() && Written(before, before', e0) && e0.deleted == {}
      ensures Written(dst, items, e0.(deleted := deleted))
    {
      dst, items := before, before';
      var rest := deleted;
      while rest != {}
        invariant rest <= deleted && Written(dst, items, e0.(deleted := deleted - rest))
        decreases rest
      {
        var d :| d in rest;
        var item := DeletedFile(d.0, d.1);
        dst := PutItem(dst, item, items, e0.(deleted := deleted - rest));
        items := items + [item];
        assert deleted - (rest - {d}) == (deleted - rest) + {d};
        rest := rest - {d};
      }
      assert deleted - {} == deleted;
    }

    method EncodeAdded(before: Bytes, ghost before': seq<Item>, ghost e0: Edit) returns (dst: Bytes, ghost items: seq<Item>)
      requires Valid() && Written(before, before', e0) && e0.added == []
      ensures Written(dst, items, e0.(added := added))
    {
      dst, items := before, before';
      for i := 0 to |added|
        invariant Written(dst, items, e0.(added := added[..i]))
      {
        var item := NewFile(added[i].0, added[i].1);
        dst := PutItem(dst, item, items, e0.(added := added[..i]));
        items := items + [item];
        assert added[..i + 1] == added[..i] + [added[i]];
      }
      assert added[..|added|] == added;
    }

    /** EncodeTo: whatever edit the bytes are then read into becomes this one, behind its pointers. */
    method EncodeTo() returns (dst: Bytes)
      requires Valid()
      ensures forall into: Edit ::
        Decode(Cleared(into), dst) == (Prepended(into.compactPointers, Contents()), None)
    {
      ghost var items;
      dst, items := EncodeScalars();
      ghost var e := Edit(comparator, logNumber, prevLogNumber, nextFileNumber, lastSequence, [], {}, []);
      dst, items := EncodePointers(dst, items, e);
      dst, items := EncodeDeleted(dst, items, e.(compactPointers := compactPointers));
      dst, items := EncodeAdded(dst, items, e.(compactPointers := compactPointers, deleted := deleted));
      forall into: Edit ensures Decode(Cleared(into), dst) == (Prepended(into.compactPointers, Contents()), None) {
        RoundTrip(Contents(), items, into);
      }
    }

    method SetField(item: Item)
      modifies this
      ensures Contents() == Apply(old(Contents()), item)
    {
      match item {
        case Comparator(name) => comparator := Some(name);
        case LogNumber(n) => logNumber := Some(n);
        case PrevLogNumber(n) => prevLogNumber := Some(n);
        case NextFileNumber(n) => nextFileNumber := Some(n);
        case LastSequence(n) => lastSequence := Some(n);
        case CompactPointer(level, key) => compactPointers := compactPointers + [(level, key)];
        case DeletedFile(level, n) => deleted := deleted + {(level, n)};
        case NewFile(level, f) => added := added + [(level, f)];
      }
    }

    /** DecodeFrom, on any bytes: the fields before the first problem are set. */
    method DecodeFrom(src: Bytes) returns (problem: Option<Problem>)
      modifies this
      ensures (Contents(), problem) == Decode(Cleared(old(Contents())), src)
    {
      Clear();
      var input := src;
      while true
        invariant Decode(Contents(), input) == Decode(Cleared(old(Contents())), src)
        decreases |input|
      {
        match TakeVarint(input, 5, false) {
          case None =>
            return if input == [] then None else Some(InvalidTag);
          case Some((tag, rest)) =>
            match TakeField(tag, rest) {
              case Bad(what) =>
                return Some(what);
              case Field(item, rest') =>
                SetField(item);
                input := rest';
            }
        }
      }
    }
  }
}
