/** The memtable over its sorted list of encoded entries (db/memtable.cc, LookupKey in db/dbformat.cc).
    SkipList.dfy is about the list; here it is a sequence in the order of the key comparator. */
module MemTable {
  import opened Dbformat
  import opened Coding
  import opened Comparator

  /** Key length, user key, tag, value length, value. */
  function EntryBytes(k: EncodedKey, value: Bytes): Bytes {
    LengthPrefixed(AppendInternalKey(k)) + LengthPrefixed(value)
  }

  predicate KeyFits(k: EncodedKey) {
    |k.ukey| + 8 < TWO32 && k.sequence <= MAX_SEQUENCE
  }

  /** LookupKey::memtable_key: the key of the first entry a read at `snap` may take. */
  function SeekBytes(ukey: Bytes, snap: nat): Bytes {
    LengthPrefixed(AppendInternalKey(EncodedKey(ukey, snap, Value)))
  }

  /** The internal key at the head of an entry. */
  function KeyOf(entry: Bytes): Option<EncodedKey> {
    match ParseLengthPrefixed(entry)
    case None => None
    case Some((key, _)) => ParseInternalKey(key)
  }

  lemma {:induction false} KeyParses(k: EncodedKey, rest: Bytes)
    requires KeyFits(k)
    ensures ParseLengthPrefixed(LengthPrefixed(AppendInternalKey(k)) + rest) == Some((AppendInternalKey(k), rest))
    ensures KeyOf(LengthPrefixed(AppendInternalKey(k)) + rest) == Some(k)
  {
    LengthPrefixedRoundTrip(AppendInternalKey(k), rest);
    InternalKeyRoundTrip(k);
  }

  lemma {:induction false} ValueParses(value: Bytes)
    requires |value| < TWO32
    ensures ParseLengthPrefixed(LengthPrefixed(value)) == Some((value, []))
  {
    LengthPrefixedRoundTrip(value, []);
    assert LengthPrefixed(value) + [] == LengthPrefixed(value);
  }

  /** Comes first in the list: user keys ascending, newer entries first. */
  predicate Earlier(a: EncodedKey, b: EncodedKey) {
    CompareInternal(a, b) < 0
  }

  /** The newest entry of the user key that a reader at `snap` may see. */
  predicate IsNewestVisible(entries: seq<(EncodedKey, Bytes)>, ukey: Bytes, snap: nat, i: nat) {
    && i < |entries| && entries[i].0.ukey == ukey && entries[i].0.sequence <= snap
    && forall j | 0 <= j < |entries| && entries[j].0.ukey == ukey && entries[j].0.sequence <= snap ::
         entries[j].0.sequence <= entries[i].0.sequence
  }

  lemma {:induction false} CompareSame(a: Bytes)
    ensures Compare(a, a) == 0
  {
    if a != [] {
      CompareSame(a[1..]);
    }
  }

  lemma {:induction false} CompareEqual(a: Bytes, b: Bytes)
    ensures Compare(a, b) == 0 <==> a == b
  {
    RankOrders(a, b);
    RankOrders(b, a);
  }

  /** The order among entries of one user key and across user keys. */
  lemma {:induction false} EarlierIs(a: EncodedKey, b: EncodedKey)
    ensures a.ukey == b.ukey ==> (Earlier(a, b) <==> Ranked(a).Tag() > Ranked(b).Tag())
    ensures Earlier(a, b) ==> Rank(a.ukey) <= Rank(b.ukey)
    ensures !Earlier(a, b) ==> Rank(a.ukey) >= Rank(b.ukey)
    ensures Rank(a.ukey) == Rank(b.ukey) <==> a.ukey == b.ukey
  {
    RankedOrders(a, b);
    RankOrders(a.ukey, b.ukey);
    RankOrders(b.ukey, a.ukey);
  }

  lemma {:induction false} EarlierTransits(a: EncodedKey, b: EncodedKey, c: EncodedKey)
    requires Earlier(a, b) && Earlier(b, c)
    ensures Earlier(a, c)
  {
    RankedOrders(a, b);
    RankedOrders(b, c);
    RankedOrders(a, c);
  }

  predicate Sorted(entries: seq<(EncodedKey, Bytes)>) {
    forall i, j | 0 <= i < j < |entries| :: Earlier(entries[i].0, entries[j].0)
  }

  /** Where the seek for `ukey` at `snap` stops decides the read: the newest visible entry stands
      there if there is one, and otherwise none of the user key does. */
  lemma {:induction false} SeekFinds(entries: seq<(EncodedKey, Bytes)>, ukey: Bytes, snap: nat, i: nat)
    requires Sorted(entries) && snap <= MAX_SEQUENCE && i <= |entries|
    requires forall j | 0 <= j < i :: Earlier(entries[j].0, EncodedKey(ukey, snap, Value))
    requires i < |entries| ==> !Earlier(entries[i].0, EncodedKey(ukey, snap, Value))
    ensures if i < |entries| && entries[i].0.ukey == ukey then IsNewestVisible(entries, ukey, snap, i)
            else forall j | 0 <= j < |entries| :: !(entries[j].0.ukey == ukey && entries[j].0.sequence <= snap)
  {
    var target := EncodedKey(ukey, snap, Value);
    forall j | 0 <= j < |entries| && entries[j].0.ukey == ukey && entries[j].0.sequence <= snap
      ensures i < |entries| && entries[i].0.ukey == ukey && entries[j].0.sequence <= entries[i].0.sequence
    {
      EarlierIs(entries[j].0, target);
      EarlierIs(entries[i].0, target);
      EarlierIs(entries[i].0, entries[j].0);
    }
    if i < |entries| && entries[i].0.ukey == ukey {
      EarlierIs(entries[i].0, target);
    }
  }

  /** The entries as the layers above know them, user keys by their rank. */
  function Run(entries: seq<(EncodedKey, Bytes)>): (r: seq<Entry>)
    ensures |r| == |entries|
  {
    seq(|entries|, i requires 0 <= i < |entries| => Entry(Ranked(entries[i].0), entries[i].1))
  }

  /** The newest visible entry, or that there is none, is what the flat set of entries says. */
  lemma {:induction false} NewestInRun(entries: seq<(EncodedKey, Bytes)>, ukey: Bytes, snap: nat, i: nat)
    requires Ordered(Run(entries)) && i <= |entries|
    requires if i < |entries| && entries[i].0.ukey == ukey then IsNewestVisible(entries, ukey, snap, i)
             else forall j | 0 <= j < |entries| :: !(entries[j].0.ukey == ukey && entries[j].0.sequence <= snap)
    ensures Newest(Elements(Run(entries)), Rank(ukey), snap) ==
            if i < |entries| && entries[i].0.ukey == ukey then Some(Run(entries)[i]) else None
  {
    var s, u := Elements(Run(entries)), Rank(ukey);
    forall e | e in s ensures exists j :: 0 <= j < |entries| && e == Run(entries)[j] && (Visible(e, u, snap) <==>
        entries[j].0.ukey == ukey && entries[j].0.sequence <= snap)
    {
      var j :| 0 <= j < |entries| && e == Run(entries)[j];
      RankOrders(entries[j].0.ukey, ukey);
    }
    if i < |entries| && entries[i].0.ukey == ukey {
      assert IsNewest(Run(entries)[i], s, u, snap);
      SeekFindsNewest(Run(entries), u, snap);
      NewestIs(Run(entries)[i], s, u, snap);
    } else {
      NewestNone(s, u, snap);
    }
  }

  ghost predicate AddedTo(before: seq<(EncodedKey, Bytes)>, after: seq<(EncodedKey, Bytes)>, k: EncodedKey, value: Bytes) {
    exists i :: 0 <= i <= |before| && after == before[..i] + [(k, value)] + before[i..]
  }

  /** The bytes of the table are those of the entries. */
  ghost predicate Laid(table: seq<Bytes>, entries: seq<(EncodedKey, Bytes)>) {
    && |table| == |entries|
    && forall i | 0 <= i < |table| ::
         table[i] == EntryBytes(entries[i].0, entries[i].1) && KeyFits(entries[i].0) && |entries[i].1| < TWO32
  }

  lemma {:induction false} LaidMore(table: seq<Bytes>, entries: seq<(EncodedKey, Bytes)>, k: EncodedKey, value: Bytes, i: nat)
    requires Laid(table, entries) && i <= |entries| && KeyFits(k) && |value| < TWO32
    ensures Laid(table[..i] + [EntryBytes(k, value)] + table[i..], entries[..i] + [(k, value)] + entries[i..])
  {
  }

  class MemTable {
    var table: seq<Bytes>
    ghost var entries: seq<(EncodedKey, Bytes)>

    ghost predicate Valid()
      reads this
    {
      Laid(table, entries) && Sorted(entries) && Ordered(Run(entries))
    }

    constructor ()
      ensures Valid() && entries == []
    {
      table, entries := [], [];
    }

    /** The first entry not before `target`, by the comparator on encoded keys. */
    method SeekTo(target: Bytes, ghost k: EncodedKey) returns (i: nat)
      requires Valid() && KeyOf(target) == Some(k)
      ensures i <= |table|
      ensures forall j | 0 <= j < i :: Earlier(entries[j].0, k)
      ensures i < |table| ==> !Earlier(entries[i].0, k)
    {
      i := 0;
      while i < |table|
        invariant i <= |table| && forall j | 0 <= j < i :: Earlier(entries[j].0, k)
      {
        KeyParses(entries[i].0, LengthPrefixed(entries[i].1));
        if CompareInternal(KeyOf(table[i]).value, KeyOf(target).value) >= 0 {
          break;
        }
        i := i + 1;
      }
    }

    /** Add: no entry of the user key has the sequence number yet. */
    method Add(sequence: nat, typ: ValueType, key: Bytes, value: Bytes)
      requires Valid() && KeyFits(EncodedKey(key, sequence, typ)) && |value| < TWO32
      requires forall i | 0 <= i < |entries| :: !(entries[i].0.ukey == key && entries[i].0.sequence == sequence)
      modifies this
      ensures Valid() && AddedTo(old(entries), entries, EncodedKey(key, sequence, typ), value)
      ensures Elements(Run(entries)) == Elements(Run(old(entries))) + {Entry(InternalKey(Rank(key), sequence, typ), value)}
    {
      ghost var k := EncodedKey(key, sequence, typ);
      var buf := Varint(|key| + 8) + key + Fixed(PackSequenceAndType(sequence, typ), 8) + (Varint(|value|) + value);
      EntryIs(k, value, buf);
      KeyParses(k, LengthPrefixed(value));
      var i := SeekTo(buf, k);
      Inserted(entries, k, value, i);
      RunMore(entries, k, value, i);
      LaidMore(table, entries, k, value, i);
      table := table[..i] + [buf] + table[i..];
      entries := entries[..i] + [(k, value)] + entries[i..];
    }

    /** Get: the newest entry of the user key at or below the snapshot, whether a value or a deletion. The
        answer is that of a read over the flat set of all entries. */
    method Get(ukey: Bytes, snap: nat) returns (found: bool, value: Option<Bytes>)
      requires Valid() && |ukey| + 8 < TWO32 && snap <= MAX_SEQUENCE
      ensures found ==>
                exists i :: 0 <= i < |entries| && IsNewestVisible(entries, ukey, snap, i)
                            && value == if entries[i].0.typ.Value? then Some(entries[i].1) else None
      ensures !found ==> forall j | 0 <= j < |entries| :: !(entries[j].0.ukey == ukey && entries[j].0.sequence <= snap)
      ensures found <==> Newest(Elements(Run(entries)), Rank(ukey), snap).Some?
      ensures value == Read(Elements(Run(entries)), Rank(ukey), snap)
    {
      var target := SeekBytes(ukey, snap);
      ghost var k := EncodedKey(ukey, snap, Value);
      KeyParses(k, []);
      assert target + [] == target;
      var i := SeekTo(target, k);
      SeekFinds(entries, ukey, snap, i);
      NewestInRun(entries, ukey, snap, i);
      if i < |table| {
        ghost var e := entries[i];
        KeyParses(e.0, LengthPrefixed(e.1));
        ValueParses(e.1);
        var (key, rest) := ParseLengthPrefixed(table[i]).value;
        var parsed := ParseInternalKey(key).value;
        CompareEqual(parsed.ukey, ukey);
        if Compare(parsed.ukey, ukey) == 0 {
          if parsed.typ.Value? {
            return true, Some(ParseLengthPrefixed(rest).value.0);
          }
          return true, None;
        }
      }
      return false, None;
    }
  }

  lemma {:induction false} EntryIs(k: EncodedKey, value: Bytes, buf: Bytes)
    requires buf == Varint(|k.ukey| + 8) + k.ukey + Fixed(PackSequenceAndType(k.sequence, k.typ), 8) + (Varint(|value|) + value)
    ensures buf == EntryBytes(k, value)
  {
    var tag := Fixed(PackSequenceAndType(k.sequence, k.typ), 8);
    assert Varint(|k.ukey| + 8) + k.ukey + tag == Varint(|k.ukey| + 8) + (k.ukey + tag);
  }

  lemma {:induction false} Inserted(entries: seq<(EncodedKey, Bytes)>, k: EncodedKey, value: Bytes, i: nat)
    requires Sorted(entries) && i <= |entries| && k.sequence <= MAX_SEQUENCE
    requires forall j | 0 <= j < i :: Earlier(entries[j].0, k)
    requires i < |entries| ==> !Earlier(entries[i].0, k)
    requires forall j | 0 <= j < |entries| :: !(entries[j].0.ukey == k.ukey && entries[j].0.sequence == k.sequence)
    ensures Sorted(entries[..i] + [(k, value)] + entries[i..])
  {
    if i < |entries| {
      RankedOrders(entries[i].0, k);
      RankedOrders(k, entries[i].0);
      EarlierIs(entries[i].0, k);
    }
    forall j | i <= j < |entries| ensures Earlier(k, entries[j].0) {
      if j > i {
        EarlierTransits(k, entries[i].0, entries[j].0);
      }
    }
  }

  /** The new entry takes its place in the run too. */
  lemma {:induction false} RunMore(entries: seq<(EncodedKey, Bytes)>, k: EncodedKey, value: Bytes, i: nat)
    requires Sorted(entries) && Ordered(Run(entries)) && i <= |entries|
    requires forall j | 0 <= j < |entries| :: !(entries[j].0.ukey == k.ukey && entries[j].0.sequence == k.sequence)
    requires Sorted(entries[..i] + [(k, value)] + entries[i..])
    ensures var all := entries[..i] + [(k, value)] + entries[i..];
            && Ordered(Run(all)) && Elements(Run(all)) == Elements(Run(entries)) + {Entry(Ranked(k), value)}
  {
    var all, e := entries[..i] + [(k, value)] + entries[i..], Entry(Ranked(k), value);
    var run := Run(entries);
    assert Run(all) == run[..i] + [e] + run[i..];
    forall j | 0 <= j < |entries| ensures if j < i then Before(run[j], e) else Before(e, run[j]) {
      var at := if j < i then j else j + 1;
      assert all[at] == entries[j] && all[i] == (k, value);
      assert if j < i then Earlier(entries[j].0, k) else Earlier(k, entries[j].0);
      RankedOrders(entries[j].0, k);
      RankedOrders(k, entries[j].0);
      RankOrders(entries[j].0.ukey, k.ukey);
    }
    forall x ensures x in Elements(Run(all)) <==> x in Elements(run) + {e} {
      assert run == run[..i] + run[i..];
    }
  }
}
