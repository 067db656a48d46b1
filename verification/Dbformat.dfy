/** Internal keys, their order, and what a reader of a snapshot sees.

    A user key is represented by its position in the order of the user comparator, a real
    number: every layer above the byte formats touches user keys through the comparator alone.
    Comparator.dfy proves that byte strings under the bytewise comparator embed into the reals. */
module Dbformat {

  datatype Option<+T> = None | Some(value: T)

  type UserKey = real
  type Byte = x: int | 0 <= x < 256
  type Bytes = seq<Byte>

  const MAX_SEQUENCE: nat := 0xFF_FFFF_FFFF_FFFF
  const NUM_LEVELS: nat := 7

  datatype ValueType = Deletion | Value

  datatype InternalKey = InternalKey(ukey: UserKey, sequence: nat, typ: ValueType) {
    /** The trailing 64-bit word of an encoded internal key. */
    function Tag(): nat {
      sequence * 256 + if typ.Value? then 1 else 0
    }
  }

  /** The internal order: user keys ascending, then tags descending. */
  predicate Less(a: InternalKey, b: InternalKey) {
    a.ukey < b.ukey || (a.ukey == b.ukey && a.Tag() > b.Tag())
  }

  /** The key a read of `u` at snapshot `snap` seeks to. */
  function LookupKey(u: UserKey, snap: nat): InternalKey {
    InternalKey(u, snap, Value)
  }

  datatype Entry = Entry(key: InternalKey, val: Bytes)

  /** `a` is stored before `b`: no two entries of one user key share a sequence number. */
  predicate Before(a: Entry, b: Entry) {
    a.key.ukey < b.key.ukey || (a.key.ukey == b.key.ukey && a.key.sequence > b.key.sequence)
  }

  predicate Ordered(es: seq<Entry>) {
    forall i, j | 0 <= i < j < |es| :: Before(es[i], es[j])
  }

  /** The index of the first entry at or after `k`: where an iterator over `es` lands on Seek. */
  function SeekIndex(es: seq<Entry>, k: InternalKey): (r: nat)
    ensures r <= |es|
    ensures forall i | 0 <= i < r :: Less(es[i].key, k)
    ensures r < |es| ==> !Less(es[r].key, k)
  {
    if es == [] || !Less(es[0].key, k) then 0 else 1 + SeekIndex(es[1..], k)
  }

  ghost function Elements(es: seq<Entry>): set<Entry> {
    set e | e in es
  }

  /** Two entries of one user key with one sequence number are the same entry. */
  ghost predicate Unambiguous(s: set<Entry>) {
    forall a, b | a in s && b in s && a.key.ukey == b.key.ukey && a.key.sequence == b.key.sequence :: a == b
  }

  predicate Visible(e: Entry, u: UserKey, snap: nat) {
    e.key.ukey == u && e.key.sequence <= snap
  }

  /** `e` is the newest version of `u` in `s` that snapshot `snap` may see. */
  ghost predicate IsNewest(e: Entry, s: set<Entry>, u: UserKey, snap: nat) {
    && e in s
    && Visible(e, u, snap)
    && forall d | d in s && Visible(d, u, snap) :: d.key.sequence <= e.key.sequence
  }

  ghost function Newest(s: set<Entry>, u: UserKey, snap: nat): Option<Entry> {
    if exists e :: IsNewest(e, s, u, snap) then
      var e :| IsNewest(e, s, u, snap);
      Some(e)
    else None
  }

  function ValueOf(e: Option<Entry>): Option<Bytes> {
    match e
    case None => None
    case Some(e) => if e.key.typ.Value? then Some(e.val) else None
  }

  /** What a read of `u` at snapshot `snap` must return when `s` holds every entry. */
  ghost function Read(s: set<Entry>, u: UserKey, snap: nat): Option<Bytes> {
    ValueOf(Newest(s, u, snap))
  }

  lemma {:induction false} NewestIs(e: Entry, s: set<Entry>, u: UserKey, snap: nat)
    requires Unambiguous(s) && IsNewest(e, s, u, snap)
    ensures Newest(s, u, snap) == Some(e)
  {
  }

  /** A key with a visible version has a newest one. */
  lemma {:induction false} NewestExists(s: set<Entry>, u: UserKey, snap: nat, w: Entry) returns (e: Entry)
    requires w in s && Visible(w, u, snap)
    ensures IsNewest(e, s, u, snap)
    decreases s
  {
    if d :| d in s && Visible(d, u, snap) && d.key.sequence > w.key.sequence {
      e := NewestExists(s - {w}, u, snap, d);
    } else {
      e := w;
    }
  }

  lemma {:induction false} NewestNone(s: set<Entry>, u: UserKey, snap: nat)
    ensures Newest(s, u, snap).None? <==> forall d | d in s :: !Visible(d, u, snap)
  {
    if d :| d in s && Visible(d, u, snap) {
      var e := NewestExists(s, u, snap, d);
    }
  }

  /** In one ordered run the entry a Seek lands on is the newest version or there is none. */
  lemma {:induction false} SeekFindsNewest(es: seq<Entry>, u: UserKey, snap: nat)
    requires Ordered(es)
    ensures Newest(Elements(es), u, snap) ==
            var i := SeekIndex(es, LookupKey(u, snap));
            if i < |es| && es[i].key.ukey == u then Some(es[i]) else None
    ensures Unambiguous(Elements(es))
  {
    var i := SeekIndex(es, LookupKey(u, snap));
    assert forall j | 0 <= j < i :: !Visible(es[j], u, snap);
    assert forall j | i < j < |es| :: Before(es[i], es[j]);
    if i < |es| && es[i].key.ukey == u {
      assert IsNewest(es[i], Elements(es), u, snap);
    } else {
      NewestNone(Elements(es), u, snap);
    }
  }
}
