/** The bytewise comparator, its separators, and those of internal keys (util/comparator.cc,
    db/dbformat.cc). Byte strings embed into the reals in order, which is how the other modules
    represent user keys. */
module Comparator {
  import opened Dbformat
  import Coding

  /** Slice::compare: byte by byte, a proper prefix first. */
  function Compare(a: Bytes, b: Bytes): int {
    if a == [] then (if b == [] then 0 else -1)
    else if b == [] then 1
    else if a[0] < b[0] then -1
    else if a[0] > b[0] then 1
    else Compare(a[1..], b[1..])
  }

  // ---------- byte strings as user keys ----------

  function Rank(s: Bytes): (r: UserKey)
    ensures 0.0 <= r < 1.0
  {
    if s == [] then 0.0 else (s[0] as real + 1.0 + Rank(s[1..])) / 257.0
  }

  /** The order of the comparator is the order of the ranks. */
  lemma {:induction false} RankOrders(a: Bytes, b: Bytes)
    ensures Compare(a, b) < 0 <==> Rank(a) < Rank(b)
    ensures Compare(a, b) == 0 <==> Rank(a) == Rank(b)
    ensures Compare(a, b) == 0 <==> a == b
  {
    if a != [] && b != [] {
      RankOrders(a[1..], b[1..]);
      assert a == [a[0]] + a[1..] && b == [b[0]] + b[1..];
      RankStep(a, b);
    }
  }

  lemma {:induction false} RankStep(a: Bytes, b: Bytes)
    requires a != [] && b != []
    ensures Rank(a) < Rank(b) <==> a[0] < b[0] || (a[0] == b[0] && Rank(a[1..]) < Rank(b[1..]))
    ensures Rank(a) == Rank(b) <==> a[0] == b[0] && Rank(a[1..]) == Rank(b[1..])
  {
    var x, y := a[0] as real + Rank(a[1..]), b[0] as real + Rank(b[1..]);
    assert Rank(a) == (x + 1.0) / 257.0 && Rank(b) == (y + 1.0) / 257.0;
    assert a[0] < b[0] ==> a[0] as real + 1.0 <= b[0] as real;
    assert b[0] < a[0] ==> b[0] as real + 1.0 <= a[0] as real;
  }

  // ---------- separators of byte strings ----------

  /** A change at index `d` decides the comparison of two strings that agree before it. */
  lemma {:induction false} DecidedAt(a: Bytes, b: Bytes, d: nat)
    requires d < |a| && d < |b| && a[..d] == b[..d] && a[d] < b[d]
    ensures Compare(a, b) < 0 && Compare(b, a) > 0
  {
    if d > 0 {
      assert a[0] == a[..d][0] == b[..d][0] == b[0];
      assert a[1..][..d - 1] == a[..d][1..] == b[..d][1..] == b[1..][..d - 1];
      DecidedAt(a[1..], b[1..], d - 1);
    }
  }

  function Shared(a: Bytes, b: Bytes): (n: nat)
    ensures n <= |a| && n <= |b|
  {
    if a == [] || b == [] || a[0] != b[0] then 0 else 1 + Shared(a[1..], b[1..])
  }

  lemma {:induction false} SharedIs(a: Bytes, b: Bytes, n: nat)
    requires n <= |a| && n <= |b| && a[..n] == b[..n] && (n < |a| && n < |b| ==> a[n] != b[n])
    ensures Shared(a, b) == n
  {
    if n > 0 {
      assert a[0] == a[..n][0] == b[..n][0] == b[0];
      assert a[1..][..n - 1] == a[..n][1..] == b[..n][1..] == b[1..][..n - 1];
      SharedIs(a[1..], b[1..], n - 1);
    }
  }

  /** The separator the comparator gives: the first byte that differs raised by one, if that is still
      before `limit`. */
  function Separator(start: Bytes, limit: Bytes): Bytes {
    var d := Shared(start, limit);
    if d < |start| && d < |limit| && start[d] < 0xff && start[d] + 1 < limit[d] then start[..d] + [start[d] + 1] else start
  }

  /** The successor: the first byte that can be is raised by one. */
  function Successor(key: Bytes): Bytes {
    if key == [] then [] else if key[0] != 0xff then [key[0] + 1] else [key[0]] + Successor(key[1..])
  }

  /** The first byte in which the strings differ can be raised by one and still be before that of `limit`. */
  predicate RaisableAt(start: Bytes, limit: Bytes, d: nat) {
    d < |start| && d < |limit| && start[..d] == limit[..d] && start[d] + 1 < limit[d] as int
  }

  /** FindShortestSeparator: a string no longer than `start`, from `start` on and before `limit`; it is
      `start` itself only where the byte in which they differ leaves no room. */
  method FindShortestSeparator(start: Bytes, limit: Bytes) returns (r: Bytes)
    ensures r == Separator(start, limit)
    ensures r == start || (|r| <= |start| && Compare(start, r) < 0 && Compare(r, limit) < 0)
    ensures forall d: nat | RaisableAt(start, limit, d) :: r == start[..d] + [start[d] + 1]
    ensures r != start ==> exists d: nat :: RaisableAt(start, limit, d)
  {
    r := start;
    var minLength := if |start| < |limit| then |start| else |limit|;
    var diff := 0;
    while diff < minLength && start[diff] == limit[diff]
      invariant diff <= minLength && start[..diff] == limit[..diff]
    {
      diff := diff + 1;
    }
    SharedIs(start, limit, diff);
    if diff < minLength {
      var byte: int := start[diff];
      if byte < 0xff && byte + 1 < limit[diff] {
        r := start[..diff] + [byte + 1];
        DecidedAt(start, r, diff);
        DecidedAt(r, limit, diff);
        assert RaisableAt(start, limit, diff);
      }
    }
    forall d: nat | RaisableAt(start, limit, d) ensures d == diff {
      SharedIs(start, limit, d);
    }
  }

  lemma {:induction false} SuccessorAt(key: Bytes, i: nat)
    requires i <= |key| && forall j | 0 <= j < i :: key[j] == 0xff
    ensures Successor(key) == key[..i] + Successor(key[i..])
  {
    if i > 0 {
      SuccessorAt(key[1..], i - 1);
      assert key[1..][i - 1..] == key[i..] && [key[0]] + key[1..][..i - 1] == key[..i];
    }
  }

  /** FindShortSuccessor: a string no longer than `key`, from `key` on; `key` itself only when all
      its bytes are 0xff. */
  method FindShortSuccessor(key: Bytes) returns (r: Bytes)
    ensures r == Successor(key)
    ensures r == key || (|r| <= |key| && Compare(key, r) < 0)
    ensures r == key <==> forall i | 0 <= i < |key| :: key[i] == 0xff
    ensures forall i | 0 <= i < |key| && key[i] != 0xff && (forall j | 0 <= j < i :: key[j] == 0xff) :: r == key[..i] + [key[i] + 1]
  {
    for i := 0 to |key|
      invariant forall j | 0 <= j < i :: key[j] == 0xff
    {
      var byte: int := key[i];
      if byte != 0xff {
        r := key[..i] + [byte + 1];
        SuccessorAt(key, i);
        DecidedAt(key, r, i);
        assert r[i] != key[i];
        return;
      }
    }
    SuccessorAt(key, |key|);
    return key;
  }

  // ---------- internal keys ----------

  /** An encoded internal key as the other modules see it. */
  function Ranked(k: Coding.EncodedKey): InternalKey {
    InternalKey(Rank(k.ukey), k.sequence, k.typ)
  }

  /** InternalKeyComparator::Compare. */
  function CompareInternal(a: Coding.EncodedKey, b: Coding.EncodedKey): int {
    var r := Compare(a.ukey, b.ukey);
    if r != 0 then r
    else
      var anum, bnum := Coding.PackSequenceAndType(a.sequence, a.typ), Coding.PackSequenceAndType(b.sequence, b.typ);
      if anum > bnum then -1 else if anum < bnum then 1 else 0
  }

  lemma {:induction false} RankedOrders(a: Coding.EncodedKey, b: Coding.EncodedKey)
    ensures CompareInternal(a, b) < 0 <==> Less(Ranked(a), Ranked(b))
    ensures CompareInternal(a, b) == 0 <==> a == b
  {
    RankOrders(a.ukey, b.ukey);
    RankOrders(b.ukey, a.ukey);
  }

  /** What an index key may be: the key itself, or the first possible key of a user key strictly
      after it. */
  predicate Follows(start: InternalKey, r: InternalKey) {
    r == start || (start.ukey < r.ukey && r.sequence == MAX_SEQUENCE && r.typ.Value?)
  }

  function Shortened(key: Coding.EncodedKey, tmp: Bytes): Coding.EncodedKey {
    if |tmp| < |key.ukey| && Compare(key.ukey, tmp) < 0 then Coding.EncodedKey(tmp, MAX_SEQUENCE, Value) else key
  }

  /** InternalKeyComparator::FindShortestSeparator. */
  method InternalSeparator(start: Coding.EncodedKey, limit: Coding.EncodedKey) returns (r: Coding.EncodedKey)
    ensures r == Shortened(start, Separator(start.ukey, limit.ukey))
    ensures Follows(Ranked(start), Ranked(r)) && |r.ukey| <= |start.ukey|
    ensures r != start ==> Ranked(r).ukey < Ranked(limit).ukey
    ensures forall d: nat | RaisableAt(start.ukey, limit.ukey, d) && d + 1 < |start.ukey| ::
              r == Coding.EncodedKey(start.ukey[..d] + [start.ukey[d] + 1], MAX_SEQUENCE, Value)
  {
    var tmp := FindShortestSeparator(start.ukey, limit.ukey);
    RankOrders(start.ukey, tmp);
    RankOrders(tmp, limit.ukey);
    if |tmp| < |start.ukey| && Compare(start.ukey, tmp) < 0 {
      r := Coding.EncodedKey(tmp, MAX_SEQUENCE, Value);
    } else {
      r := start;
    }
  }

  /** InternalKeyComparator::FindShortSuccessor. */
  method InternalSuccessor(key: Coding.EncodedKey) returns (r: Coding.EncodedKey)
    ensures r == Shortened(key, Successor(key.ukey))
    ensures Follows(Ranked(key), Ranked(r)) && |r.ukey| <= |key.ukey|
    ensures forall i | 0 <= i < |key.ukey| - 1 && key.ukey[i] != 0xff && (forall j | 0 <= j < i :: key.ukey[j] == 0xff) ::
              r == Coding.EncodedKey(key.ukey[..i] + [key.ukey[i] + 1], MAX_SEQUENCE, Value)
  {
    var tmp := FindShortSuccessor(key.ukey);
    RankOrders(key.ukey, tmp);
    if |tmp| < |key.ukey| && Compare(key.ukey, tmp) < 0 {
      r := Coding.EncodedKey(tmp, MAX_SEQUENCE, Value);
    } else {
      r := key;
    }
  }

  /** What the separator means to the layers that know user keys by their ranks. */
  lemma {:induction false} SeparatorRanks(start: Coding.EncodedKey, limit: Coding.EncodedKey)
    ensures var r := Shortened(start, Separator(start.ukey, limit.ukey));
            Follows(Ranked(start), Ranked(r)) && (r != start ==> Ranked(r).ukey < Ranked(limit).ukey)
  {
    var tmp, d := Separator(start.ukey, limit.ukey), Shared(start.ukey, limit.ukey);
    SharedAgree(start.ukey, limit.ukey);
    RankOrders(start.ukey, tmp);
    RankOrders(tmp, limit.ukey);
    if tmp != start.ukey {
      DecidedAt(tmp, limit.ukey, d);
    }
  }

  lemma {:induction false} SharedAgree(a: Bytes, b: Bytes)
    ensures a[..Shared(a, b)] == b[..Shared(a, b)]
  {
    if a != [] && b != [] && a[0] == b[0] {
      var n := Shared(a[1..], b[1..]);
      SharedAgree(a[1..], b[1..]);
      assert a[..n + 1] == [a[0]] + a[1..][..n] && b[..n + 1] == [b[0]] + b[1..][..n];
    }
  }

  lemma {:induction false} SuccessorRanks(key: Coding.EncodedKey)
    ensures Follows(Ranked(key), Ranked(Shortened(key, Successor(key.ukey))))
  {
    RankOrders(key.ukey, Successor(key.ukey));
  }
}
