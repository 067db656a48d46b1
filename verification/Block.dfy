/** Blocks: prefix-compressed entries with restart points, written and read back byte for byte
    (table/block_builder.cc, table/block.cc). */
module Block {
  import opened Dbformat
  import opened Coding

  datatype Pair = Pair(key: Bytes, val: Bytes)

  // ---------- the format ----------

  /** One entry, of which the first `shared` bytes of the key are left out. */
  function EntryBytes(e: Pair, shared: nat): Bytes
    requires shared <= |e.key|
  {
    Varint(shared) + Varint(|e.key| - shared) + Varint(|e.val|) + e.key[shared..] + e.val
  }

  /** The key before entry `i`. */
  function KeyBefore(es: seq<Pair>, i: nat): Bytes
    requires i <= |es|
  {
    if i == 0 then [] else es[i - 1].key
  }

  /** What is left out of a key is there in the key before it. */
  predicate Shares(es: seq<Pair>, shared: seq<nat>) {
    && |shared| == |es|
    && forall i {:trigger shared[i]} | 0 <= i < |es| :: SharesAt(es[i].key, KeyBefore(es, i), shared[i])
  }

  predicate SharesAt(key: Bytes, before: Bytes, n: nat) {
    n <= |key| && n <= |before| && key[..n] == before[..n]
  }

  /** The first `n` entries. */
  function Image(es: seq<Pair>, shared: seq<nat>, n: nat): Bytes
    requires Shares(es, shared) && n <= |es|
  {
    if n == 0 then [] else Image(es, shared, n - 1) + EntryBytes(es[n - 1], shared[n - 1])
  }

  /** The entries of a block, how much of each key is shared, and which entries are restart points:
      these share nothing, and the first entry is one. */
  datatype Layout = Layout(es: seq<Pair>, shared: seq<nat>, at: seq<nat>) {
    predicate Valid() {
      && Shares(es, shared) && |at| > 0 && at[0] == 0
      && (forall r | 0 < r < |at| :: at[r] < |es| && shared[at[r]] == 0)
    }

    /** Where entry `n` starts. */
    function Off(n: nat): nat
      requires Valid() && n <= |es|
    {
      |Image(es, shared, n)|
    }

    /** The first entry after restart point `r`. */
    function RestartOff(r: nat): nat
      requires Valid() && r < |at|
    {
      Off(if r == 0 then 0 else at[r])
    }
  }

  /** `buffer` and `restarts` are the layout, written out. */
  predicate Describes(l: Layout, buffer: Bytes, restarts: seq<nat>) {
    && l.Valid() && buffer == Image(l.es, l.shared, |l.es|)
    && |restarts| == |l.at| && forall r | 0 <= r < |l.at| :: restarts[r] == l.RestartOff(r)
  }

  /** A restart point every `interval` entries, and every key between them shares all it can with the
      one before it. */
  predicate Compressed(l: Layout, interval: nat) {
    && l.Valid() && Spaced(l.at, |l.es|, interval)
    && forall i: nat | i < |l.es| :: SharesAll(l, i)
  }

  predicate Spaced(at: seq<nat>, n: nat, interval: nat) {
    && |at| > 0 && (forall r: nat | 0 < r < |at| :: Follows(at, r, interval))
    && (if n == 0 then |at| == 1 else at[|at| - 1] < n <= at[|at| - 1] + interval)
  }

  predicate Follows(at: seq<nat>, r: nat, interval: nat)
    requires 0 < r < |at|
  {
    at[r] == at[r - 1] + interval
  }

  predicate SharesAll(l: Layout, i: nat)
    requires l.Valid() && i < |l.es|
  {
    i in l.at || IsCommonPrefix(l.es[i].key, KeyBefore(l.es, i), l.shared[i])
  }

  /** The keys have their first `n` bytes in common, and no more. */
  predicate IsCommonPrefix(a: Bytes, b: Bytes, n: nat) {
    && SharesAt(a, b, n) && (n == |a| || n == |b| || a[n] != b[n])
  }

  function RestartBytes(points: seq<nat>): Bytes {
    if points == [] then [] else RestartBytes(points[..|points| - 1]) + Fixed(points[|points| - 1], 4)
  }

  /** A finished block. */
  function BlockBytes(buffer: Bytes, points: seq<nat>): Bytes {
    buffer + RestartBytes(points) + Fixed(|points|, 4)
  }

  // ---------- building ----------

  /** How long a prefix two keys have in common. */
  method CommonPrefix(a: Bytes, b: Bytes) returns (n: nat)
    ensures IsCommonPrefix(b, a, n)
  {
    var minLength := if |a| < |b| then |a| else |b|;
    n := 0;
    while n < minLength && a[n] == b[n]
      invariant n <= minLength && a[..n] == b[..n]
    {
      n := n + 1;
    }
  }

  class BlockBuilder {
    const restartInterval: nat
    var buffer: Bytes
    var restarts: seq<nat>
    var counter: nat
    var finished: bool
    var lastKey: Bytes
    ghost var layout: Layout

    ghost predicate Valid()
      reads this
    {
      && restartInterval >= 1 && counter <= restartInterval
      && lastKey == KeyBefore(layout.es, |layout.es|)
      && Compressed(layout, restartInterval) && counter == |layout.es| - layout.at[|layout.at| - 1]
      && (!finished ==> Describes(layout, buffer, restarts))
    }

    constructor (restartInterval: nat)
      requires restartInterval >= 1
      ensures Valid() && !finished && layout.es == []
    {
      this.restartInterval := restartInterval;
      buffer, restarts, counter, finished, lastKey := [], [0], 0, false, [];
      layout := Layout([], [], [0]);
    }

    method Add(key: Bytes, value: Bytes)
      requires Valid() && !finished
      modifies this
      ensures Valid() && !finished && layout.es == old(layout.es) + [Pair(key, value)]
    {
      var shared := 0;
      ghost var l, b, r := layout, buffer, restarts;
      var restart := counter >= restartInterval;
      if !restart {
        shared := CommonPrefix(lastKey, key);
      } else {
        restarts := restarts + [|buffer|];
        counter := 0;
      }
      AppendDescribes(l, b, r, Pair(key, value), shared, restart);
      AppendCompressed(l, restartInterval, Pair(key, value), shared, restart);
      PutEntry(key, value, shared);
      layout := Extended(l, Pair(key, value), shared, restart);
      SharedKey(lastKey, key, shared);
      lastKey := lastKey[..shared] + key[shared..];
      counter := counter + 1;
    }

    method PutEntry(key: Bytes, value: Bytes, shared: nat)
      requires shared <= |key|
      modifies this`buffer
      ensures buffer == old(buffer) + EntryBytes(Pair(key, value), shared)
    {
      var b := buffer;
      buffer := buffer + Varint(shared);
      buffer := buffer + Varint(|key| - shared);
      buffer := buffer + Varint(|value|);
      buffer := buffer + key[shared..];
      buffer := buffer + value;
      assert buffer == b + (Varint(shared) + Varint(|key| - shared) + Varint(|value|) + key[shared..] + value);
    }

    /** Finish: the entries, the restart points, and their number. */
    method Finish() returns (block: Bytes)
      requires Valid() && !finished
      modifies this`buffer, this`finished
      ensures Valid() && finished && Describes(layout, old(buffer), restarts) && Compressed(layout, restartInterval)
      ensures block == BlockBytes(old(buffer), restarts)
    {
      for i := 0 to |restarts|
        invariant |restarts| == old(|restarts|) && buffer == old(buffer) + RestartBytes(restarts[..i])
      {
        assert restarts[..i + 1][..i] == restarts[..i];
        buffer := buffer + Fixed(restarts[i], 4);
      }
      assert restarts[..|restarts|] == restarts;
      buffer := buffer + Fixed(|restarts|, 4);
      finished := true;
      block := buffer;
    }
  }

  lemma {:induction false} ImagePrefix(es: seq<Pair>, shared: seq<nat>, e: Pair, s: nat, n: nat)
    requires Shares(es, shared) && n <= |es| && Shares(es + [e], shared + [s])
    ensures Image(es + [e], shared + [s], n) == Image(es, shared, n)
  {
    if n > 0 {
      ImagePrefix(es, shared, e, s, n - 1);
    }
  }

  /** One more entry, with or without a restart point at it. */
  lemma {:induction false} SharedKey(before: Bytes, key: Bytes, shared: nat)
    requires SharesAt(key, before, shared)
    ensures before[..shared] + key[shared..] == key
  {
    assert key[..shared] + key[shared..] == key;
  }

  lemma {:induction false} AppendShares(es: seq<Pair>, shared: seq<nat>, e: Pair, s: nat)
    requires Shares(es, shared) && SharesAt(e.key, KeyBefore(es, |es|), s)
    ensures Shares(es + [e], shared + [s])
  {
    forall i | 0 <= i <= |es| ensures KeyBefore(es + [e], i) == KeyBefore(es, i) {
    }
  }

  /** The layout with one entry more, on a new restart point or not. */
  function Extended(l: Layout, e: Pair, s: nat, restart: bool): Layout {
    Layout(l.es + [e], l.shared + [s], if restart then l.at + [|l.es|] else l.at)
  }

  lemma {:induction false} ExtendedValid(l: Layout, e: Pair, s: nat, restart: bool, m: Layout)
    requires l.Valid() && SharesAt(e.key, KeyBefore(l.es, |l.es|), s) && m == Extended(l, e, s, restart)
    requires restart ==> s == 0
    ensures m.Valid()
  {
    AppendShares(l.es, l.shared, e, s);
  }

  lemma {:induction false} ExtendedOff(l: Layout, e: Pair, s: nat, restart: bool, m: Layout, n: nat)
    requires l.Valid() && m.Valid() && m == Extended(l, e, s, restart) && n <= |l.es|
    ensures m.Off(n) == l.Off(n)
  {
    ImagePrefix(l.es, l.shared, e, s, n);
  }

  lemma {:induction false} ExtendedImage(l: Layout, buffer: Bytes, e: Pair, s: nat, restart: bool, m: Layout)
    requires l.Valid() && m.Valid() && m == Extended(l, e, s, restart) && buffer == Image(l.es, l.shared, |l.es|)
    requires s <= |e.key|
    ensures Image(m.es, m.shared, |m.es|) == buffer + EntryBytes(e, s)
  {
    ImagePrefix(l.es, l.shared, e, s, |l.es|);
  }

  lemma {:induction false} AppendDescribes(l: Layout, buffer: Bytes, restarts: seq<nat>, e: Pair, s: nat, restart: bool)
    requires Describes(l, buffer, restarts) && SharesAt(e.key, KeyBefore(l.es, |l.es|), s)
    requires restart ==> s == 0 && l.es != []
    ensures Describes(Extended(l, e, s, restart), buffer + EntryBytes(e, s), if restart then restarts + [|buffer|] else restarts)
  {
    var m, points := Extended(l, e, s, restart), if restart then restarts + [|buffer|] else restarts;
    ExtendedValid(l, e, s, restart, m);
    ExtendedImage(l, buffer, e, s, restart, m);
    forall r | 0 <= r < |m.at| ensures points[r] == m.RestartOff(r) {
      if r < |l.at| {
        ExtendedOff(l, e, s, restart, m, if r == 0 then 0 else l.at[r]);
      } else {
        ExtendedOff(l, e, s, restart, m, |l.es|);
      }
    }
  }

  lemma {:induction false} AppendSpaced(at: seq<nat>, n: nat, interval: nat, restart: bool)
    requires Spaced(at, n, interval) && interval >= 1 && at[|at| - 1] <= n && restart == (n - at[|at| - 1] >= interval)
    ensures Spaced(if restart then at + [n] else at, n + 1, interval)
  {
    if restart {
      var more := at + [n];
      forall r: nat | 0 < r < |more| ensures Follows(more, r, interval) {
        assert r < |at| ==> Follows(at, r, interval);
      }
    }
  }

  lemma {:induction false} AppendCompressed(l: Layout, interval: nat, e: Pair, s: nat, restart: bool)
    requires Compressed(l, interval) && interval >= 1 && l.at[|l.at| - 1] <= |l.es|
    requires restart == (|l.es| - l.at[|l.at| - 1] >= interval)
    requires if restart then s == 0 else IsCommonPrefix(e.key, KeyBefore(l.es, |l.es|), s)
    requires SharesAt(e.key, KeyBefore(l.es, |l.es|), s)
    ensures Compressed(Extended(l, e, s, restart), interval)
  {
    var m := Extended(l, e, s, restart);
    ExtendedValid(l, e, s, restart, m);
    AppendSpaced(l.at, |l.es|, interval, restart);
    assert restart ==> m.at[|l.at|] == |l.es|;
    forall i: nat | i < |m.es| ensures SharesAll(m, i) {
      assert KeyBefore(m.es, i) == KeyBefore(l.es, i);
      if i < |l.es| {
        assert SharesAll(l, i) && m.shared[i] == l.shared[i];
        assert i in l.at ==> i in m.at;
      }
    }
  }

  /** Entries and interval leave one way to compress and to place the restart points. */
  lemma {:induction false} CompressedUnique(l: Layout, m: Layout, interval: nat)
    requires Compressed(l, interval) && Compressed(m, interval) && l.es == m.es && interval >= 1
    ensures l == m
  {
    SpacedUnique(l.at, m.at, |l.es|, interval, |l.at|);
    SpacedUnique(m.at, l.at, |l.es|, interval, |m.at|);
    assert l.at == l.at[..|l.at|] == m.at[..|m.at|] == m.at;
    forall i: nat | i < |l.es| ensures l.shared[i] == m.shared[i] {
      SharesSame(l, m, i);
    }
  }

  lemma {:induction false} SharesSame(l: Layout, m: Layout, i: nat)
    requires l.Valid() && m.Valid() && l.es == m.es && l.at == m.at && i < |l.es| && SharesAll(l, i) && SharesAll(m, i)
    ensures l.shared[i] == m.shared[i]
  {
    if i in l.at {
      RestartShares(l, i);
      RestartShares(m, i);
    } else {
      LongestUnique(l.es[i].key, KeyBefore(l.es, i), l.shared[i], m.shared[i]);
    }
  }

  lemma {:induction false} RestartShares(l: Layout, i: nat)
    requires l.Valid() && i < |l.es| && i in l.at
    ensures l.shared[i] == 0
  {
    assert SharesAt(l.es[i].key, KeyBefore(l.es, i), l.shared[i]);
    var r :| 0 <= r < |l.at| && l.at[r] == i;
    assert r > 0 ==> l.shared[l.at[r]] == 0;
  }

  lemma {:induction false} LongestUnique(a: Bytes, b: Bytes, m: nat, n: nat)
    requires IsCommonPrefix(a, b, m) && IsCommonPrefix(a, b, n)
    ensures m == n
  {
    assert forall k | 0 <= k < n :: a[..n][k] == b[..n][k];
    assert forall k | 0 <= k < m :: a[..m][k] == b[..m][k];
  }

  lemma {:induction false} SpacedUnique(a: seq<nat>, b: seq<nat>, n: nat, interval: nat, k: nat)
    requires interval >= 1 && Spaced(a, n, interval) && Spaced(b, n, interval) && a[0] == b[0]
    requires 0 < k <= |a| && a[|a| - 1] <= n
    ensures k <= |b| && a[..k] == b[..k]
    decreases k
  {
    if k > 1 {
      SpacedUnique(a, b, n, interval, k - 1);
      assert a[..k - 1][k - 2] == b[..k - 1][k - 2];
      assert Follows(a, k - 1, interval);
      SpacedBound(a, n, interval, k - 1);
      if |b| >= k {
        assert Follows(b, k - 1, interval);
        assert a[..k] == a[..k - 1] + [a[k - 1]] && b[..k] == b[..k - 1] + [b[k - 1]];
      }
    }
  }

  lemma {:induction false} SpacedBound(a: seq<nat>, n: nat, interval: nat, r: nat)
    requires Spaced(a, n, interval) && 0 < r < |a| && interval >= 1
    ensures n > 0 && a[r] < n
    decreases |a| - r
  {
    if r + 1 < |a| {
      SpacedBound(a, n, interval, r + 1);
      assert Follows(a, r + 1, interval);
    }
  }

  // ---------- opening ----------

  /** Block::Block and NewIterator: where the restart points start and how many there are; None for
      contents that cannot be a block. */
  function Open(contents: Bytes): Option<(nat, nat)> {
    if |contents| < 4 then None
    else
      var n := DecodeFixed(contents[|contents| - 4..]);
      if n > (|contents| - 4) / 4 then None else Some((|contents| - (1 + n) * 4, n))
  }

  /** GetRestartPoint. */
  function RestartPoint(contents: Bytes, restarts: nat, r: nat): nat
    requires restarts + 4 * r + 4 <= |contents|
  {
    DecodeFixed(contents[restarts + 4 * r..restarts + 4 * r + 4])
  }

  lemma {:induction false} RestartBytesAt(points: seq<nat>, n: nat, r: nat)
    requires r < n <= |points|
    ensures |RestartBytes(points[..n])| == 4 * n
    ensures RestartBytes(points[..n])[4 * r..4 * r + 4] == Fixed(points[r], 4)
  {
    assert points[..n][..n - 1] == points[..n - 1];
    if r < n - 1 {
      RestartBytesAt(points, n - 1, r);
    } else if n > 1 {
      RestartBytesAt(points, n - 1, 0);
    }
  }

  /** A finished block opens again, to the same restart points. */
  lemma {:induction false} OpensAgain(buffer: Bytes, points: seq<nat>)
    requires points != [] && |points| < TWO32 && forall r | 0 <= r < |points| :: points[r] < TWO32
    ensures var c := BlockBytes(buffer, points);
            && Open(c) == Some((|buffer|, |points|)) && |c| == |buffer| + 4 * |points| + 4
            && forall r | 0 <= r < |points| :: RestartPoint(c, |buffer|, r) == points[r]
  {
    var c, middle := BlockBytes(buffer, points), RestartBytes(points);
    assert points[..|points|] == points;
    RestartBytesAt(points, |points|, 0);
    Pow256Four();
    assert c[|c| - 4..] == Fixed(|points|, 4);
    FixedRoundTrip(|points|, 4);
    forall r | 0 <= r < |points| ensures RestartPoint(c, |buffer|, r) == points[r] {
      RestartBytesAt(points, |points|, r);
      assert c[|buffer| + 4 * r..|buffer| + 4 * r + 4] == middle[4 * r..4 * r + 4];
      FixedRoundTrip(points[r], 4);
    }
  }

  lemma {:induction false} Pow256Four()
    ensures Pow256(4) == TWO32
  {
    assert Pow256(2) == 65536;
  }

  // ---------- reading entries ----------

  /** GetVarint32Ptr on the bytes from `p` on: the value and the next position. */
  function VarintAt(s: Bytes, p: nat): Option<(nat, nat)>
    requires p <= |s|
  {
    match ParseVarint(s[p..], 5)
    case None => None
    case Some((v, n)) => Some((v % TWO32, p + n))
  }

  /** DecodeEntry on the bytes up to the limit: the three lengths, and where the key bytes start. */
  function DecodeEntry(s: Bytes): (r: Option<(nat, nat, nat, nat)>)
    ensures r.Some? ==> r.value.3 <= |s|
  {
    if |s| < 3 then None
    else if s[0] < 128 && s[1] < 128 && s[2] < 128 then Lengths(s, s[0] as nat, s[1] as nat, s[2] as nat, 3)
    else
      match VarintAt(s, 0)
      case None => None
      case Some((shared, p)) =>
        match VarintAt(s, p)
        case None => None
        case Some((nonShared, q)) =>
          match VarintAt(s, q)
          case None => None
          case Some((valueLength, k)) => Lengths(s, shared, nonShared, valueLength, k)
  }

  function Lengths(s: Bytes, shared: nat, nonShared: nat, valueLength: nat, p: nat): (r: Option<(nat, nat, nat, nat)>)
    requires p <= |s|
    ensures r.Some? ==> r.value.3 <= |s|
  {
    if |s| - p < (nonShared + valueLength) % TWO32 then None else Some((shared, nonShared, valueLength, p))
  }

  lemma {:induction false} VarintAtIs(s: Bytes, p: nat, v: nat, rest: Bytes)
    requires p <= |s| && s[p..] == Varint(v) + rest && v < TWO32
    ensures VarintAt(s, p) == Some((v, p + |Varint(v)|))
  {
    Pow128Five();
    VarintRoundTrip(v, rest, 5);
  }

  /** Three varints in a row, read by the fast path or by the slow one. */
  lemma {:induction false} ThreeVarints(s: Bytes, x: nat, y: nat, z: nat, tail: Bytes)
    requires s == Varint(x) + Varint(y) + Varint(z) + tail
    requires x < TWO32 && y + z < TWO32 && y + z <= |tail|
    ensures DecodeEntry(s) == Some((x, y, z, |Varint(x)| + |Varint(y)| + |Varint(z)|))
  {
    var a, b, c := Varint(x), Varint(y), Varint(z);
    if s[0] < 128 && s[1] < 128 && s[2] < 128 {
      ShortVarints(s, x, y, z, tail);
    } else {
      LongVarints(s, a, b, c, x, y, z, tail);
    }
  }

  lemma {:induction false} LongVarints(s: Bytes, a: Bytes, b: Bytes, c: Bytes, x: nat, y: nat, z: nat, tail: Bytes)
    requires a == Varint(x) && b == Varint(y) && c == Varint(z) && s == a + b + c + tail
    requires x < TWO32 && y < TWO32 && z < TWO32
    ensures VarintAt(s, 0) == Some((x, |a|)) && VarintAt(s, |a|) == Some((y, |a| + |b|))
    ensures VarintAt(s, |a| + |b|) == Some((z, |a| + |b| + |c|)) && |s| >= 3
  {
    PartsAt(s, a, b, c, tail);
    VarintAtIs(s, 0, x, b + c + tail);
    VarintAtIs(s, |a|, y, c + tail);
    VarintAtIs(s, |a| + |b|, z, tail);
  }

  lemma {:induction false} PartsAt(s: Bytes, a: Bytes, b: Bytes, c: Bytes, tail: Bytes)
    requires s == a + b + c + tail
    ensures s[0..] == a + (b + c + tail) && s[|a|..] == b + (c + tail) && s[|a| + |b|..] == c + tail
  {
  }

  lemma {:induction false} ShortVarints(s: Bytes, x: nat, y: nat, z: nat, tail: Bytes)
    requires s == Varint(x) + Varint(y) + Varint(z) + tail && |s| >= 3
    requires s[0] < 128 && s[1] < 128 && s[2] < 128
    ensures Varint(x) == [s[0]] && Varint(y) == [s[1]] && Varint(z) == [s[2]] && x == s[0] as nat && y == s[1] as nat && z == s[2] as nat
  {
    OneByte(x);
    OneByte(y);
    OneByte(z);
    assert s[0] == Varint(x)[0];
    assert s[1] == Varint(y)[0];
    assert s[2] == Varint(z)[0];
  }

  /** Decoding finds the lengths that were written. */
  lemma {:induction false} DecodesEntry(e: Pair, shared: nat, rest: Bytes)
    requires shared <= |e.key| && |e.key| + |e.val| < TWO32
    ensures var s := EntryBytes(e, shared) + rest;
            var p := |Varint(shared)| + |Varint(|e.key| - shared)| + |Varint(|e.val|)|;
            DecodeEntry(s) == Some((shared, |e.key| - shared, |e.val|, p))
            && s[p..p + |e.key| - shared] == e.key[shared..] && s[p + |e.key| - shared..p + |e.key| - shared + |e.val|] == e.val
            && p + (|e.key| - shared) + |e.val| == |EntryBytes(e, shared)|
  {
    var head := Varint(shared) + Varint(|e.key| - shared) + Varint(|e.val|);
    HeadAndRest(e, shared, head, e.key[shared..]);
    DecodesParts(EntryBytes(e, shared) + rest, head, e.key[shared..], e.val, rest, shared);
  }

  lemma {:induction false} HeadAndRest(e: Pair, shared: nat, head: Bytes, key: Bytes)
    requires shared <= |e.key| && head == Varint(shared) + Varint(|e.key| - shared) + Varint(|e.val|)
    requires key == e.key[shared..]
    ensures EntryBytes(e, shared) == head + key + e.val
  {
  }

  lemma {:induction false} DecodesParts(s: Bytes, head: Bytes, key: Bytes, val: Bytes, rest: Bytes, shared: nat)
    requires head == Varint(shared) + Varint(|key|) + Varint(|val|) && s == head + key + val + rest
    requires shared < TWO32 && |key| + |val| < TWO32
    ensures DecodeEntry(s) == Some((shared, |key|, |val|, |head|))
    ensures s[|head|..|head| + |key|] == key && s[|head| + |key|..|head| + |key| + |val|] == val
  {
    KeyAndValue(s, head, key, val, rest);
    ThreeVarints(s, shared, |key|, |val|, key + val + rest);
  }

  lemma {:induction false} KeyAndValue(s: Bytes, head: Bytes, key: Bytes, val: Bytes, rest: Bytes)
    requires s == head + key + val + rest
    ensures s == head + (key + val + rest)
    ensures s[|head|..|head| + |key|] == key && s[|head| + |key|..|head| + |key| + |val|] == val
  {
  }

  /** A varint whose first byte is below 128 is that byte. */
  lemma {:induction false} OneByte(v: nat)
    ensures Varint(v)[0] < 128 <==> v < 128
    ensures v < 128 ==> Varint(v) == [v]
  {
  }

  lemma {:induction false} OffStep(l: Layout, n: nat)
    requires l.Valid() && n < |l.es|
    ensures l.Off(n + 1) == l.Off(n) + |EntryBytes(l.es[n], l.shared[n])| && l.Off(n + 1) >= l.Off(n) + 3
  {
    OneByte(l.shared[n]);
  }

  lemma {:induction false} OffGrows(l: Layout, m: nat, n: nat)
    requires l.Valid() && m < n <= |l.es|
    ensures l.Off(m) + 3 <= l.Off(n)
  {
    OffStep(l, n - 1);
    if m < n - 1 {
      OffGrows(l, m, n - 1);
    }
  }

  lemma {:induction false} ImageGrows(l: Layout, k: nat, a: nat, b: nat)
    requires l.Valid() && k < |l.es| && a <= b <= l.Off(k)
    ensures b <= l.Off(k + 1) && Image(l.es, l.shared, k + 1)[a..b] == Image(l.es, l.shared, k)[a..b]
  {
  }

  lemma {:induction false} ImageEnds(l: Layout, n: nat)
    requires l.Valid() && n < |l.es|
    ensures l.Off(n) <= l.Off(n + 1) == |Image(l.es, l.shared, n + 1)|
    ensures Image(l.es, l.shared, n + 1)[l.Off(n)..] == EntryBytes(l.es[n], l.shared[n])
  {
  }

  /** The image from entry `n` on begins with the bytes of that entry. */
  lemma {:induction false} ImageAt(l: Layout, n: nat, k: nat)
    requires l.Valid() && n < k <= |l.es|
    ensures l.Off(n) <= l.Off(n + 1) <= l.Off(k)
    ensures Image(l.es, l.shared, k)[l.Off(n)..l.Off(n + 1)] == EntryBytes(l.es[n], l.shared[n])
  {
    if n < k - 1 {
      ImageAt(l, n, k - 1);
      ImageGrows(l, k - 1, l.Off(n), l.Off(n + 1));
    } else {
      ImageEnds(l, n);
    }
  }
}
