/** The merging iterator: a two-way cursor over the sorted union of its children (table/merger.cc). */
module Merger {
  import opened Dbformat

  predicate Sorted(es: seq<Entry>) {
    forall i, j | 0 <= i < j < |es| :: Less(es[i].key, es[j].key)
  }

  predicate AllSorted(children: seq<seq<Entry>>) {
    forall i | 0 <= i < |children| :: Sorted(children[i])
  }

  /** Sorted children, no two of which hold the same key. */
  predicate Mergeable(children: seq<seq<Entry>>) {
    && AllSorted(children)
    && forall i, j | 0 <= i < j < |children| :: NoCommonKey(children[i], children[j])
  }

  predicate NoCommonKey(a: seq<Entry>, b: seq<Entry>) {
    forall i, j | 0 <= i < |a| && 0 <= j < |b| :: a[i].key != b[j].key
  }

  /** `m` is the sorted union of the children. */
  ghost predicate IsMerge(children: seq<seq<Entry>>, m: seq<Entry>) {
    && Sorted(m)
    && (forall i | 0 <= i < |children| :: Within(children[i], m))
    && forall e {:trigger FromChild(children, e)} | e in m :: FromChild(children, e)
  }

  predicate Within(child: seq<Entry>, m: seq<Entry>) {
    forall a | 0 <= a < |child| :: child[a] in m
  }

  ghost predicate FromChild(children: seq<seq<Entry>>, e: Entry) {
    exists i :: 0 <= i < |children| && e in children[i]
  }

  function Merge(a: seq<Entry>, b: seq<Entry>): seq<Entry> {
    if a == [] then b
    else if b == [] then a
    else if Less(a[0].key, b[0].key) then [a[0]] + Merge(a[1..], b)
    else [b[0]] + Merge(a, b[1..])
  }

  function MergeAll(children: seq<seq<Entry>>): seq<Entry> {
    if children == [] then [] else Merge(MergeAll(children[..|children| - 1]), children[|children| - 1])
  }

  lemma {:induction false} MergeIs(a: seq<Entry>, b: seq<Entry>)
    requires Sorted(a) && Sorted(b) && NoCommonKey(a, b)
    ensures forall e :: e in Merge(a, b) <==> e in a || e in b
    ensures Sorted(Merge(a, b))
  {
    if a != [] && b != [] {
      if Less(a[0].key, b[0].key) {
        MergeIs(a[1..], b);
        HeadFirst(a, b, Merge(a[1..], b));
      } else {
        MergeIs(a, b[1..]);
        HeadFirst(b, a, Merge(a, b[1..]));
      }
      assert a == [a[0]] + a[1..] && b == [b[0]] + b[1..];
    }
  }

  /** The smaller head comes before everything else. */
  lemma {:induction false} HeadFirst(a: seq<Entry>, b: seq<Entry>, rest: seq<Entry>)
    requires Sorted(a) && Sorted(b) && a != [] && b != [] && Less(a[0].key, b[0].key)
    requires Sorted(rest) && forall e :: e in rest <==> e in a[1..] || e in b
    ensures Sorted([a[0]] + rest)
  {
    forall j | 0 <= j < |rest| ensures Less(a[0].key, rest[j].key) {
      assert rest[j] in rest;
      if rest[j] in a[1..] {
        var k :| 0 <= k < |a| - 1 && a[1..][k] == rest[j];
      } else {
        var k :| 0 <= k < |b| && b[k] == rest[j];
      }
    }
  }

  /** Mergeable children have a sorted union. */
  lemma {:induction false} MergeExists(children: seq<seq<Entry>>)
    requires Mergeable(children)
    ensures IsMerge(children, MergeAll(children))
  {
    if children != [] {
      var init, last := children[..|children| - 1], children[|children| - 1];
      MergeExists(init);
      var m := MergeAll(init);
      forall i, j | 0 <= i < |m| && 0 <= j < |last| ensures m[i].key != last[j].key {
        assert FromChild(init, m[i]);
        var c :| 0 <= c < |init| && m[i] in init[c];
        assert NoCommonKey(children[c], children[|children| - 1]);
      }
      MergeIs(m, last);
      forall e | e in MergeAll(children) ensures FromChild(children, e) {
        if e in m {
          assert FromChild(init, e);
          var c :| 0 <= c < |init| && e in init[c];
          assert e in children[c];
        } else {
          assert e in children[|children| - 1];
        }
      }
      forall i | 0 <= i < |children| ensures Within(children[i], MergeAll(children)) {
        assert i < |init| ==> Within(init[i], m);
      }
    }
  }

  /** The sorted union is unique. */
  lemma {:induction false} MergeUnique(children: seq<seq<Entry>>, m: seq<Entry>, n: seq<Entry>)
    requires IsMerge(children, m) && IsMerge(children, n)
    ensures m == n
  {
    forall e: Entry ensures e in m <==> e in n {
      assert e in m ==> FromChild(children, e);
      assert e in n ==> FromChild(children, e);
      if FromChild(children, e) {
        var i :| 0 <= i < |children| && e in children[i];
        assert Within(children[i], m) && Within(children[i], n);
      }
    }
    SortedSame(m, n);
  }

  lemma {:induction false} SortedSame(m: seq<Entry>, n: seq<Entry>)
    requires Sorted(m) && Sorted(n) && forall e: Entry :: e in m <==> e in n
    ensures m == n
  {
    assert n != [] ==> n[0] in m;
    if m != [] {
      assert m[0] in n && n[0] in m;
      assert m[0] == n[0];
      forall e: Entry ensures e in m[1..] <==> e in n[1..] {
        assert e in m[1..] <==> e in m && e != m[0];
        assert e in n[1..] <==> e in n && e != n[0];
      }
      SortedSame(m[1..], n[1..]);
    }
  }

  // ---------- places in the union ----------

  lemma {:induction false} SeekAfter(es: seq<Entry>, k: InternalKey)
    requires Sorted(es)
    ensures forall j | SeekIndex(es, k) <= j < |es| :: !Less(es[j].key, k)
  {
    var at := SeekIndex(es, k);
    forall j | at < j < |es| ensures Less(es[at].key, es[j].key) {
    }
  }

  lemma {:induction false} PlaceOfIndex(m: seq<Entry>, n: nat)
    requires Sorted(m) && n < |m|
    ensures SeekIndex(m, m[n].key) == n
  {
    assert forall j | 0 <= j < n :: Less(m[j].key, m[n].key);
    SeekAfter(m, m[n].key);
  }

  lemma {:induction false} SeekExact(es: seq<Entry>, e: Entry)
    requires Sorted(es) && e in es
    ensures SeekIndex(es, e.key) < |es| && es[SeekIndex(es, e.key)] == e
  {
    var i :| 0 <= i < |es| && es[i] == e;
    PlaceOfIndex(es, i);
  }

  lemma {:induction false} PlaceOrder(m: seq<Entry>, a: Entry, b: Entry)
    requires Sorted(m) && a in m && b in m
    ensures Less(a.key, b.key) <==> SeekIndex(m, a.key) < SeekIndex(m, b.key)
    ensures a.key == b.key <==> SeekIndex(m, a.key) == SeekIndex(m, b.key)
  {
    SeekExact(m, a);
    SeekExact(m, b);
    var i, j := SeekIndex(m, a.key), SeekIndex(m, b.key);
    assert i < j ==> Less(m[i].key, m[j].key);
    assert j < i ==> Less(m[j].key, m[i].key);
  }

  /** The first `s` entries of the child, and no others, come before place `n` of the union. */
  ghost predicate Split(m: seq<Entry>, child: seq<Entry>, s: int, n: nat) {
    && 0 <= s <= |child|
    && (forall a | 0 <= a < s :: SeekIndex(m, child[a].key) < n)
    && forall a | s <= a < |child| :: SeekIndex(m, child[a].key) >= n
  }

  /** Seeking a child to a key of the union splits it there. */
  lemma {:induction false} SeekSplits(children: seq<seq<Entry>>, m: seq<Entry>, i: nat, k: InternalKey)
    requires AllSorted(children) && IsMerge(children, m) && i < |children|
    ensures Split(m, children[i], SeekIndex(children[i], k), SeekIndex(m, k))
  {
    var child, s, n := children[i], SeekIndex(children[i], k), SeekIndex(m, k);
    SeekAfter(child, k);
    SeekAfter(m, k);
    forall a | 0 <= a < |child| ensures if a < s then SeekIndex(m, child[a].key) < n else SeekIndex(m, child[a].key) >= n {
      SeekExact(m, child[a]);
    }
  }

  /** Only the child that holds the entry at place `n` changes its split when passing it. */
  lemma {:induction false} SplitNext(children: seq<seq<Entry>>, m: seq<Entry>, c: nat, a: nat, i: nat, s: int)
    requires Mergeable(children) && IsMerge(children, m) && c < |children| && a < |children[c]| && i < |children|
    requires Split(m, children[c], a, SeekIndex(m, children[c][a].key))
    requires Split(m, children[i], s, SeekIndex(m, children[c][a].key))
    ensures Split(m, children[i], if i == c then a + 1 else s, SeekIndex(m, children[c][a].key) + 1)
  {
    var e, n := children[c][a], SeekIndex(m, children[c][a].key);
    forall b | 0 <= b < |children[i]|
      ensures SeekIndex(m, children[i][b].key) == n <==> i == c && b == a
    {
      PlaceOrder(m, children[i][b], e);
      assert i < c ==> NoCommonKey(children[i], children[c]);
      assert c < i ==> NoCommonKey(children[c], children[i]);
      assert i == c && a < b ==> Less(children[c][a].key, children[c][b].key);
      assert i == c && b < a ==> Less(children[c][b].key, children[c][a].key);
    }
  }

  /** The same one place further back. */
  lemma {:induction false} SplitPrev(children: seq<seq<Entry>>, m: seq<Entry>, c: nat, a: nat, i: nat, s: int, n: nat)
    requires Mergeable(children) && IsMerge(children, m) && c < |children| && a < |children[c]| && i < |children|
    requires n == SeekIndex(m, children[c][a].key) && Split(m, children[i], s, n + 1)
    requires i == c ==> s == a + 1
    ensures Split(m, children[i], if i == c then a else s, n)
  {
    var e := children[c][a];
    forall b | 0 <= b < |children[i]|
      ensures SeekIndex(m, children[i][b].key) == n <==> i == c && b == a
    {
      PlaceOrder(m, children[i][b], e);
      assert i < c ==> NoCommonKey(children[i], children[c]);
      assert c < i ==> NoCommonKey(children[c], children[i]);
      assert i == c && a < b ==> Less(children[c][a].key, children[c][b].key);
      assert i == c && b < a ==> Less(children[c][b].key, children[c][a].key);
    }
  }

  /** Some child stands on place `n` when all are split there. */
  lemma {:induction false} HeadAt(children: seq<seq<Entry>>, m: seq<Entry>, splits: seq<int>, n: nat) returns (i: nat)
    requires AllSorted(children) && IsMerge(children, m) && |splits| == |children| && n < |m|
    requires forall j | 0 <= j < |children| :: Split(m, children[j], splits[j], n)
    ensures i < |children| && 0 <= splits[i] < |children[i]| && SeekIndex(m, children[i][splits[i]].key) == n
  {
    assert m[n] in m && FromChild(children, m[n]);
    i :| 0 <= i < |children| && m[n] in children[i];
    PlaceOfIndex(m, n);
    SplitAt(m, children[i], splits[i], n);
  }

  lemma {:induction false} SplitAt(m: seq<Entry>, child: seq<Entry>, s: int, n: nat)
    requires Sorted(child) && Sorted(m) && n < |m| && m[n] in child && Split(m, child, s, n)
    requires SeekIndex(m, m[n].key) == n && forall a | 0 <= a < |child| :: child[a] in m
    ensures s < |child| && SeekIndex(m, child[s].key) == n
  {
    var a :| 0 <= a < |child| && child[a] == m[n];
    PlaceOrder(m, child[s], child[a]);
  }

  lemma {:induction false} TailAt(children: seq<seq<Entry>>, m: seq<Entry>, splits: seq<int>, n: nat) returns (i: nat)
    requires AllSorted(children) && IsMerge(children, m) && |splits| == |children| && n < |m|
    requires forall j | 0 <= j < |children| :: Split(m, children[j], splits[j], n + 1)
    ensures i < |children| && 0 < splits[i] <= |children[i]| && SeekIndex(m, children[i][splits[i] - 1].key) == n
  {
    assert m[n] in m && FromChild(children, m[n]);
    i :| 0 <= i < |children| && m[n] in children[i];
    PlaceOfIndex(m, n);
    SplitUpTo(m, children[i], splits[i], n);
  }

  lemma {:induction false} SplitUpTo(m: seq<Entry>, child: seq<Entry>, s: int, n: nat)
    requires Sorted(child) && Sorted(m) && n < |m| && m[n] in child && Split(m, child, s, n + 1)
    requires SeekIndex(m, m[n].key) == n && forall a | 0 <= a < |child| :: child[a] in m
    ensures 0 < s && SeekIndex(m, child[s - 1].key) == n
  {
    var a :| 0 <= a < |child| && child[a] == m[n];
    PlaceOrder(m, child[a], child[s - 1]);
  }

  // ---------- positions of all children ----------

  /** Positions of the children, -1 where a child is not valid. */
  predicate InBounds(children: seq<seq<Entry>>, pos: seq<int>) {
    |pos| == |children| && forall i | 0 <= i < |children| :: -1 <= pos[i] < |children[i]|
  }

  function Ahead(child: seq<Entry>, p: int): int {
    if p < 0 then |child| else p
  }

  /** Every child stands on its first entry from place `n` of the union on. */
  ghost predicate AllFrom(children: seq<seq<Entry>>, m: seq<Entry>, pos: seq<int>, n: nat) {
    InBounds(children, pos) && forall i | 0 <= i < |children| :: Split(m, children[i], Ahead(children[i], pos[i]), n)
  }

  /** Every child stands on its last entry before place `n` of the union. */
  ghost predicate AllUpTo(children: seq<seq<Entry>>, m: seq<Entry>, pos: seq<int>, n: nat) {
    InBounds(children, pos) && forall i | 0 <= i < |children| :: Split(m, children[i], pos[i] + 1, n)
  }

  /** Child `c` stands on the entry at place `n`, the others just before it. */
  ghost predicate OthersUpTo(children: seq<seq<Entry>>, m: seq<Entry>, pos: seq<int>, n: nat, c: nat) {
    && InBounds(children, pos) && c < |children|
    && forall i | 0 <= i < |children| :: Split(m, children[i], if i == c then pos[c] else pos[i] + 1, n)
  }

  predicate IsSmallest(children: seq<seq<Entry>>, pos: seq<int>, current: Option<nat>)
    requires InBounds(children, pos)
  {
    match current
    case None => forall i | 0 <= i < |children| :: pos[i] == -1
    case Some(c) => && c < |children| && pos[c] >= 0
                    && forall i | 0 <= i < |children| && pos[i] >= 0 :: !Less(children[i][pos[i]].key, children[c][pos[c]].key)
  }

  predicate IsLargest(children: seq<seq<Entry>>, pos: seq<int>, current: Option<nat>)
    requires InBounds(children, pos)
  {
    match current
    case None => forall i | 0 <= i < |children| :: pos[i] == -1
    case Some(c) => && c < |children| && pos[c] >= 0
                    && forall i | 0 <= i < |children| && pos[i] >= 0 :: !Less(children[c][pos[c]].key, children[i][pos[i]].key)
  }

  method FindSmallest(children: seq<seq<Entry>>, pos: seq<int>) returns (current: Option<nat>)
    requires InBounds(children, pos)
    ensures IsSmallest(children, pos, current)
  {
    current := None;
    for i := 0 to |children|
      invariant current.None? ==> forall j | 0 <= j < i :: pos[j] == -1
      invariant current.Some? ==> current.value < |children| && pos[current.value] >= 0
      invariant current.Some? ==> forall j | 0 <= j < i && pos[j] >= 0 ::
                       !Less(children[j][pos[j]].key, children[current.value][pos[current.value]].key)
    {
      if pos[i] >= 0 && (current.None? || Less(children[i][pos[i]].key, children[current.value][pos[current.value]].key)) {
        current := Some(i);
      }
    }
  }

  method FindLargest(children: seq<seq<Entry>>, pos: seq<int>) returns (current: Option<nat>)
    requires InBounds(children, pos)
    ensures IsLargest(children, pos, current)
  {
    current := None;
    for i := |children| downto 0
      invariant current.None? ==> forall j | i <= j < |children| :: pos[j] == -1
      invariant current.Some? ==> current.value < |children| && pos[current.value] >= 0
      invariant current.Some? ==> forall j | i <= j < |children| && pos[j] >= 0 ::
                       !Less(children[current.value][pos[current.value]].key, children[j][pos[j]].key)
    {
      if pos[i] >= 0 && (current.None? || Less(children[current.value][pos[current.value]].key, children[i][pos[i]].key)) {
        current := Some(i);
      }
    }
  }

  /** The smallest of the entries from place `n` on is the entry at place `n`. */
  lemma {:induction false} SmallestLands(children: seq<seq<Entry>>, pos: seq<int>, n: nat, current: Option<nat>)
    requires Mergeable(children) && AllFrom(children, MergeAll(children), pos, n) && IsSmallest(children, pos, current)
    ensures current.Some? <==> n < |MergeAll(children)|
    ensures current.Some? ==> SeekIndex(MergeAll(children), children[current.value][pos[current.value]].key) == n
  {
    var m := MergeAll(children);
    MergeExists(children);
    var splits := seq(|children|, i requires 0 <= i < |children| => Ahead(children[i], pos[i]));
    if current.Some? {
      var c := current.value;
      SeekExact(m, children[c][pos[c]]);
      var i := HeadAt(children, m, splits, n);
      PlaceOrder(m, children[i][pos[i]], children[c][pos[c]]);
    } else if n < |m| {
      var i := HeadAt(children, m, splits, n);
    }
  }

  /** The largest of the entries before place `n` is the entry at place `n - 1`. */
  lemma {:induction false} LargestPlace(children: seq<seq<Entry>>, m: seq<Entry>, pos: seq<int>, n: nat, current: Option<nat>)
    requires AllSorted(children) && IsMerge(children, m) && AllUpTo(children, m, pos, n) && n <= |m|
    requires IsLargest(children, pos, current)
    ensures current.Some? <==> 0 < n
    ensures current.Some? ==> SeekIndex(m, children[current.value][pos[current.value]].key) == n - 1
  {
    var splits := seq(|children|, i requires 0 <= i < |children| => pos[i] + 1);
    if current.Some? {
      var c := current.value;
      assert SeekIndex(m, children[c][pos[c]].key) < n;
      var i := TailAt(children, m, splits, n - 1);
      PlaceOrder(m, children[c][pos[c]], children[i][pos[i]]);
    } else if 0 < n {
      var i := TailAt(children, m, splits, n - 1);
    }
  }

  lemma {:induction false} LargestLands(children: seq<seq<Entry>>, pos: seq<int>, n: nat, current: Option<nat>)
    requires Mergeable(children) && AllUpTo(children, MergeAll(children), pos, n) && n <= |MergeAll(children)|
    requires IsLargest(children, pos, current)
    ensures current.Some? <==> 0 < n
    ensures current.Some? ==> SeekIndex(MergeAll(children), children[current.value][pos[current.value]].key) == n - 1
                              && OthersUpTo(children, MergeAll(children), pos, n - 1, current.value)
  {
    var m := MergeAll(children);
    MergeExists(children);
    LargestPlace(children, m, pos, n, current);
    if current.Some? {
      var c := current.value;
      forall j | 0 <= j < |children| ensures Split(m, children[j], if j == c then pos[c] else pos[j] + 1, n - 1) {
        SplitPrev(children, m, c, pos[c], j, pos[j] + 1, n - 1);
      }
    }
  }

  lemma {:induction false} FirstAllFrom(children: seq<seq<Entry>>, m: seq<Entry>, pos: seq<int>)
    requires |pos| == |children| && forall j | 0 <= j < |children| :: pos[j] == if children[j] == [] then -1 else 0
    ensures AllFrom(children, m, pos, 0)
  {
  }

  /** The current child steps over its entry. */
  lemma {:induction false} AdvancePasses(children: seq<seq<Entry>>, pos: seq<int>, n: nat, c: nat, pos': seq<int>)
    requires Mergeable(children) && InBounds(children, pos) && c < |children| && pos[c] >= 0
    requires n == SeekIndex(MergeAll(children), children[c][pos[c]].key) && AllFrom(children, MergeAll(children), pos, n)
    requires pos' == pos[c := if pos[c] + 1 < |children[c]| then pos[c] + 1 else -1]
    ensures AllFrom(children, MergeAll(children), pos', n + 1)
  {
    MergeExists(children);
    forall i | 0 <= i < |children| ensures Split(MergeAll(children), children[i], Ahead(children[i], pos'[i]), n + 1) {
      SplitNext(children, MergeAll(children), c, pos[c], i, Ahead(children[i], pos[i]));
    }
  }

  /** The current child steps back from its entry. */
  lemma {:induction false} RetreatPasses(children: seq<seq<Entry>>, pos: seq<int>, n: nat, c: nat, pos': seq<int>)
    requires Mergeable(children) && OthersUpTo(children, MergeAll(children), pos, n, c) && pos[c] >= 0
    requires n == SeekIndex(MergeAll(children), children[c][pos[c]].key)
    requires pos' == pos[c := pos[c] - 1]
    ensures AllUpTo(children, MergeAll(children), pos', n) && n < |MergeAll(children)|
  {
    MergeExists(children);
    SeekExact(MergeAll(children), children[c][pos[c]]);
  }

  /** Where entry `p` of child `c` is in the union. */
  ghost function Place(children: seq<seq<Entry>>, pos: seq<int>, c: nat): nat
    requires InBounds(children, pos) && c < |children| && pos[c] >= 0
  {
    SeekIndex(MergeAll(children), children[c][pos[c]].key)
  }

  method Advance(children: seq<seq<Entry>>, pos: seq<int>, c: nat) returns (r: seq<int>, current: Option<nat>)
    requires Mergeable(children) && InBounds(children, pos) && c < |children| && pos[c] >= 0
    requires AllFrom(children, MergeAll(children), pos, Place(children, pos, c))
    ensures AllFrom(children, MergeAll(children), r, Place(children, pos, c) + 1)
    ensures current.Some? <==> Place(children, pos, c) + 1 < |MergeAll(children)|
    ensures current.Some? ==> current.value < |children| && r[current.value] >= 0
    ensures current.Some? ==> Place(children, r, current.value) == Place(children, pos, c) + 1
  {
    r := pos[c := if pos[c] + 1 < |children[c]| then pos[c] + 1 else -1];
    AdvancePasses(children, pos, Place(children, pos, c), c, r);
    current := FindSmallest(children, r);
    SmallestLands(children, r, Place(children, pos, c) + 1, current);
  }

  method Retreat(children: seq<seq<Entry>>, pos: seq<int>, c: nat) returns (r: seq<int>, current: Option<nat>)
    requires Mergeable(children) && InBounds(children, pos) && c < |children| && pos[c] >= 0
    requires OthersUpTo(children, MergeAll(children), pos, Place(children, pos, c), c)
    ensures InBounds(children, r)
    ensures current.Some? <==> 0 < Place(children, pos, c)
    ensures current.Some? ==> current.value < |children| && r[current.value] >= 0
    ensures current.Some? ==> Place(children, r, current.value) == Place(children, pos, c) - 1
    ensures current.Some? ==> OthersUpTo(children, MergeAll(children), r, Place(children, r, current.value), current.value)
  {
    r := pos[c := pos[c] - 1];
    RetreatPasses(children, pos, Place(children, pos, c), c, r);
    current := FindLargest(children, r);
    LargestLands(children, r, Place(children, pos, c), current);
  }

  // ---------- the iterator ----------

  datatype Direction = Forward | Reverse

  class MergingIterator {
    const children: seq<seq<Entry>>
    var pos: seq<int>
    var current: Option<nat>
    var direction: Direction

    /** The sorted union of the children. */
    ghost function Union(): seq<Entry> {
      MergeAll(children)
    }

    predicate OnEntry()
      reads this
    {
      InBounds(children, pos) && (current.Some? ==> current.value < |children| && pos[current.value] >= 0)
    }

    /** The current place in the union. */
    ghost function Index(): nat
      requires current.Some? && OnEntry()
      reads this
    {
      Place(children, pos, current.value)
    }

    ghost predicate Valid()
      reads this
    {
      && Mergeable(children) && OnEntry()
      && (current.Some? ==> match direction
                            case Forward => AllFrom(children, Union(), pos, Index())
                            case Reverse => OthersUpTo(children, Union(), pos, Index(), current.value))
    }

    constructor (children: seq<seq<Entry>>)
      requires Mergeable(children)
      ensures Valid() && current.None? && this.children == children
    {
      this.children := children;
      pos := seq(|children|, _ => -1);
      current, direction := None, Forward;
    }

    method Current() returns (e: Entry)
      requires Valid() && current.Some?
      ensures Index() < |Union()| && e == Union()[Index()]
    {
      e := children[current.value][pos[current.value]];
      MergeExists(children);
      SeekExact(Union(), e);
    }

    method SeekToFirst()
      requires Valid()
      modifies this
      ensures Valid() && (current.Some? <==> Union() != []) && (current.Some? ==> Index() == 0)
    {
      for i := 0 to |children|
        invariant |pos| == |children| && forall j | 0 <= j < i :: pos[j] == if children[j] == [] then -1 else 0
      {
        pos := pos[i := if children[i] == [] then -1 else 0];
      }
      FirstAllFrom(children, Union(), pos);
      current := FindSmallest(children, pos);
      direction := Forward;
      SmallestLands(children, pos, 0, current);
    }

    method SeekToLast()
      requires Valid()
      modifies this
      ensures Valid() && (current.Some? <==> Union() != []) && (current.Some? ==> Index() == |Union()| - 1)
    {
      for i := 0 to |children|
        invariant |pos| == |children| && forall j | 0 <= j < i :: pos[j] == |children[j]| - 1
      {
        pos := pos[i := |children[i]| - 1];
      }
      AllBeforeEnd(children, pos);
      current := FindLargest(children, pos);
      direction := Reverse;
      LargestLands(children, pos, |Union()|, current);
    }

    /** Seek lands where a seek in the union would. */
    method Seek(target: InternalKey)
      requires Valid()
      modifies this
      ensures Valid() && (current.Some? <==> SeekIndex(Union(), target) < |Union()|)
      ensures current.Some? ==> Index() == SeekIndex(Union(), target)
    {
      for i := 0 to |children|
        invariant |pos| == |children|
        invariant forall j | 0 <= j < i :: pos[j] == SeekPosition(children[j], target)
      {
        pos := pos[i := SeekPosition(children[i], target)];
      }
      SeekAllFrom(children, pos, target);
      current := FindSmallest(children, pos);
      direction := Forward;
      SmallestLands(children, pos, SeekIndex(Union(), target), current);
    }

    /** Turning around keeps the place: the other children go to their first entry after it. */
    method TurnForward()
      requires Valid() && current.Some? && direction.Reverse?
      modifies this`pos, this`direction
      ensures Valid() && direction.Forward? && Index() == old(Index())
    {
      pos := SeekOthersForward(children, pos, current.value);
      direction := Forward;
    }

    /** The other children go to their last entry before the current one. */
    method TurnBack()
      requires Valid() && current.Some? && direction.Forward?
      modifies this`pos, this`direction
      ensures Valid() && direction.Reverse? && Index() == old(Index())
    {
      pos := SeekOthersBack(children, pos, current.value);
      direction := Reverse;
    }

    /** Next moves one place down the union, whichever way the iterator was moving. */
    method Next()
      requires Valid() && current.Some?
      modifies this
      ensures Valid() && (current.Some? <==> old(Index()) + 1 < |Union()|)
      ensures current.Some? ==> Index() == old(Index()) + 1
    {
      if direction.Reverse? {
        TurnForward();
      }
      pos, current := Advance(children, pos, current.value);
    }

    /** Prev moves one place up the union, whichever way the iterator was moving. */
    method Prev()
      requires Valid() && current.Some?
      modifies this
      ensures Valid() && (current.Some? <==> 0 < old(Index()))
      ensures current.Some? ==> Index() == old(Index()) - 1
    {
      if direction.Forward? {
        TurnBack();
      }
      pos, current := Retreat(children, pos, current.value);
    }
  }

  /** Where a Seek leaves a child. */
  function SeekPosition(child: seq<Entry>, target: InternalKey): int {
    var at := SeekIndex(child, target);
    if at < |child| then at else -1
  }

  lemma {:induction false} SeekAllFrom(children: seq<seq<Entry>>, pos: seq<int>, target: InternalKey)
    requires Mergeable(children) && |pos| == |children|
    requires forall j | 0 <= j < |children| :: pos[j] == SeekPosition(children[j], target)
    ensures AllFrom(children, MergeAll(children), pos, SeekIndex(MergeAll(children), target))
  {
    MergeExists(children);
    forall i | 0 <= i < |children|
      ensures Split(MergeAll(children), children[i], Ahead(children[i], pos[i]), SeekIndex(MergeAll(children), target))
    {
      SeekSplits(children, MergeAll(children), i, target);
    }
  }

  lemma {:induction false} AllBeforeEnd(children: seq<seq<Entry>>, pos: seq<int>)
    requires Mergeable(children) && |pos| == |children| && forall j | 0 <= j < |children| :: pos[j] == |children[j]| - 1
    ensures AllUpTo(children, MergeAll(children), pos, |MergeAll(children)|)
  {
    MergeExists(children);
    forall i, a | 0 <= i < |children| && 0 <= a < |children[i]|
      ensures SeekIndex(MergeAll(children), children[i][a].key) < |MergeAll(children)|
    {
      SeekExact(MergeAll(children), children[i][a]);
    }
  }

  /** Children other than `c` go to their first entry after the current key. */
  method SeekOthersForward(children: seq<seq<Entry>>, pos: seq<int>, c: nat) returns (r: seq<int>)
    requires Mergeable(children) && InBounds(children, pos) && c < |children| && pos[c] >= 0
    ensures InBounds(children, r) && r[c] == pos[c]
    ensures AllFrom(children, MergeAll(children), r, SeekIndex(MergeAll(children), children[c][pos[c]].key))
  {
    var key := children[c][pos[c]].key;
    r := pos;
    for i := 0 to |children|
      invariant |r| == |children| && r[c] == pos[c]
      invariant forall j | 0 <= j < i && j != c :: r[j] == SeekPosition(children[j], key)
    {
      if i != c {
        var p := SeekPosition(children[i], key);
        r := r[i := if p >= 0 && children[i][p].key == key then p + 1 else p];
      }
    }
    OthersSought(children, pos, c, r);
  }

  lemma {:induction false} OthersSought(children: seq<seq<Entry>>, pos: seq<int>, c: nat, r: seq<int>)
    requires Mergeable(children) && InBounds(children, pos) && c < |children| && pos[c] >= 0
    requires |r| == |children| && r[c] == pos[c]
    requires forall j | 0 <= j < |children| && j != c :: r[j] == SeekPosition(children[j], children[c][pos[c]].key)
    ensures AllFrom(children, MergeAll(children), r, SeekIndex(MergeAll(children), children[c][pos[c]].key))
  {
    var key := children[c][pos[c]].key;
    PlaceOfIndex(children[c], pos[c]);
    SeekAllFrom(children, r, key);
  }

  /** Children other than `c` go to their last entry before the current key. */
  method SeekOthersBack(children: seq<seq<Entry>>, pos: seq<int>, c: nat) returns (r: seq<int>)
    requires Mergeable(children) && InBounds(children, pos) && c < |children| && pos[c] >= 0
    ensures |r| == |children| && r[c] == pos[c]
    ensures OthersUpTo(children, MergeAll(children), r, SeekIndex(MergeAll(children), children[c][pos[c]].key), c)
  {
    var key := children[c][pos[c]].key;
    r := pos;
    for i := 0 to |children|
      invariant |r| == |children| && r[c] == pos[c]
      invariant forall j | 0 <= j < i && j != c :: r[j] == SeekIndex(children[j], key) - 1
    {
      if i != c {
        var p := SeekPosition(children[i], key);
        if p >= 0 {
          r := r[i := p - 1];
        } else {
          r := r[i := |children[i]| - 1];
        }
      }
    }
    OthersBack(children, pos, c, r);
  }

  lemma {:induction false} OthersBack(children: seq<seq<Entry>>, pos: seq<int>, c: nat, r: seq<int>)
    requires Mergeable(children) && InBounds(children, pos) && c < |children| && pos[c] >= 0
    requires |r| == |children| && r[c] == pos[c]
    requires forall j | 0 <= j < |children| && j != c :: r[j] == SeekIndex(children[j], children[c][pos[c]].key) - 1
    ensures OthersUpTo(children, MergeAll(children), r, SeekIndex(MergeAll(children), children[c][pos[c]].key), c)
  {
    var key := children[c][pos[c]].key;
    MergeExists(children);
    PlaceOfIndex(children[c], pos[c]);
    forall i | 0 <= i < |children|
      ensures Split(MergeAll(children), children[i], if i == c then r[c] else r[i] + 1, SeekIndex(MergeAll(children), key))
    {
      SeekSplits(children, MergeAll(children), i, key);
    }
  }
}
