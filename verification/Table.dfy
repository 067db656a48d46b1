/** Tables: data blocks behind an index of separators, point lookups and the two-level cursor
    (table/table_builder.cc, table/table.cc, table/two_level_iterator.cc). */
module Table {
  import opened Dbformat
  import Coding
  import Comparator

  type Block = seq<Entry>

  /** All entries of the blocks, in order. */
  function Flat(blocks: seq<Block>): seq<Entry> {
    if blocks == [] then [] else Flat(blocks[..|blocks| - 1]) + blocks[|blocks| - 1]
  }

  /** How many entries come before block `b`. */
  function Offset(blocks: seq<Block>, b: nat): nat
    requires b <= |blocks|
  {
    |Flat(blocks[..b])|
  }

  /** How many entries there are up to the end of block `b`. */
  function End(blocks: seq<Block>, b: nat): nat
    requires b < |blocks|
  {
    Offset(blocks, b + 1)
  }

  lemma {:induction false} OffsetStep(blocks: seq<Block>, b: nat)
    requires b < |blocks|
    ensures Offset(blocks, b + 1) == Offset(blocks, b) + |blocks[b]|
    ensures Flat(blocks[..b + 1]) == Flat(blocks[..b]) + blocks[b]
  {
    assert blocks[..b + 1][..b] == blocks[..b];
  }

  lemma {:induction false} FlatPrefix(blocks: seq<Block>, b: nat, n: nat)
    requires b <= n <= |blocks|
    ensures Flat(blocks[..b]) <= Flat(blocks[..n])
  {
    if b < n {
      OffsetStep(blocks, n - 1);
      FlatPrefix(blocks, b, n - 1);
    }
  }

  lemma {:induction false} FlatAt(blocks: seq<Block>, b: nat, k: nat)
    requires b < |blocks| && k < |blocks[b]|
    ensures Offset(blocks, b) + k < |Flat(blocks)| && Flat(blocks)[Offset(blocks, b) + k] == blocks[b][k]
  {
    OffsetStep(blocks, b);
    FlatPrefix(blocks, b + 1, |blocks|);
    assert blocks[..|blocks|] == blocks;
  }

  /** Every entry is in some block. */
  lemma {:induction false} FlatFind(blocks: seq<Block>, n: nat, i: nat) returns (b: nat, k: nat)
    requires n <= |blocks| && i < Offset(blocks, n)
    ensures b < n && k < |blocks[b]| && i == Offset(blocks, b) + k
  {
    OffsetStep(blocks, n - 1);
    if i < Offset(blocks, n - 1) {
      b, k := FlatFind(blocks, n - 1, i);
    } else {
      b, k := n - 1, i - Offset(blocks, n - 1);
    }
  }

  /** The index separates the blocks: nothing up to block `i` is after its key, everything later is. */
  predicate Separates(index: seq<InternalKey>, blocks: seq<Block>) {
    && |index| == |blocks|
    && (forall i, j, k | 0 <= j <= i < |blocks| && 0 <= k < |blocks[j]| :: !Less(index[i], blocks[j][k].key))
    && (forall i, j, k | 0 <= i < j < |blocks| && 0 <= k < |blocks[j]| :: Less(index[i], blocks[j][k].key))
  }

  // ---------- building ----------

  /** The separators and successors the comparator provides. */
  ghost predicate Separator(separator: (InternalKey, InternalKey) -> InternalKey, successor: InternalKey -> InternalKey) {
    && (forall a, b :: Comparator.Follows(a, separator(a, b)))
    && (forall a, b :: separator(a, b) != a ==> separator(a, b).ukey < b.ukey)
    && forall a :: Comparator.Follows(a, successor(a))
  }

  /** The separator of the bytewise comparator on keys whose user keys have bytes. */
  function BytewiseSeparator(names: UserKey -> Bytes, a: InternalKey, b: InternalKey): InternalKey {
    if Comparator.Rank(names(a.ukey)) == a.ukey && Comparator.Rank(names(b.ukey)) == b.ukey then
      var start := Coding.EncodedKey(names(a.ukey), a.sequence, a.typ);
      Comparator.Ranked(Comparator.Shortened(start, Comparator.Separator(names(a.ukey), names(b.ukey))))
    else a
  }

  function BytewiseSuccessor(names: UserKey -> Bytes, a: InternalKey): InternalKey {
    if Comparator.Rank(names(a.ukey)) == a.ukey then
      var key := Coding.EncodedKey(names(a.ukey), a.sequence, a.typ);
      Comparator.Ranked(Comparator.Shortened(key, Comparator.Successor(names(a.ukey))))
    else a
  }

  /** The bytewise comparator provides what a table asks for. */
  lemma {:induction false} BytewiseSeparates(names: UserKey -> Bytes)
    ensures Separator((a, b) => BytewiseSeparator(names, a, b), a => BytewiseSuccessor(names, a))
  {
    forall a: InternalKey, b: InternalKey
      ensures Comparator.Follows(a, BytewiseSeparator(names, a, b))
      ensures BytewiseSeparator(names, a, b) != a ==> BytewiseSeparator(names, a, b).ukey < b.ukey
    {
      Comparator.SeparatorRanks(Coding.EncodedKey(names(a.ukey), a.sequence, a.typ), Coding.EncodedKey(names(b.ukey), b.sequence, b.typ));
    }
    forall a: InternalKey ensures Comparator.Follows(a, BytewiseSuccessor(names, a)) {
      Comparator.SuccessorRanks(Coding.EncodedKey(names(a.ukey), a.sequence, a.typ));
    }
  }

  /** Index key `key` for the entries before position `n`: at or after the last of them, before the
      next one, and changed only to a user key strictly between the two. */
  predicate IndexedAt(es: seq<Entry>, n: nat, key: InternalKey) {
    && 0 < n <= |es|
    && Comparator.Follows(es[n - 1].key, key)
    && (n < |es| && key != es[n - 1].key ==> key.ukey < es[n].key.ukey)
  }

  /** The index keys of the first blocks. */
  ghost predicate Indexed(blocks: seq<Block>, index: seq<InternalKey>, es: seq<Entry>) {
    && |index| <= |blocks|
    && forall i | 0 <= i < |index| :: IndexedAt(es, End(blocks, i), index[i])
  }

  /** No shorter run of these entries is full. */
  ghost predicate Growing(full: Block -> bool, b: Block) {
    forall k | 0 < k < |b| :: !full(b[..k])
  }

  ghost predicate CutAt(full: Block -> bool, blocks: seq<Block>, early: set<int>, i: nat)
    requires i < |blocks|
  {
    && blocks[i] != [] && Growing(full, blocks[i])
    && (i in early || full(blocks[i]))
  }

  /** Every block was closed as soon as it was full, but for those closed before that. */
  ghost predicate CutWhenFull(full: Block -> bool, blocks: seq<Block>, early: set<int>) {
    forall i: nat | i < |blocks| :: CutAt(full, blocks, early, i)
  }

  lemma {:induction false} MoreEarly(full: Block -> bool, blocks: seq<Block>, early: set<int>, more: set<int>)
    requires CutWhenFull(full, blocks, early) && early <= more
    ensures CutWhenFull(full, blocks, more)
  {
    forall i: nat | i < |blocks| ensures CutAt(full, blocks, more, i) {
      assert CutAt(full, blocks, early, i);
    }
  }

  lemma {:induction false} StillGrowing(full: Block -> bool, b: Block, e: Entry)
    requires forall k | 0 < k <= |b| :: !full(b[..k])
    ensures Growing(full, b + [e])
  {
    forall k | 0 < k < |b| + 1 ensures !full((b + [e])[..k]) {
      assert (b + [e])[..k] == b[..k];
    }
  }

  lemma {:induction false} NotFullYet(full: Block -> bool, b: Block)
    requires Growing(full, b) && !full(b)
    ensures forall k | 0 < k <= |b| :: !full(b[..k])
  {
    assert b[..|b|] == b;
  }

  /** If only the last block may be closed before it is full, the entries leave one way to cut them. */
  lemma {:induction false} BlocksUnique(full: Block -> bool, a: seq<Block>, b: seq<Block>)
    requires CutWhenFull(full, a, {|a| - 1}) && CutWhenFull(full, b, {|b| - 1}) && Flat(a) == Flat(b)
    ensures a == b
  {
    FirstBlocksSame(full, a, b, |a|);
    FirstBlocksSame(full, b, a, |b|);
    assert a == a[..|a|] && b == b[..|b|];
  }

  lemma {:induction false} FirstBlocksSame(full: Block -> bool, a: seq<Block>, b: seq<Block>, n: nat)
    requires CutWhenFull(full, a, {|a| - 1}) && CutWhenFull(full, b, {|b| - 1}) && Flat(a) == Flat(b) && n <= |a|
    ensures n <= |b| && a[..n] == b[..n]
  {
    if n > 0 {
      FirstBlocksSame(full, a, b, n - 1);
      var m := n - 1;
      assert CutAt(full, a, {|a| - 1}, m);
      NotAllYet(a, m);
      assert b[..|b|] == b;
      assert m < |b|;
      assert CutAt(full, b, {|b| - 1}, m);
      NotShorter(full, a, b, m);
      NotShorter(full, b, a, m);
      BlockFlat(a, m);
      BlockFlat(b, m);
      assert a[m] == b[m];
      assert a[..n] == a[..m] + [a[m]] && b[..n] == b[..m] + [b[m]];
    }
  }

  /** A block is a slice of all the entries. */
  lemma {:induction false} BlockFlat(blocks: seq<Block>, m: nat)
    requires m < |blocks|
    ensures Offset(blocks, m) + |blocks[m]| <= |Flat(blocks)|
    ensures blocks[m] == Flat(blocks)[Offset(blocks, m)..Offset(blocks, m) + |blocks[m]|]
    ensures m + 1 == |blocks| ==> Offset(blocks, m) + |blocks[m]| == |Flat(blocks)|
  {
    OffsetStep(blocks, m);
    FlatPrefix(blocks, m + 1, |blocks|);
    assert blocks[..|blocks|] == blocks;
  }

  lemma {:induction false} NotAllYet(blocks: seq<Block>, m: nat)
    requires m < |blocks| && blocks[m] != []
    ensures Flat(blocks[..m]) != Flat(blocks)
  {
    BlockFlat(blocks, m);
  }

  lemma {:induction false} NotShorter(full: Block -> bool, a: seq<Block>, b: seq<Block>, m: nat)
    requires m < |a| && m < |b| && a[..m] == b[..m] && Flat(a) == Flat(b)
    requires CutAt(full, a, {|a| - 1}, m) && CutAt(full, b, {|b| - 1}, m)
    ensures |a[m]| >= |b[m]|
  {
    BlockFlat(a, m);
    BlockFlat(b, m);
    assert |a[m]| <= |b[m]| ==> a[m] == b[m][..|a[m]|];
  }

  class TableBuilder {
    const separator: (InternalKey, InternalKey) -> InternalKey
    const successor: InternalKey -> InternalKey
    const full: seq<Entry> -> bool
    var blocks: seq<Block>
    var index: seq<InternalKey>
    var dataBlock: Block
    var lastKey: Option<InternalKey>
    var pendingIndexEntry: bool
    /** The blocks that were closed by a call of Flush before they were full. */
    ghost var early: set<int>

    /** Everything added so far. */
    ghost function Added(): seq<Entry>
      reads this
    {
      Flat(blocks) + dataBlock
    }

    ghost predicate Valid()
      reads this
    {
      && Separator(separator, successor)
      && Ordered(Added()) && (forall i | 0 <= i < |blocks| :: blocks[i] != [])
      && CutWhenFull(full, blocks, early) && (forall i | i in early :: i < |blocks|)
      && (forall k | 0 < k <= |dataBlock| :: !full(dataBlock[..k]))
      && |index| == (if pendingIndexEntry then |blocks| - 1 else |blocks|)
      && (dataBlock == [] ==> blocks == [] || pendingIndexEntry) && (pendingIndexEntry ==> blocks != [] && dataBlock == [])
      && lastKey == (if Added() == [] then None else Some(Added()[|Added()| - 1].key))
      && Indexed(blocks, index, Added())
    }

    constructor (separator: (InternalKey, InternalKey) -> InternalKey, successor: InternalKey -> InternalKey, full: seq<Entry> -> bool)
      requires Separator(separator, successor)
      ensures Valid() && Added() == [] && early == {}
    {
      this.separator, this.successor, this.full, early := separator, successor, full, {};
      blocks, index, dataBlock, lastKey, pendingIndexEntry := [], [], [], None, false;
    }

    method Add(e: Entry)
      requires Valid() && (Added() == [] || Before(Added()[|Added()| - 1], e))
      modifies this
      ensures Valid() && Added() == old(Added()) + [e] && early == old(early)
    {
      ghost var was, before := Added(), dataBlock;
      if pendingIndexEntry {
        IndexBlock(e);
      } else {
        IndexSurvives(blocks, index, dataBlock, e);
      }
      lastKey := Some(e.key);
      dataBlock := dataBlock + [e];
      assert Added() == was + [e];
      AddOrdered(was, e);
      StillGrowing(full, before, e);
      if full(dataBlock) {
        WriteBlock();
      } else {
        NotFullYet(full, dataBlock);
      }
    }

    /** The index entry of the last block, now that the next key is known. */
    method IndexBlock(e: Entry)
      requires Valid() && pendingIndexEntry
      requires Before(Added()[|Added()| - 1], e)
      modifies this`index, this`lastKey, this`pendingIndexEntry
      ensures !pendingIndexEntry && |index| == |blocks| && Indexed(blocks, index, Added() + [e])
    {
      assert Added() == Flat(blocks);
      lastKey := Some(separator(lastKey.value, e.key));
      PendingIndexed(blocks, index, e, lastKey.value);
      index := index + [lastKey.value];
      pendingIndexEntry := false;
    }

    /** The caller may close a block before it is full. */
    method Flush()
      requires Valid()
      modifies this
      ensures Valid() && Added() == old(Added()) && dataBlock == []
      ensures Added() != [] ==> pendingIndexEntry
      ensures blocks == (if old(dataBlock) == [] then old(blocks) else old(blocks) + [old(dataBlock)])
      ensures early == (if old(dataBlock) == [] then old(early) else old(early) + {|old(blocks)|})
    {
      if dataBlock == [] {
        return;
      }
      early := early + {|blocks|};
      MoreEarly(full, blocks, old(early), early);
      WriteBlock();
    }

    /** The data block as it stands becomes the next block of the table. */
    method WriteBlock()
      requires dataBlock != [] && Growing(full, dataBlock) && (|blocks| in early || full(dataBlock))
      requires Separator(separator, successor) && Ordered(Added())
      requires (forall i | 0 <= i < |blocks| :: blocks[i] != []) && CutWhenFull(full, blocks, early)
      requires forall i | i in early :: i <= |blocks|
      requires !pendingIndexEntry && |index| == |blocks| && lastKey == Some(Added()[|Added()| - 1].key)
      requires Indexed(blocks, index, Added())
      modifies this`blocks, this`dataBlock, this`pendingIndexEntry
      ensures Valid() && Added() == old(Added()) && dataBlock == [] && pendingIndexEntry
      ensures blocks == old(blocks) + [old(dataBlock)]
    {
      ghost var was := blocks;
      forall i: nat | i <= |was| ensures CutAt(full, was + [dataBlock], early, i) {
        if i < |was| {
          assert CutAt(full, was, early, i);
        }
      }
      blocks, dataBlock := blocks + [dataBlock], [];
      assert blocks[..|was|] == was;
      forall i | 0 <= i < |index| ensures End(blocks, i) == End(was, i) {
        assert blocks[..i + 1] == was[..i + 1];
      }
      pendingIndexEntry := true;
    }

    /** Finish: a complete table, holding exactly what was added, cut where the blocks were full. */
    method Finish()
      requires Valid()
      modifies this
      ensures Flat(blocks) == old(Added()) && |index| == |blocks|
      ensures Indexed(blocks, index, Flat(blocks)) && Separates(index, blocks)
      ensures CutWhenFull(full, blocks, old(early) + {|blocks| - 1})
    {
      ghost var was := early;
      Flush();
      IndexLast(was + {|blocks| - 1});
    }

    /** The index entry of the last block, which no key follows. */
    method IndexLast(ghost cuts: set<int>)
      requires Valid() && dataBlock == [] && (Added() != [] ==> pendingIndexEntry) && early <= cuts
      modifies this`index, this`lastKey, this`pendingIndexEntry
      ensures |index| == |blocks| && Flat(blocks) == old(Added())
      ensures Indexed(blocks, index, Flat(blocks)) && Separates(index, blocks)
      ensures CutWhenFull(full, blocks, cuts)
    {
      MoreEarly(full, blocks, early, cuts);
      assert Added() == Flat(blocks);
      if pendingIndexEntry {
        lastKey := Some(successor(lastKey.value));
        LastIndexed(blocks, index, lastKey.value);
        index := index + [lastKey.value];
        pendingIndexEntry := false;
      }
      IndexSeparates(blocks, index);
    }
  }

  lemma {:induction false} LastIndexed(blocks: seq<Block>, index: seq<InternalKey>, key: InternalKey)
    requires blocks != [] && Indexed(blocks, index, Flat(blocks)) && |index| == |blocks| - 1
    requires Flat(blocks) != [] && Comparator.Follows(Flat(blocks)[|Flat(blocks)| - 1].key, key)
    ensures Indexed(blocks, index + [key], Flat(blocks))
  {
    assert blocks[..|blocks|] == blocks;
  }

  lemma {:induction false} OffsetGrows(blocks: seq<Block>, b: nat, n: nat)
    requires b < n <= |blocks| && forall i | 0 <= i < |blocks| :: blocks[i] != []
    ensures Offset(blocks, b) < Offset(blocks, n)
    decreases n
  {
    OffsetStep(blocks, n - 1);
    if b < n - 1 {
      OffsetGrows(blocks, b, n - 1);
    }
  }

  /** One more entry does not disturb the index keys already there. */
  lemma {:induction false} IndexSurvives(blocks: seq<Block>, index: seq<InternalKey>, dataBlock: Block, e: Entry)
    requires Indexed(blocks, index, Flat(blocks) + dataBlock)
    requires forall i | 0 <= i < |blocks| :: blocks[i] != []
    requires |index| == |blocks| ==> dataBlock != [] || blocks == []
    ensures Indexed(blocks, index, Flat(blocks) + dataBlock + [e])
  {
    assert blocks[..|blocks|] == blocks;
    forall i | 0 <= i < |index| ensures End(blocks, i) < |Flat(blocks) + dataBlock| {
      if i + 1 < |blocks| {
        OffsetGrows(blocks, i + 1, |blocks|);
      }
    }
  }

  /** The delayed index entry of the last block, chosen with the next key in hand. */
  lemma {:induction false} PendingIndexed(blocks: seq<Block>, index: seq<InternalKey>, e: Entry, key: InternalKey)
    requires blocks != [] && (forall i | 0 <= i < |blocks| :: blocks[i] != []) && |index| == |blocks| - 1
    requires Indexed(blocks, index, Flat(blocks))
    requires Flat(blocks) != [] && Comparator.Follows(Flat(blocks)[|Flat(blocks)| - 1].key, key)
    requires key != Flat(blocks)[|Flat(blocks)| - 1].key ==> key.ukey < e.key.ukey
    ensures Indexed(blocks, index + [key], Flat(blocks) + [e])
  {
    assert Flat(blocks) + [] == Flat(blocks);
    IndexSurvives(blocks, index, [], e);
    assert blocks[..|blocks|] == blocks;
  }

  lemma {:induction false} AddOrdered(es: seq<Entry>, e: Entry)
    requires Ordered(es) && (es == [] || Before(es[|es| - 1], e))
    ensures Ordered(es + [e])
  {
  }

  /** Index keys made this way separate the blocks. */
  lemma {:induction false} IndexSeparates(blocks: seq<Block>, index: seq<InternalKey>)
    requires Ordered(Flat(blocks)) && |index| == |blocks| && Indexed(blocks, index, Flat(blocks))
    ensures Separates(index, blocks)
  {
    var es := Flat(blocks);
    forall i, j, k | 0 <= i < |blocks| && 0 <= j < |blocks| && 0 <= k < |blocks[j]|
      ensures if j <= i then !Less(index[i], blocks[j][k].key) else Less(index[i], blocks[j][k].key)
    {
      var n, p := End(blocks, i), Offset(blocks, j) + k;
      FlatAt(blocks, j, k);
      assert IndexedAt(es, n, index[i]);
      OffsetStep(blocks, j);
      if j <= i {
        FlatPrefix(blocks, j + 1, i + 1);
        assert p < n - 1 ==> Before(es[p], es[n - 1]);
      } else {
        FlatPrefix(blocks, i + 1, j);
        assert Before(es[n - 1], es[p]);
        assert n < p ==> Before(es[n], es[p]);
      }
    }
  }

  // ---------- point lookups ----------

  /** The index block's Seek: the first key at or after `k`. */
  function SeekKey(index: seq<InternalKey>, k: InternalKey): (r: nat)
    ensures r <= |index|
    ensures forall i | 0 <= i < r :: Less(index[i], k)
    ensures r < |index| ==> !Less(index[r], k)
  {
    if index == [] || !Less(index[0], k) then 0 else 1 + SeekKey(index[1..], k)
  }

  /** InternalGet looks into one block only, and not even there if the filter rules it out; it still
      finds the newest visible version of the user key, if there is one. */
  method InternalGet(blocks: seq<Block>, index: seq<InternalKey>, mayMatch: (nat, UserKey) -> bool, u: UserKey, snap: nat)
    returns (r: Option<Entry>)
    requires Ordered(Flat(blocks)) && |index| == |blocks| && Indexed(blocks, index, Flat(blocks))
    requires (forall i | 0 <= i < |blocks| :: blocks[i] != []) && snap <= MAX_SEQUENCE
    requires forall b, k | 0 <= b < |blocks| && 0 <= k < |blocks[b]| :: mayMatch(b, blocks[b][k].key.ukey)
    ensures (if r.Some? && r.value.key.ukey == u then r else None) == Newest(Elements(Flat(blocks)), u, snap)
  {
    var key := LookupKey(u, snap);
    var b := SeekKey(index, key);
    IndexSeparates(blocks, index);
    SeekFindsNewest(Flat(blocks), u, snap);
    r := None;
    if b < |index| {
      BlockHolds(blocks, index, u, snap, b);
      if mayMatch(b, u) {
        var k := SeekIndex(blocks[b], key);
        if k < |blocks[b]| {
          r := Some(blocks[b][k]);
        }
      }
    } else {
      NotPastEnd(blocks, index, key);
    }
  }

  lemma {:induction false} NotPastEnd(blocks: seq<Block>, index: seq<InternalKey>, key: InternalKey)
    requires Separates(index, blocks) && SeekKey(index, key) == |index|
    ensures SeekIndex(Flat(blocks), key) == |Flat(blocks)|
  {
    var es := Flat(blocks);
    assert blocks[..|blocks|] == blocks;
    forall i | 0 <= i < |es| ensures Less(es[i].key, key) {
      var b, k := FlatFind(blocks, |blocks|, i);
      FlatAt(blocks, b, k);
      assert !Less(index[b], blocks[b][k].key);
    }
  }

  /** Where a Seek lands in the flat sequence, seen from block `b`. */
  lemma {:induction false} SeekInBlock(blocks: seq<Block>, index: seq<InternalKey>, key: InternalKey, b: nat)
    requires Ordered(Flat(blocks)) && Separates(index, blocks) && b == SeekKey(index, key) < |index|
    ensures SeekIndex(Flat(blocks), key) == Offset(blocks, b) + SeekIndex(blocks[b], key)
  {
    var es, i, k := Flat(blocks), SeekIndex(Flat(blocks), key), SeekIndex(blocks[b], key);
    var p := Offset(blocks, b) + k;
    assert blocks[..|blocks|] == blocks;
    OffsetStep(blocks, b);
    FlatPrefix(blocks, b + 1, |blocks|);
    forall j | 0 <= j < p ensures Less(es[j].key, key) {
      FlatPrefix(blocks, b + 1, |blocks|);
      var c, m := FlatFind(blocks, b + 1, j);
      FlatAt(blocks, c, m);
      if c < b {
        assert !Less(index[c], blocks[c][m].key) && Less(index[c], key);
      }
    }
    if p < |es| {
      var c, m := FlatFind(blocks, |blocks|, p);
      FlatAt(blocks, c, m);
      assert !Less(es[p].key, key) by {
        if c > b {
          assert Less(index[b], blocks[c][m].key);
        } else {
          BlockOf(blocks, b, k, c, m);
        }
      }
    }
  }

  /** A position inside block `b` or at its end is not in an earlier block. */
  lemma {:induction false} BlockOf(blocks: seq<Block>, b: nat, k: nat, c: nat, m: nat)
    requires c <= b < |blocks| && k <= |blocks[b]| && m < |blocks[c]| && Offset(blocks, b) + k == Offset(blocks, c) + m
    ensures c == b && k == m
  {
    OffsetStep(blocks, c);
    if c < b {
      FlatPrefix(blocks, c + 1, b);
    }
  }

  /** A visible version that the index leads past block `b` does not exist: the key after the block
      is of a later user key, or the index key is the last key of the block itself. */
  lemma {:induction false} BlockHolds(blocks: seq<Block>, index: seq<InternalKey>, u: UserKey, snap: nat, b: nat)
    requires Ordered(Flat(blocks)) && |index| == |blocks| && Indexed(blocks, index, Flat(blocks)) && Separates(index, blocks)
    requires snap <= MAX_SEQUENCE && b == SeekKey(index, LookupKey(u, snap)) < |index| && blocks[b] != []
    ensures var es, i, k := Flat(blocks), SeekIndex(Flat(blocks), LookupKey(u, snap)), SeekIndex(blocks[b], LookupKey(u, snap));
            if k < |blocks[b]| then i < |es| && es[i] == blocks[b][k]
            else i < |es| ==> es[i].key.ukey != u
  {
    var es, key := Flat(blocks), LookupKey(u, snap);
    var i, k := SeekIndex(es, key), SeekIndex(blocks[b], key);
    SeekInBlock(blocks, index, key, b);
    if k < |blocks[b]| {
      FlatAt(blocks, b, k);
    } else {
      OffsetStep(blocks, b);
      assert IndexedAt(es, i, index[b]);
      FlatAt(blocks, b, k - 1);
      assert Less(blocks[b][k - 1].key, key);
    }
  }
}
