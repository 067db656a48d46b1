/** The filter block: one filter per 2 KiB of data offsets (table/filter_block.cc). */
module FilterBlock {
  import opened Dbformat
  import opened Coding
  import opened Bloom

  const BASE_LG: nat := 11
  const BASE: nat := 2048

  // ---------- reading ----------

  /** Where the offset array starts, how many filters there are, and the logarithm of the range of a
      filter; None when the contents are too short or their last word is out of range. */
  function Open(contents: Bytes): Option<(nat, nat, nat)> {
    var n := |contents|;
    if n < 5 then None
    else
      var lastWord := DecodeFixed(contents[n - 5..n - 1]);
      if lastWord > n - 5 then None else Some((lastWord, (n - 5 - lastWord) / 4, contents[n - 1] as nat))
  }

  function WordAt(contents: Bytes, p: nat): nat
    requires p + 4 <= |contents|
  {
    DecodeFixed(contents[p..p + 4])
  }

  /** Whether the filter between two words of the offset array accepts the key. */
  function RangeMatches(hash: Bytes -> nat, contents: Bytes, arrayOffset: nat, start: nat, limit: nat, key: Bytes): bool
    requires arrayOffset <= |contents|
  {
    if start <= limit <= arrayOffset then Accepts(hash, contents[start..limit], key)
    else start != limit
  }

  /** FilterBlockReader::KeyMayMatch; errors are potential matches. */
  function MayMatch(hash: Bytes -> nat, contents: Bytes, blockOffset: nat, key: Bytes): bool {
    match Open(contents)
    case None => true
    case Some((arrayOffset, num, baseLg)) =>
      var index := Shift(blockOffset, baseLg);
      if index < num then
        IndexWithin(|contents|, arrayOffset, num, index);
        RangeMatches(hash, contents, arrayOffset, WordAt(contents, arrayOffset + 4 * index), WordAt(contents, arrayOffset + 4 * index + 4), key)
      else true
  }

  lemma {:induction false} IndexWithin(n: nat, arrayOffset: nat, num: nat, index: nat)
    requires n >= 5 && arrayOffset <= n - 5 && num == (n - 5 - arrayOffset) / 4 && index < num
    ensures arrayOffset + 4 * index + 8 <= n
  {
  }

  /** A right shift. */
  function Shift(v: nat, k: nat): nat {
    if k == 0 then v else Shift(v / 2, k - 1)
  }

  lemma {:induction false} ShiftFour(v: nat, k: nat)
    requires k >= 4
    ensures Shift(v, k) == Shift(v / 16, k - 4)
  {
    assert Shift(v, k) == Shift(v / 2, k - 1);
    assert Shift(v / 2, k - 1) == Shift(v / 2 / 2, k - 2);
    assert Shift(v / 2 / 2, k - 2) == Shift(v / 2 / 2 / 2, k - 3);
    assert Shift(v / 2 / 2 / 2, k - 3) == Shift(v / 2 / 2 / 2 / 2, k - 4);
    assert v / 2 / 2 / 2 / 2 == v / 16;
  }

  lemma {:induction false} ShiftEleven(v: nat)
    ensures Shift(v, BASE_LG) == v / BASE
  {
    ShiftFour(v, 11);
    ShiftFour(v / 16, 7);
    var b := v / 16 / 16;
    assert Shift(b / 2 / 2, 1) == b / 2 / 2 / 2 == b / 8;
    assert Shift(b, 3) == Shift(b / 2, 2) == Shift(b / 2 / 2, 1);
    assert b == v / 256 && v / 256 / 8 == v / 2048;
  }

  // ---------- the format ----------

  function Words(offsets: seq<nat>): Bytes {
    if offsets == [] then [] else Words(offsets[..|offsets| - 1]) + Fixed(offsets[|offsets| - 1], 4)
  }

  function Contents(result: Bytes, offsets: seq<nat>): Bytes {
    result + Words(offsets) + Fixed(|result|, 4) + [BASE_LG]
  }

  /** The bytes of filter `i`. */
  function Slot(result: Bytes, offsets: seq<nat>, i: nat): Bytes
    requires i < |offsets| && forall j | 0 <= j < |offsets| :: offsets[j] <= |result|
    requires i + 1 < |offsets| ==> offsets[i] <= offsets[i + 1]
  {
    result[offsets[i]..if i + 1 < |offsets| then offsets[i + 1] else |result|]
  }

  predicate Ascending(offsets: seq<nat>, end: nat) {
    && (forall i, j | 0 <= i < j < |offsets| :: offsets[i] <= offsets[j])
    && forall i | 0 <= i < |offsets| :: offsets[i] <= end
  }

  // ---------- building ----------

  /** The keys of the flattened key list. */
  function KeyAt(keys: Bytes, start: seq<nat>, i: nat): Bytes
    requires i < |start| && Ascending(start, |keys|)
  {
    keys[start[i]..if i + 1 < |start| then start[i + 1] else |keys|]
  }

  predicate Waits(keys: Bytes, start: seq<nat>, key: Bytes)
    requires Ascending(start, |keys|)
  {
    exists i :: 0 <= i < |start| && KeyAt(keys, start, i) == key
  }

  /** Some block in the range of filter `i` has the key. */
  ghost predicate Of(added: set<(nat, Bytes)>, i: nat, key: Bytes) {
    exists o: nat :: (o, key) in added && o / BASE == i
  }

  /** The keys of the filters made so far, and those that wait, are the keys added for blocks in their ranges. */
  ghost predicate Tracks(added: set<(nat, Bytes)>, made: seq<seq<Bytes>>, keys: Bytes, start: seq<nat>)
    requires Ascending(start, |keys|)
  {
    && (forall i, key | 0 <= i < |made| :: key in made[i] <==> Of(added, i, key))
    && (forall key :: Waits(keys, start, key) <==> Of(added, |made|, key))
    && forall o, key | (o, key) in added :: o / BASE <= |made|
  }

  /** The filter over these keys; none at all for no keys. */
  predicate MadeFrom(hash: Bytes -> nat, k: nat, bitsPerKey: nat, slot: Bytes, keys: seq<Bytes>) {
    if keys == [] then slot == []
    else
      && |slot| >= 2 && slot[|slot| - 1] == k && 8 * (|slot| - 1) == FilterBits(|keys|, bitsPerKey)
      && Exact(hash, keys, k, slot[..|slot| - 1])
  }

  ghost predicate SlotsMade(hash: Bytes -> nat, k: nat, bitsPerKey: nat, result: Bytes, offsets: seq<nat>, made: seq<seq<Bytes>>)
    requires Ascending(offsets, |result|)
  {
    |made| == |offsets| && forall i | 0 <= i < |offsets| :: MadeFrom(hash, k, bitsPerKey, Slot(result, offsets, i), made[i])
  }

  /** Whether a filter over the keys accepts a key: each of its probes hits a bit that they share. */
  predicate Takes(hash: Bytes -> nat, k: nat, bitsPerKey: nat, keys: seq<Bytes>, key: Bytes) {
    keys != [] && AllMarked(hash, keys, k, FilterBits(|keys|, bitsPerKey), key)
  }

  lemma {:induction false} MadeFromTakes(hash: Bytes -> nat, k: nat, bitsPerKey: nat, slot: Bytes, keys: seq<Bytes>, key: Bytes)
    requires MadeFrom(hash, k, bitsPerKey, slot, keys) && k <= 30
    ensures Accepts(hash, slot, key) <==> Takes(hash, k, bitsPerKey, keys, key)
  {
    if keys != [] {
      var table := slot[..|slot| - 1];
      assert slot == table + [k as Byte];
      ExactAccepts(hash, keys, k, table, key);
    }
  }

  /** A filter more: the keys that waited are its keys, and none waits for the next range. */
  lemma {:induction false} TracksFilter(added: set<(nat, Bytes)>, made: seq<seq<Bytes>>, keys: Bytes, start: seq<nat>, tmpKeys: seq<Bytes>,
                                        keys': Bytes, start': seq<nat>)
    requires Ascending(start, |keys|) && Tracks(added, made, keys, start) && Ascending(start', |keys'|) && start' == []
    requires |tmpKeys| == |start| && forall j | 0 <= j < |start| :: tmpKeys[j] == KeyAt(keys, start, j)
    ensures Tracks(added, made + [tmpKeys], keys', start')
  {
    var all := made + [tmpKeys];
    forall key ensures key in tmpKeys <==> Waits(keys, start, key) {
      if Waits(keys, start, key) {
        var i :| 0 <= i < |start| && KeyAt(keys, start, i) == key;
        assert tmpKeys[i] == key;
      }
    }
    forall i, key | 0 <= i < |all| ensures key in all[i] <==> Of(added, i, key) {
      assert i < |made| ==> all[i] == made[i];
    }
  }

  /** A key more for the range that waits. */
  lemma {:induction false} TracksKey(added: set<(nat, Bytes)>, made: seq<seq<Bytes>>, keys: Bytes, start: seq<nat>, offset: nat, key: Bytes)
    requires Ascending(start, |keys|) && Tracks(added, made, keys, start) && offset / BASE == |made|
    ensures Ascending(start + [|keys|], |keys + key|)
    ensures Tracks(added + {(offset, key)}, made, keys + key, start + [|keys|])
  {
    KeyAppended(keys, start, key);
    var keys', start', added' := keys + key, start + [|keys|], added + {(offset, key)};
    forall i, x ensures Of(added', i, x) <==> Of(added, i, x) || (i == |made| && x == key) {
      if Of(added, i, x) {
        var o: nat :| (o, x) in added && o / BASE == i;
        assert (o, x) in added';
      }
      assert (offset, key) in added';
    }
    forall x ensures Waits(keys', start', x) <==> Waits(keys, start, x) || x == key {
      if Waits(keys, start, x) {
        var i :| 0 <= i < |start| && KeyAt(keys, start, i) == x;
        assert KeyAt(keys', start', i) == x;
      }
      assert KeyAt(keys', start', |start|) == key;
    }
  }

  lemma {:induction false} SlotMore(hash: Bytes -> nat, k: nat, bitsPerKey: nat, result: Bytes, offsets: seq<nat>, made: seq<seq<Bytes>>,
                                    grown: Bytes, keys: seq<Bytes>)
    requires Ascending(offsets, |result|) && SlotsMade(hash, k, bitsPerKey, result, offsets, made) && result <= grown
    requires MadeFrom(hash, k, bitsPerKey, grown[|result|..], keys)
    ensures Ascending(offsets + [|result|], |grown|)
    ensures SlotsMade(hash, k, bitsPerKey, grown, offsets + [|result|], made + [keys])
  {
    SlotsKept(result, offsets, grown);
    var all, filters := offsets + [|result|], made + [keys];
    forall i | 0 <= i < |all| ensures MadeFrom(hash, k, bitsPerKey, Slot(grown, all, i), filters[i]) {
      if i < |offsets| {
        assert Slot(grown, all, i) == Slot(result, offsets, i) && filters[i] == made[i];
      } else {
        assert Slot(grown, all, i) == grown[|result|..];
      }
    }
  }

  class FilterBlockBuilder {
    const policy: BloomFilterPolicy
    var keys: Bytes
    var start: seq<nat>
    var result: Bytes
    var filterOffsets: seq<nat>
    ghost var offset: nat /* of the block whose keys are being added */
    ghost var added: set<(nat, Bytes)> /* every key, with the offset of its block */
    ghost var made: seq<seq<Bytes>> /* the keys of each filter */

    ghost predicate Valid()
      reads this, policy
    {
      && policy.Valid() && Ascending(filterOffsets, |result|) && Ascending(start, |keys|)
      && SlotsMade(policy.hash, policy.k, policy.bitsPerKey, result, filterOffsets, made)
      && Tracks(added, made, keys, start)
    }

    constructor (policy: BloomFilterPolicy)
      requires policy.Valid()
      ensures Valid() && added == {} && filterOffsets == [] && this.policy == policy
    {
      this.policy := policy;
      keys, start, result, filterOffsets, offset, added, made := [], [], [], [], 0, {}, [];
    }

    /** StartBlock: the filters for the ranges already passed are made now. */
    method StartBlock(blockOffset: nat)
      requires Valid() && blockOffset / BASE >= |filterOffsets|
      modifies this
      ensures Valid() && offset == blockOffset && |filterOffsets| == blockOffset / BASE
      ensures added == old(added)
    {
      var filterIndex := blockOffset / BASE;
      while filterIndex > |filterOffsets|
        invariant Valid() && filterIndex >= |filterOffsets| && added == old(added)
      {
        GenerateFilter();
      }
      offset := blockOffset;
    }

    method AddKey(key: Bytes)
      requires Valid() && offset / BASE == |filterOffsets|
      modifies this
      ensures Valid() && offset == old(offset) && filterOffsets == old(filterOffsets)
      ensures added == old(added) + {(offset, key)}
    {
      TracksKey(added, made, keys, start, offset, key);
      start := start + [|keys|];
      keys := keys + key;
      added := added + {(offset, key)};
    }

    /** The keys of the flattened list, one by one. */
    method TakeKeys() returns (tmpKeys: seq<Bytes>)
      requires Valid()
      ensures |tmpKeys| == |start| && forall j | 0 <= j < |start| :: tmpKeys[j] == KeyAt(keys, start, j)
    {
      tmpKeys := [];
      for i := 0 to |start|
        invariant |tmpKeys| == i && forall j | 0 <= j < i :: tmpKeys[j] == KeyAt(keys, start, j)
      {
        tmpKeys := tmpKeys + [keys[start[i]..if i + 1 < |start| then start[i + 1] else |keys|]];
      }
    }

    method GenerateFilter()
      requires Valid()
      modifies this
      ensures Valid() && |filterOffsets| == |old(filterOffsets)| + 1
      ensures start == [] && added == old(added) && offset == old(offset)
    {
      ghost var was, offsets := result, filterOffsets;
      var numKeys := |start|;
      if numKeys == 0 {
        filterOffsets := filterOffsets + [|result|];
        assert result[|result|..] == [];
        SlotMore(policy.hash, policy.k, policy.bitsPerKey, was, offsets, made, result, []);
        TracksFilter(added, made, keys, start, [], keys, start);
        made := made + [[]];
        return;
      }
      var tmpKeys := TakeKeys();
      filterOffsets := filterOffsets + [|result|];
      result := policy.CreateFilter(tmpKeys, result);
      assert result[|was|..][..|result| - |was| - 1] == result[|was|..|result| - 1];
      SlotMore(policy.hash, policy.k, policy.bitsPerKey, was, offsets, made, result, tmpKeys);
      TracksFilter(added, made, keys, start, tmpKeys, [], []);
      made := made + [tmpKeys];
      keys, start := [], [];
    }

    /** Finish: every key that was added is accepted at the offset of its block, and of others those alone
        whose probes all hit bits that the keys of the range share. */
    method Finish() returns (contents: Bytes)
      requires Valid()
      modifies this
      ensures added == old(added)
      ensures forall i, key | 0 <= i < |made| :: key in made[i] <==> Of(added, i, key)
      ensures forall o, key | (o, key) in added :: o / BASE < |made|
      ensures |contents| < TWO32 ==>
                forall o: nat, key :: MayMatch(policy.hash, contents, o, key)
                  <==> o / BASE >= |made| || Takes(policy.hash, policy.k, policy.bitsPerKey, made[o / BASE], key)
      ensures |contents| < TWO32 ==> forall o, key | (o, key) in added :: MayMatch(policy.hash, contents, o, key)
    {
      if start != [] {
        GenerateFilter();
      }
      NoneWaits(added, made, keys, start);
      contents := Write();
      AllAnswers(policy.hash, policy.k, policy.bitsPerKey, result, filterOffsets, made, contents);
      AddedAnswers(policy.hash, policy.k, policy.bitsPerKey, added, made, keys, start, contents);
    }

    /** The filters, the offsets, and where the offsets begin. */
    method Write() returns (contents: Bytes)
      requires Valid()
      ensures contents == Contents(result, filterOffsets)
    {
      contents := result;
      for i := 0 to |filterOffsets|
        invariant contents == result + Words(filterOffsets[..i])
      {
        assert filterOffsets[..i + 1][..i] == filterOffsets[..i];
        contents := contents + Fixed(filterOffsets[i], 4);
      }
      assert filterOffsets[..|filterOffsets|] == filterOffsets;
      contents := contents + Fixed(|result|, 4);
      contents := contents + [BASE_LG];
    }
  }

  lemma {:induction false} NoneWaits(added: set<(nat, Bytes)>, made: seq<seq<Bytes>>, keys: Bytes, start: seq<nat>)
    requires Ascending(start, |keys|) && Tracks(added, made, keys, start) && start == []
    ensures forall o, key | (o, key) in added :: o / BASE < |made|
  {
    forall o, key | (o, key) in added ensures o / BASE < |made| {
      assert !Waits(keys, start, key);
    }
  }

  /** What the reader answers for any offset and any key. */
  lemma {:induction false} AllAnswers(hash: Bytes -> nat, k: nat, bitsPerKey: nat, result: Bytes, offsets: seq<nat>, made: seq<seq<Bytes>>,
                                      contents: Bytes)
    requires Ascending(offsets, |result|) && SlotsMade(hash, k, bitsPerKey, result, offsets, made) && contents == Contents(result, offsets)
    requires k <= 30
    ensures |contents| < TWO32 ==>
              forall o: nat, key :: MayMatch(hash, contents, o, key) <==> o / BASE >= |made| || Takes(hash, k, bitsPerKey, made[o / BASE], key)
  {
    if |contents| < TWO32 {
      forall o: nat, key
        ensures MayMatch(hash, contents, o, key) <==> o / BASE >= |made| || Takes(hash, k, bitsPerKey, made[o / BASE], key)
      {
        ContentsMatch(hash, result, offsets, o, key);
        if o / BASE < |made| {
          MadeFromTakes(hash, k, bitsPerKey, Slot(result, offsets, o / BASE), made[o / BASE], key);
        }
      }
    }
  }

  /** The keys that were added are accepted. */
  lemma {:induction false} AddedAnswers(hash: Bytes -> nat, k: nat, bitsPerKey: nat, added: set<(nat, Bytes)>, made: seq<seq<Bytes>>,
                                        keys: Bytes, start: seq<nat>, contents: Bytes)
    requires Ascending(start, |keys|) && Tracks(added, made, keys, start)
    requires |contents| < TWO32 ==>
               forall o: nat, key :: MayMatch(hash, contents, o, key) <==> o / BASE >= |made| || Takes(hash, k, bitsPerKey, made[o / BASE], key)
    ensures |contents| < TWO32 ==> forall o, key | (o, key) in added :: MayMatch(hash, contents, o, key)
  {
    forall o, key | (o, key) in added && o / BASE < |made| ensures Takes(hash, k, bitsPerKey, made[o / BASE], key) {
      assert Of(added, o / BASE, key);
      OwnMarked(hash, made[o / BASE], k, FilterBits(|made[o / BASE]|, bitsPerKey), key);
    }
  }

  lemma {:induction false} WordsAt(offsets: seq<nat>, n: nat, i: nat)
    requires i < n <= |offsets|
    ensures |Words(offsets[..n])| == 4 * n && Words(offsets[..n])[4 * i..4 * i + 4] == Fixed(offsets[i], 4)
  {
    assert offsets[..n][..n - 1] == offsets[..n - 1];
    if i < n - 1 {
      WordsAt(offsets, n - 1, i);
    } else if n > 1 {
      WordsAt(offsets, n - 1, 0);
    }
  }

  /** The parts of a finished filter block. */
  lemma {:induction false} ContentsOpen(result: Bytes, offsets: seq<nat>)
    requires |Contents(result, offsets)| < TWO32
    ensures |Contents(result, offsets)| == |result| + 4 * |offsets| + 5
    ensures Open(Contents(result, offsets)) == Some((|result|, |offsets|, BASE_LG))
  {
    var c, n := Contents(result, offsets), |offsets|;
    assert offsets[..n] == offsets;
    if n > 0 {
      WordsAt(offsets, n, 0);
    }
    assert c[|c| - 5..|c| - 1] == Fixed(|result|, 4);
    assert Pow256(4) == TWO32 by { assert Pow256(2) == 65536; }
    FixedRoundTrip(|result|, 4);
  }

  lemma {:induction false} ContentsWord(result: Bytes, offsets: seq<nat>, i: nat)
    requires |Contents(result, offsets)| < TWO32 && Ascending(offsets, |result|) && i <= |offsets|
    ensures |Contents(result, offsets)| == |result| + 4 * |offsets| + 5
    ensures WordAt(Contents(result, offsets), |result| + 4 * i) == if i < |offsets| then offsets[i] else |result|
  {
    var c, n := Contents(result, offsets), |offsets|;
    ContentsOpen(result, offsets);
    assert offsets[..n] == offsets;
    assert Pow256(4) == TWO32 by { assert Pow256(2) == 65536; }
    if i < n {
      WordsAt(offsets, n, i);
      assert c[|result| + 4 * i..|result| + 4 * i + 4] == Words(offsets)[4 * i..4 * i + 4];
      FixedRoundTrip(offsets[i], 4);
    } else {
      assert c[|result| + 4 * n..|result| + 4 * n + 4] == Fixed(|result|, 4);
      FixedRoundTrip(|result|, 4);
    }
  }

  /** The reader accepts a key exactly if its filter does; beyond the last filter it accepts every key. */
  lemma {:induction false} ContentsMatch(hash: Bytes -> nat, result: Bytes, offsets: seq<nat>, o: nat, key: Bytes)
    requires |Contents(result, offsets)| < TWO32 && Ascending(offsets, |result|)
    ensures MayMatch(hash, Contents(result, offsets), o, key)
            <==> o / BASE >= |offsets| || Accepts(hash, Slot(result, offsets, o / BASE), key)
  {
    var c, index := Contents(result, offsets), o / BASE;
    ContentsOpen(result, offsets);
    ShiftEleven(o);
    if index < |offsets| {
      ContentsSlot(result, offsets, index, c);
    }
  }

  /** The words around a filter are where it starts and ends. */
  lemma {:induction false} ContentsSlot(result: Bytes, offsets: seq<nat>, i: nat, c: Bytes)
    requires c == Contents(result, offsets) && |c| < TWO32 && Ascending(offsets, |result|) && i < |offsets|
    ensures |c| == |result| + 4 * |offsets| + 5
    ensures WordAt(c, |result| + 4 * i) <= WordAt(c, |result| + 4 * (i + 1)) <= |result|
    ensures c[WordAt(c, |result| + 4 * i)..WordAt(c, |result| + 4 * (i + 1))] == Slot(result, offsets, i)
  {
    ContentsWord(result, offsets, i);
    ContentsWord(result, offsets, i + 1);
    assert c[..|result|] == result;
    var start, limit := offsets[i], if i + 1 < |offsets| then offsets[i + 1] else |result|;
    assert c[start..limit] == result[start..limit];
  }

  /** Appending to the result leaves the filters made before as they were. */
  lemma {:induction false} SlotsKept(result: Bytes, offsets: seq<nat>, grown: Bytes)
    requires Ascending(offsets, |result|) && result <= grown
    ensures Ascending(offsets + [|result|], |grown|)
    ensures forall i | 0 <= i < |offsets| :: Slot(grown, offsets + [|result|], i) == Slot(result, offsets, i)
  {
  }

  lemma {:induction false} KeyAppended(keys: Bytes, start: seq<nat>, key: Bytes)
    requires Ascending(start, |keys|)
    ensures Ascending(start + [|keys|], |keys + key|)
    ensures forall i | 0 <= i < |start| :: KeyAt(keys + key, start + [|keys|], i) == KeyAt(keys, start, i)
    ensures KeyAt(keys + key, start + [|keys|], |start|) == key
  {
  }
}
