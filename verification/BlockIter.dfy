/** The iterator over a block: a cursor over the entries the block was built from (table/block.cc). */
module BlockIter {
  import opened Dbformat
  import opened Coding
  import opened Block

  ghost predicate Transitive(compare: (Bytes, Bytes) -> int) {
    forall a, b, c {:trigger compare(a, b), compare(b, c)} | compare(a, b) < 0 && compare(b, c) < 0 :: compare(a, c) < 0
  }

  ghost predicate Ascending(es: seq<Pair>, compare: (Bytes, Bytes) -> int) {
    forall i, j | 0 <= i < j < |es| :: compare(es[i].key, es[j].key) < 0
  }

  // ---------- a block as its iterator sees it ----------

  /** Decoding at `from` gives the lengths, the key bytes and the value of `e`, which end at `to`. */
  predicate Reads(contents: Bytes, restarts: nat, from: nat, to: nat, e: Pair, shared: nat) {
    && from < to <= restarts <= |contents| && shared <= |e.key|
    && match DecodeEntry(contents[from..restarts])
       case None => false
       case Some((s, n, v, p)) =>
         && s == shared && n == |e.key| - shared && v == |e.val| && from + p + n + v == to
         && contents[from + p..from + p + n] == e.key[shared..] && contents[from + p + n..to] == e.val
  }

  /** The entries, what each shares with the one before it, where each starts (and where the last
      one ends), and which entry each restart point leads to. */
  datatype View = View(es: seq<Pair>, shared: seq<nat>, offs: seq<nat>, first: seq<nat>) {
    predicate Valid() {
      && Shares(es, shared) && |offs| == |es| + 1
      && (forall i, j | 0 <= i < j < |offs| :: offs[i] < offs[j])
      && first != [] && first[0] == 0
      && (forall r | 0 <= r < |first| :: first[r] <= |es|)
      && forall r | 0 <= r < |first| && first[r] < |es| :: shared[first[r]] == 0
    }
  }

  predicate Represents(v: View, contents: Bytes, restarts: nat, num: nat) {
    && v.Valid() && num == |v.first| && restarts + 4 * num <= |contents| && v.offs[|v.es|] == restarts
    && (forall r {:trigger RestartPoint(contents, restarts, r)} | 0 <= r < num ::
          RestartPoint(contents, restarts, r) == v.offs[v.first[r]])
    && (forall r | 0 < r < num :: v.first[r] < |v.es|)
    && forall i | 0 <= i < |v.es| :: ReadsEntry(v, contents, restarts, i)
  }

  predicate ReadsEntry(v: View, contents: Bytes, restarts: nat, i: nat)
    requires v.Valid() && i < |v.es|
  {
    Reads(contents, restarts, v.offs[i], v.offs[i + 1], v.es[i], v.shared[i])
  }

  function ViewOf(l: Layout): (v: View)
    requires l.Valid()
    ensures |v.offs| == |l.es| + 1 && |v.first| == |l.at|
  {
    View(l.es, l.shared, seq(|l.es| + 1, i requires 0 <= i < |l.es| + 1 => l.Off(i)),
         seq(|l.at|, r requires 0 <= r < |l.at| => if r == 0 then 0 else l.at[r]))
  }

  lemma {:induction false} SubSlice(s: Bytes, a: nat, b: nat, i: nat, k: nat)
    requires a <= b <= |s| && i <= k <= b - a
    ensures s[a..b][i..k] == s[a + i..a + k]
  {
    var x, y := s[a..b][i..k], s[a + i..a + k];
    assert |x| == |y| && forall n | 0 <= n < |x| :: x[n] == y[n];
  }

  lemma {:induction false} EntryAt(l: Layout, contents: Bytes, restarts: nat, j: nat) returns (rest: Bytes)
    requires l.Valid() && restarts <= |contents| && contents[..restarts] == Image(l.es, l.shared, |l.es|) && j < |l.es|
    ensures l.Off(j) < l.Off(j + 1) <= restarts && l.Off(j + 1) == l.Off(j) + |EntryBytes(l.es[j], l.shared[j])|
    ensures contents[l.Off(j)..restarts] == EntryBytes(l.es[j], l.shared[j]) + rest
  {
    var image := Image(l.es, l.shared, |l.es|);
    ImageAt(l, j, |l.es|);
    OffStep(l, j);
    rest := image[l.Off(j + 1)..];
    assert image[l.Off(j)..] == image[l.Off(j)..l.Off(j + 1)] + rest;
  }

  lemma {:induction false} LayoutReads(l: Layout, contents: Bytes, restarts: nat, j: nat)
    requires l.Valid() && restarts <= |contents| && contents[..restarts] == Image(l.es, l.shared, |l.es|) && j < |l.es|
    requires |l.es[j].key| + |l.es[j].val| < TWO32
    ensures Reads(contents, restarts, l.Off(j), l.Off(j + 1), l.es[j], l.shared[j])
  {
    var rest := EntryAt(l, contents, restarts, j);
    EntryReads(contents, restarts, l.Off(j), l.es[j], l.shared[j], rest);
  }

  lemma {:induction false} EntryReads(contents: Bytes, restarts: nat, from: nat, e: Pair, shared: nat, rest: Bytes)
    requires from <= restarts <= |contents| && shared <= |e.key| && |e.key| + |e.val| < TWO32
    requires contents[from..restarts] == EntryBytes(e, shared) + rest && |EntryBytes(e, shared)| > 0
    ensures Reads(contents, restarts, from, from + |EntryBytes(e, shared)|, e, shared)
  {
    DecodesEntry(e, shared, rest);
    var p := |Varint(shared)| + |Varint(|e.key| - shared)| + |Varint(|e.val|)|;
    SlicesRead(contents, restarts, from, from + |EntryBytes(e, shared)|, e, shared, p, p + |e.key| - shared);
  }

  lemma {:induction false} SlicesRead(contents: Bytes, restarts: nat, from: nat, to: nat, e: Pair, shared: nat, p: nat, k: nat)
    requires from < to <= restarts <= |contents| && shared <= |e.key| && k == p + |e.key| - shared && from + k + |e.val| == to
    requires DecodeEntry(contents[from..restarts]) == Some((shared, |e.key| - shared, |e.val|, p))
    requires contents[from..restarts][p..k] == e.key[shared..] && contents[from..restarts][k..k + |e.val|] == e.val
    ensures Reads(contents, restarts, from, to, e, shared)
  {
    SubSlice(contents, from, restarts, p, k);
    SubSlice(contents, from, restarts, k, k + |e.val|);
  }

  /** What a builder finished opens as the same entries. */
  lemma {:induction false} FinishedRepresents(l: Layout, buffer: Bytes, points: seq<nat>)
    requires Describes(l, buffer, points) && |points| < TWO32 && |buffer| < TWO32
    requires forall i | 0 <= i < |l.es| :: |l.es[i].key| + |l.es[i].val| < TWO32
    ensures Open(BlockBytes(buffer, points)) == Some((|buffer|, |points|))
    ensures Represents(ViewOf(l), BlockBytes(buffer, points), |buffer|, |points|) && ViewOf(l).es == l.es
  {
    ViewValid(l);
    FinishedRestarts(l, buffer, points);
    FinishedEntries(l, buffer, BlockBytes(buffer, points));
  }

  lemma {:induction false} FinishedRestarts(l: Layout, buffer: Bytes, points: seq<nat>)
    requires Describes(l, buffer, points) && |points| < TWO32 && |buffer| < TWO32 && ViewOf(l).Valid()
    ensures var c, v := BlockBytes(buffer, points), ViewOf(l);
            && Open(c) == Some((|buffer|, |points|)) && |buffer| + 4 * |points| <= |c| && c[..|buffer|] == buffer
            && forall r {:trigger RestartPoint(c, |buffer|, r)} | 0 <= r < |points| ::
                 RestartPoint(c, |buffer|, r) == v.offs[v.first[r]]
  {
    var v := ViewOf(l);
    forall r | 0 <= r < |points| ensures points[r] == v.offs[v.first[r]] <= |buffer| {
      PointWithin(v, v.first[r]);
    }
    OpensAgain(buffer, points);
  }

  lemma {:induction false} FinishedEntries(l: Layout, buffer: Bytes, contents: Bytes)
    requires l.Valid() && ViewOf(l).Valid() && |buffer| <= |contents| && contents[..|buffer|] == buffer
    requires buffer == Image(l.es, l.shared, |l.es|)
    requires forall i | 0 <= i < |l.es| :: |l.es[i].key| + |l.es[i].val| < TWO32
    ensures forall i | 0 <= i < |l.es| :: ReadsEntry(ViewOf(l), contents, |buffer|, i)
  {
    forall i | 0 <= i < |l.es| ensures ReadsEntry(ViewOf(l), contents, |buffer|, i) {
      LayoutReads(l, contents, |buffer|, i);
    }
  }

  lemma {:induction false} PointWithin(v: View, n: nat)
    requires v.Valid() && n <= |v.es|
    ensures v.offs[n] <= v.offs[|v.es|]
  {
  }

  lemma {:induction false} ViewValid(l: Layout)
    requires l.Valid()
    ensures ViewOf(l).Valid() && forall r | 0 < r < |l.at| :: ViewOf(l).first[r] < |l.es|
  {
    var v := ViewOf(l);
    assert l.es != [] ==> SharesAt(l.es[0].key, KeyBefore(l.es, 0), l.shared[0]);
    forall i, j | 0 <= i < j < |v.offs| ensures v.offs[i] < v.offs[j] {
      OffGrows(l, i, j);
    }
  }

  /** The key of the entry is what it shares with the key before it and what it holds itself. */
  lemma {:induction false} KeyRestored(contents: Bytes, restarts: nat, from: nat, to: nat, e: Pair, shared: nat, key: Bytes)
    requires Reads(contents, restarts, from, to, e, shared) && SharesAt(e.key, key, shared)
    ensures DecodeEntry(contents[from..restarts]).Some?
    ensures var (s, n, v, p) := DecodeEntry(contents[from..restarts]).value;
            && s <= |key| && from + p + n + v == to <= restarts && key[..s] + contents[from + p..from + p + n] == e.key
            && contents[from + p + n..from + p + n + v] == e.val
  {
    assert e.key == e.key[..shared] + e.key[shared..];
  }

  // ---------- the iterator ----------

  class Iter {
    const data: Bytes
    const restarts: nat
    const num: nat
    const compare: (Bytes, Bytes) -> int
    var current: nat
    var restartIndex: nat
    var key: Bytes
    var valueStart: nat
    var valueLength: nat
    ghost const view: View
    ghost var cur: nat /* the entry the iterator is on */

    predicate OnEntry()
      reads this
    {
      current < restarts
    }

    ghost predicate Shape() {
      Represents(view, data, restarts, num)
    }

    /** The iterator is on entry `i`. */
    ghost predicate At(i: nat)
      requires Shape()
      reads this
    {
      && i < |view.es| && current == view.offs[i] && key == view.es[i].key && restartIndex < num
      && valueStart + valueLength == view.offs[i + 1] && valueStart + valueLength <= |data|
      && data[valueStart..valueStart + valueLength] == view.es[i].val
    }

    /** Entry `j` is the next one to be parsed. */
    ghost predicate Pending(j: nat)
      requires Shape()
      reads this
    {
      && j <= |view.es| && valueStart + valueLength == view.offs[j] && restartIndex < num
      && (j < |view.es| ==> SharesAt(view.es[j].key, key, view.shared[j]))
    }

    ghost predicate Valid()
      reads this
    {
      && Shape() && current <= restarts && Ascending(view.es, compare) && Transitive(compare)
      && (OnEntry() ==> At(cur))
    }

    constructor (data: Bytes, restarts: nat, num: nat, compare: (Bytes, Bytes) -> int, ghost view: View)
      requires Represents(view, data, restarts, num) && Ascending(view.es, compare) && Transitive(compare)
      ensures Valid() && !OnEntry() && this.view == view && this.compare == compare
    {
      this.data, this.restarts, this.num, this.compare, this.view := data, restarts, num, compare, view;
      current, restartIndex, key, valueStart, valueLength := restarts, num, [], 0, 0;
    }

    method Key() returns (k: Bytes)
      requires Valid() && OnEntry()
      ensures cur < |view.es| && k == view.es[cur].key
    {
      k := key;
    }

    method Value() returns (v: Bytes)
      requires Valid() && OnEntry()
      ensures cur < |view.es| && v == view.es[cur].val
    {
      v := data[valueStart..valueStart + valueLength];
    }

    method SeekToRestartPoint(index: nat)
      requires Shape() && index < num
      modifies this`key, this`restartIndex, this`valueStart, this`valueLength
      ensures Pending(view.first[index]) && restartIndex == index
    {
      key := [];
      restartIndex := index;
      valueStart, valueLength := RestartPoint(data, restarts, index), 0;
    }

    /** The lengths, the key and the value of the entry at `current`. */
    method ReadEntry(ghost j: nat)
      requires Shape() && Pending(j) && j < |view.es| && current == view.offs[j]
      modifies this`key, this`valueStart, this`valueLength, this`cur
      ensures At(j) && cur == j
    {
      assert ReadsEntry(view, data, restarts, j);
      KeyRestored(data, restarts, view.offs[j], view.offs[j + 1], view.es[j], view.shared[j], key);
      var entry := DecodeEntry(data[current..restarts]);
      var (shared, nonShared, length, p) := entry.value;
      key := key[..shared] + data[current + p..current + p + nonShared];
      valueStart, valueLength := current + p + nonShared, length;
      cur := j;
    }

    /** ParseNextKey: on to the next entry, unless there is none. */
    method ParseNextKey(ghost j: nat) returns (ok: bool)
      requires Shape() && Pending(j)
      modifies this
      ensures ok <==> j < |view.es|
      ensures if ok then At(j) && cur == j && OnEntry() else current == restarts
    {
      current := valueStart + valueLength;
      if current >= restarts {
        current, restartIndex := restarts, num;
        return false;
      }
      ReadEntry(j);
      AdvanceRestart();
      return true;
    }

    method AdvanceRestart()
      requires Shape() && restartIndex < num
      modifies this`restartIndex
      ensures restartIndex < num
    {
      while restartIndex + 1 < num && RestartPoint(data, restarts, restartIndex + 1) < current
        invariant restartIndex < num
        decreases num - restartIndex
      {
        restartIndex := restartIndex + 1;
      }
    }

    // ---------- the public operations ----------

    method Next()
      requires Valid() && OnEntry()
      modifies this
      ensures Valid() && (OnEntry() <==> old(cur) + 1 < |view.es|) && (OnEntry() ==> cur == old(cur) + 1)
    {
      NextShares(view, cur);
      var ok := ParseNextKey(cur + 1);
    }

    /** Prev undoes Next: back to a restart point before the entry, then forward again. */
    method Prev()
      requires Valid() && OnEntry()
      modifies this
      ensures Valid() && (OnEntry() <==> old(cur) > 0) && (OnEntry() ==> cur == old(cur) - 1)
    {
      var original := current;
      ghost var i := cur;
      while RestartPoint(data, restarts, restartIndex) >= original
        invariant restartIndex < num && current == original
        decreases restartIndex
      {
        if restartIndex == 0 {
          current, restartIndex := restarts, num;
          return;
        }
        restartIndex := restartIndex - 1;
      }
      SeekToRestartPoint(restartIndex);
      ScanTo(view.first[restartIndex], i, original);
    }

    /** Parse on from entry `k` until the end of an entry is the start of entry `i`. */
    method ScanTo(ghost k: nat, ghost i: nat, original: nat)
      requires Shape() && Pending(k) && i <= |view.es| && original == view.offs[i] && view.offs[k] < original
      modifies this
      ensures i > 0 && At(i - 1) && cur == i - 1 && OnEntry()
    {
      ghost var j := k;
      assert k < i;
      var more := true;
      while more
        invariant k <= j <= i
        invariant if more then j < i && Pending(j) else j == i && At(i - 1) && cur == i - 1 && OnEntry()
        decreases i - j
      {
        var ok := ParseNextKey(j);
        NextShares(view, j);
        j := j + 1;
        more := ok && valueStart + valueLength < original;
      }
    }

    method SeekToFirst()
      requires Valid()
      modifies this
      ensures Valid() && (OnEntry() <==> view.es != []) && (OnEntry() ==> cur == 0)
    {
      SeekToRestartPoint(0);
      var ok := ParseNextKey(0);
    }

    method SeekToLast()
      requires Valid()
      modifies this
      ensures Valid() && (OnEntry() <==> view.es != []) && (OnEntry() ==> cur == |view.es| - 1)
    {
      var last: nat := num - 1;
      SeekToRestartPoint(last);
      ScanToEnd(view.first[last]);
    }

    /** Parse on from entry `k` until an entry ends where the restart points start. */
    method ScanToEnd(ghost k: nat)
      requires Shape() && Pending(k) && (view.es != [] ==> k < |view.es|)
      modifies this
      ensures if view.es == [] then current == restarts
              else At(|view.es| - 1) && cur == |view.es| - 1 && OnEntry()
    {
      ghost var j := k;
      var more := true;
      while more
        invariant j <= |view.es| && (view.es != [] && more ==> j < |view.es|)
        invariant if more then Pending(j)
                  else if view.es == [] then current == restarts
                  else j == |view.es| && At(j - 1) && cur == j - 1 && OnEntry()
        decreases |view.es| - j, more
      {
        var ok := ParseNextKey(j);
        if ok {
          NextShares(view, j);
          j := j + 1;
        }
        more := ok && valueStart + valueLength < restarts;
      }
    }

    /** The key at a restart point, decoded in place. */
    method RestartKey(r: nat) returns (k: Bytes)
      requires Shape() && 0 < r < num
      ensures k == view.es[view.first[r]].key
    {
      ghost var j := view.first[r];
      assert ReadsEntry(view, data, restarts, j);
      var offset := RestartPoint(data, restarts, r);
      var entry := DecodeEntry(data[offset..restarts]);
      var (shared, nonShared, length, p) := entry.value;
      k := data[offset + p..offset + p + nonShared];
    }

    /** The binary search over restart points: the last one whose key is before the target, or the
        first. */
    method SearchRestarts(target: Bytes) returns (left: nat)
      requires Shape()
      ensures left < num
      ensures left > 0 ==> compare(view.es[view.first[left]].key, target) < 0
      ensures left + 1 < num ==> compare(view.es[view.first[left + 1]].key, target) >= 0
    {
      left := 0;
      var right: nat := num - 1;
      while left < right
        invariant left <= right < num
        invariant left > 0 ==> compare(view.es[view.first[left]].key, target) < 0
        invariant right + 1 < num ==> compare(view.es[view.first[right + 1]].key, target) >= 0
      {
        var mid := (left + right + 1) / 2;
        var midKey := RestartKey(mid);
        if compare(midKey, target) < 0 {
          left := mid;
        } else {
          right := mid - 1;
        }
      }
    }

    /** Seek lands on the first entry whose key is not before the target. */
    method Seek(target: Bytes)
      requires Valid()
      modifies this
      ensures Valid()
      ensures OnEntry() ==> compare(view.es[cur].key, target) >= 0
      ensures forall i | 0 <= i < (if OnEntry() then cur else |view.es|) :: compare(view.es[i].key, target) < 0
    {
      var left := SearchRestarts(target);
      SeekToRestartPoint(left);
      ghost var j := view.first[left];
      EarlierEntries(view.es, compare, target, left == 0, j);
      while true
        invariant Pending(j)
        invariant forall i | 0 <= i < j :: compare(view.es[i].key, target) < 0
        decreases |view.es| - j
      {
        var ok := ParseNextKey(j);
        if !ok {
          return;
        }
        if compare(key, target) >= 0 {
          return;
        }
        NextShares(view, j);
        j := j + 1;
      }
    }
  }

  /** The key just read has what the next key leaves out. */
  lemma {:induction false} NextShares(v: View, j: nat)
    requires v.Valid() && j < |v.es|
    ensures j + 1 < |v.es| ==> SharesAt(v.es[j + 1].key, v.es[j].key, v.shared[j + 1])
  {
    assert j + 1 < |v.es| ==> SharesAt(v.es[j + 1].key, KeyBefore(v.es, j + 1), v.shared[j + 1]);
  }

  lemma {:induction false} EarlierEntries(es: seq<Pair>, compare: (Bytes, Bytes) -> int, target: Bytes, first: bool, j: nat)
    requires Ascending(es, compare) && Transitive(compare)
    requires if first then j == 0 else j < |es| && compare(es[j].key, target) < 0
    ensures forall i | 0 <= i < j :: compare(es[i].key, target) < 0
  {
    forall i | 0 <= i < j ensures compare(es[i].key, target) < 0 {
      assert compare(es[i].key, es[j].key) < 0;
    }
  }
}
