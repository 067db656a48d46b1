/** Choosing the files of a compaction (db/version_set.cc). */
module CompactionInputs {
  import opened Dbformat
  import opened Version

  // ---------- user-key ranges, None standing for an open end ----------

  predicate InRange(f: File, b: Option<UserKey>, e: Option<UserKey>)
    requires f.Valid()
  {
    !(b.Some? && f.Largest().ukey < b.value) && !(e.Some? && f.Smallest().ukey > e.value)
  }

  predicate Inside(f: File, b: Option<UserKey>, e: Option<UserKey>)
    requires f.Valid()
  {
    (b.Some? ==> b.value <= f.Smallest().ukey) && (e.Some? ==> f.Largest().ukey <= e.value)
  }

  /** [b1, e1] contains [b, e]. */
  predicate Covers(b1: Option<UserKey>, e1: Option<UserKey>, b: Option<UserKey>, e: Option<UserKey>) {
    && (b1.Some? ==> b.Some? && b1.value <= b.value)
    && (e1.Some? ==> e.Some? && e.value <= e1.value)
  }

  function InRangeFiles(files: seq<File>, b: Option<UserKey>, e: Option<UserKey>): (r: seq<File>)
    requires ValidFiles(files)
  {
    if files == [] then [] else
      var init, last := InRangeFiles(files[..|files| - 1], b, e), files[|files| - 1];
      if InRange(last, b, e) then init + [last] else init
  }

  lemma {:induction false} InRangeFilesAre(files: seq<File>, b: Option<UserKey>, e: Option<UserKey>)
    requires ValidFiles(files)
    ensures ValidFiles(InRangeFiles(files, b, e))
    ensures forall f :: f in InRangeFiles(files, b, e) <==> f in files && InRange(f, b, e)
  {
    if files != [] {
      var init := files[..|files| - 1];
      InRangeFilesAre(init, b, e);
      assert files == init + [files[|files| - 1]];
    }
  }

  /** Every file that meets the range lies in it. */
  ghost predicate ClosedRange(files: seq<File>, b: Option<UserKey>, e: Option<UserKey>)
    requires ValidFiles(files)
  {
    forall i | 0 <= i < |files| && InRange(files[i], b, e) :: Inside(files[i], b, e)
  }

  /** Every range around [begin, end] that is closed under overlap contains [b, e]. */
  ghost predicate WithinClosed(files: seq<File>, begin: Option<UserKey>, end: Option<UserKey>, b: Option<UserKey>, e: Option<UserKey>)
    requires ValidFiles(files)
  {
    forall b', e' | Covers(b', e', begin, end) && ClosedRange(files, b', e') :: Covers(b', e', b, e)
  }

  // ---------- GetOverlappingInputs ----------

  /** How many files reach below `b` or above `e`: what a restart of the scan reduces. */
  function Outreach(files: seq<File>, b: Option<UserKey>, e: Option<UserKey>): nat
    requires ValidFiles(files)
  {
    if files == [] then 0 else
      var f := files[|files| - 1];
      Outreach(files[..|files| - 1], b, e)
      + (if b.Some? && f.Smallest().ukey < b.value then 1 else 0)
      + (if e.Some? && f.Largest().ukey > e.value then 1 else 0)
  }

  lemma {:induction false} OutreachShrinks(files: seq<File>, b: Option<UserKey>, e: Option<UserKey>,
                                           b1: Option<UserKey>, e1: Option<UserKey>)
    requires ValidFiles(files) && Covers(b1, e1, b, e) && b1.Some? == b.Some? && e1.Some? == e.Some?
    ensures Outreach(files, b1, e1) <= Outreach(files, b, e)
    ensures (exists i :: 0 <= i < |files| &&
               ((b.Some? && b1.value <= files[i].Smallest().ukey < b.value) ||
                (e.Some? && e.value < files[i].Largest().ukey <= e1.value)))
            ==> Outreach(files, b1, e1) < Outreach(files, b, e)
  {
    if files != [] {
      OutreachShrinks(files[..|files| - 1], b, e, b1, e1);
    }
  }

  /** All files of a level that meet [begin, end]. On level 0, where files overlap, the range
      grows to the least one that is closed under overlap. */
  method GetOverlappingInputs(level: nat, files: seq<File>, begin: Option<UserKey>, end: Option<UserKey>)
    returns (inputs: seq<File>, ghost userBegin: Option<UserKey>, ghost userEnd: Option<UserKey>)
    requires ValidFiles(files)
    ensures inputs == InRangeFiles(files, userBegin, userEnd)
    ensures level > 0 ==> userBegin == begin && userEnd == end
    ensures userBegin.Some? == begin.Some? && userEnd.Some? == end.Some?
    ensures Covers(userBegin, userEnd, begin, end)
    ensures level == 0 ==> ClosedRange(files, userBegin, userEnd)
    ensures WithinClosed(files, begin, end, userBegin, userEnd)
  {
    inputs := [];
    var ub, ue := begin, end;
    var i := 0;
    while i < |files|
      invariant 0 <= i <= |files|
      invariant inputs == InRangeFiles(files[..i], ub, ue)
      invariant ub.Some? == begin.Some? && ue.Some? == end.Some? && Covers(ub, ue, begin, end)
      invariant level > 0 ==> ub == begin && ue == end
      invariant level == 0 ==> ClosedRange(files[..i], ub, ue)
      invariant WithinClosed(files, begin, end, ub, ue)
      decreases Outreach(files, ub, ue), |files| - i
    {
      var f := files[i];
      i := i + 1;
      assert files[..i][..i - 1] == files[..i - 1];
      if ub.Some? && f.Largest().ukey < ub.value {
        // before the range
      } else if ue.Some? && f.Smallest().ukey > ue.value {
        // after the range
      } else {
        inputs := inputs + [f];
        if level == 0 {
          if ub.Some? && f.Smallest().ukey < ub.value {
            OutreachShrinks(files, ub, ue, Some(f.Smallest().ukey), ue);
            GrowLeft(files, begin, end, ub, ue, i - 1);
            ub := Some(f.Smallest().ukey);
            inputs := [];
            i := 0;
          } else if ue.Some? && f.Largest().ukey > ue.value {
            OutreachShrinks(files, ub, ue, ub, Some(f.Largest().ukey));
            GrowRight(files, begin, end, ub, ue, i - 1);
            ue := Some(f.Largest().ukey);
            inputs := [];
            i := 0;
          }
        }
      }
    }
    assert files[..|files|] == files;
    userBegin, userEnd := ub, ue;
  }

  /** A file that meets the range and starts before it must be inside any closed larger range. */
  lemma {:induction false} GrowLeft(files: seq<File>, begin: Option<UserKey>, end: Option<UserKey>,
                                    ub: Option<UserKey>, ue: Option<UserKey>, i: nat)
    requires ValidFiles(files) && i < |files| && InRange(files[i], ub, ue)
    requires ub.Some? && files[i].Smallest().ukey < ub.value
    requires WithinClosed(files, begin, end, ub, ue)
    ensures WithinClosed(files, begin, end, Some(files[i].Smallest().ukey), ue)
  {
    forall b, e | Covers(b, e, begin, end) && ClosedRange(files, b, e)
      ensures Covers(b, e, Some(files[i].Smallest().ukey), ue)
    {
      assert Covers(b, e, ub, ue);
      assert InRange(files[i], b, e);
    }
  }

  lemma {:induction false} GrowRight(files: seq<File>, begin: Option<UserKey>, end: Option<UserKey>,
                                     ub: Option<UserKey>, ue: Option<UserKey>, i: nat)
    requires ValidFiles(files) && i < |files| && InRange(files[i], ub, ue)
    requires ue.Some? && files[i].Largest().ukey > ue.value
    requires WithinClosed(files, begin, end, ub, ue)
    ensures WithinClosed(files, begin, end, ub, Some(files[i].Largest().ukey))
  {
    forall b, e | Covers(b, e, begin, end) && ClosedRange(files, b, e)
      ensures Covers(b, e, ub, Some(files[i].Largest().ukey))
    {
      assert Covers(b, e, ub, ue);
      assert InRange(files[i], b, e);
    }
  }

  // ---------- where a flushed memtable goes ----------

  /** SomeFileOverlapsRange: by binary search when the files are sorted and disjoint. */
  method SomeFileOverlapsRange(disjoint: bool, files: seq<File>, smallest: Option<UserKey>, largest: Option<UserKey>)
    returns (r: bool)
    requires ValidFiles(files) && (disjoint ==> Disjoint(files))
    ensures r <==> exists i :: 0 <= i < |files| && InRange(files[i], smallest, largest)
  {
    if !disjoint {
      for i := 0 to |files|
        invariant forall j | 0 <= j < i :: !InRange(files[j], smallest, largest)
      {
        if InRange(files[i], smallest, largest) {
          return true;
        }
      }
      return false;
    }
    var index := 0;
    if smallest.Some? {
      index := FindFile(files, InternalKey(smallest.value, MAX_SEQUENCE, Value));
      forall i | 0 <= i < |files| ensures files[i].Largest().ukey < smallest.value <==> i < index {
        assert files[i].Largest().sequence <= MAX_SEQUENCE;
      }
    }
    if index >= |files| {
      assert forall i | 0 <= i < |files| :: !InRange(files[i], smallest, largest);
      return false;
    }
    r := !(largest.Some? && largest.value < files[index].Smallest().ukey);
    if r {
      assert InRange(files[index], smallest, largest);
    } else {
      forall i | 0 <= i < |files| ensures !InRange(files[i], smallest, largest) {
        if i > index {
          FileOrder(files, index, i);
        }
      }
    }
  }

  /** Some file of the level meets the user keys. */
  ghost predicate OverlapInLevel(v: Levels, l: nat, smallest: UserKey, largest: UserKey)
    requires |v| == NUM_LEVELS && l < NUM_LEVELS && ValidFiles(v[l])
  {
    exists i :: 0 <= i < |v[l]| && InRange(v[l][i], Some(smallest), Some(largest))
  }

  /** The files two levels below `l` that meet the user keys are too large together. */
  predicate TooMuchBelow(v: Levels, l: nat, smallest: UserKey, largest: UserKey, maxGrandparentOverlap: nat)
    requires |v| == NUM_LEVELS && l + 2 < NUM_LEVELS && ValidFiles(v[l + 2])
  {
    TotalFileSize(InRangeFiles(v[l + 2], Some(smallest), Some(largest))) > maxGrandparentOverlap
  }

  /** Nothing stops a table on its way from level 0 to `level`. */
  ghost predicate WayDown(v: Levels, smallest: UserKey, largest: UserKey, maxGrandparentOverlap: nat, level: nat)
    requires ValidLevels(v) && level <= 2
  {
    !OverlapInLevel(v, level, smallest, largest)
    && (level > 0 ==>
          && !TooMuchBelow(v, level - 1, smallest, largest, maxGrandparentOverlap)
          && WayDown(v, smallest, largest, maxGrandparentOverlap, level - 1))
  }

  /** Level 0 if a file there is in the way; else the table goes down as long as nothing stops it. */
  ghost predicate IsPickedLevel(v: Levels, smallest: UserKey, largest: UserKey, maxGrandparentOverlap: nat, level: nat)
    requires ValidLevels(v)
  {
    && level <= 2
    && if OverlapInLevel(v, 0, smallest, largest) then level == 0
       else
         && WayDown(v, smallest, largest, maxGrandparentOverlap, level)
         && (level < 2 ==> !WayDown(v, smallest, largest, maxGrandparentOverlap, level + 1))
  }

  lemma {:induction false} WayDownIsFree(v: Levels, smallest: UserKey, largest: UserKey, maxGrandparentOverlap: nat, level: nat)
    requires ValidLevels(v) && level <= 2 && WayDown(v, smallest, largest, maxGrandparentOverlap, level)
    ensures forall l, i | 0 <= l <= level && 0 <= i < |v[l]| && v[l][i].Valid() :: !InRange(v[l][i], Some(smallest), Some(largest))
  {
    if level > 0 {
      WayDownIsFree(v, smallest, largest, maxGrandparentOverlap, level - 1);
    }
  }

  /** PickLevelForMemTableOutput. */
  method PickLevelForMemTableOutput(v: Levels, smallest: UserKey, largest: UserKey, maxGrandparentOverlap: nat)
    returns (level: nat)
    requires ValidLevels(v)
    ensures IsPickedLevel(v, smallest, largest, maxGrandparentOverlap, level)
    ensures level > 0 ==> forall l, i | 0 <= l <= level && 0 <= i < |v[l]| && v[l][i].Valid() ::
                            !InRange(v[l][i], Some(smallest), Some(largest))
  {
    level := 0;
    var overlap := SomeFileOverlapsRange(false, v[0], Some(smallest), Some(largest));
    if !overlap {
      while level < 2
        invariant level <= 2 && WayDown(v, smallest, largest, maxGrandparentOverlap, level)
      {
        overlap := SomeFileOverlapsRange(true, v[level + 1], Some(smallest), Some(largest));
        if overlap {
          break;
        }
        if level + 2 < NUM_LEVELS {
          var grandparents, _, _ := GetOverlappingInputs(level + 2, v[level + 2], Some(smallest), Some(largest));
          if TotalFileSize(grandparents) > maxGrandparentOverlap {
            break;
          }
        }
        level := level + 1;
      }
      WayDownIsFree(v, smallest, largest, maxGrandparentOverlap, level);
    }
  }

  /** The conditions leave one level. */
  lemma {:induction false} PickedLevelUnique(v: Levels, smallest: UserKey, largest: UserKey, maxGrandparentOverlap: nat, p: nat, q: nat)
    requires ValidLevels(v) && IsPickedLevel(v, smallest, largest, maxGrandparentOverlap, p)
    requires IsPickedLevel(v, smallest, largest, maxGrandparentOverlap, q)
    ensures p == q
  {
    if p < q {
      WayDownAbove(v, smallest, largest, maxGrandparentOverlap, p + 1, q);
    } else if q < p {
      WayDownAbove(v, smallest, largest, maxGrandparentOverlap, q + 1, p);
    }
  }

  lemma {:induction false} WayDownAbove(v: Levels, smallest: UserKey, largest: UserKey, maxGrandparentOverlap: nat, p: nat, q: nat)
    requires ValidLevels(v) && p <= q <= 2 && WayDown(v, smallest, largest, maxGrandparentOverlap, q)
    ensures WayDown(v, smallest, largest, maxGrandparentOverlap, p)
  {
    if p < q {
      WayDownAbove(v, smallest, largest, maxGrandparentOverlap, p, q - 1);
    }
  }

  // ---------- key ranges of file lists ----------

  /** GetRange: the least key range covering the files. */
  method GetRange(inputs: seq<File>) returns (smallest: InternalKey, largest: InternalKey)
    requires ValidFiles(inputs) && inputs != []
    ensures IsSmallest(smallest, inputs) && IsLargest(largest, inputs)
  {
    smallest, largest := inputs[0].Smallest(), inputs[0].Largest();
    ghost var s, l := 0, 0;
    for i := 1 to |inputs|
      invariant 0 <= s < i && 0 <= l < i && inputs[s].Smallest() == smallest && inputs[l].Largest() == largest
      invariant forall j | 0 <= j < i :: !Less(inputs[j].Smallest(), smallest)
      invariant forall j | 0 <= j < i :: !Less(largest, inputs[j].Largest())
    {
      if Less(inputs[i].Smallest(), smallest) {
        smallest, s := inputs[i].Smallest(), i;
      }
      if Less(largest, inputs[i].Largest()) {
        largest, l := inputs[i].Largest(), i;
      }
    }
  }

  ghost predicate IsSmallest(k: InternalKey, files: seq<File>)
    requires ValidFiles(files)
  {
    && (exists i :: 0 <= i < |files| && files[i].Smallest() == k)
    && forall i | 0 <= i < |files| :: !Less(files[i].Smallest(), k)
  }

  ghost predicate IsLargest(k: InternalKey, files: seq<File>)
    requires ValidFiles(files)
  {
    && (exists i :: 0 <= i < |files| && files[i].Largest() == k)
    && forall i | 0 <= i < |files| :: !Less(k, files[i].Largest())
  }

  // ---------- boundary files ----------

  /** `f` starts after `key` with the same user key. */
  predicate IsBoundary(f: File, key: InternalKey)
    requires f.Valid()
  {
    Less(key, f.Smallest()) && f.Smallest().ukey == key.ukey
  }

  ghost predicate IsSmallestBoundary(files: seq<File>, key: InternalKey, f: File)
    requires ValidFiles(files)
  {
    && f in files && f.Valid() && IsBoundary(f, key)
    && forall i | 0 <= i < |files| && IsBoundary(files[i], key) :: !Less(files[i].Smallest(), f.Smallest())
  }

  ghost predicate NoBoundary(files: seq<File>, key: InternalKey)
    requires ValidFiles(files)
  {
    forall i | 0 <= i < |files| :: !IsBoundary(files[i], key)
  }

  method FindSmallestBoundaryFile(levelFiles: seq<File>, largestKey: InternalKey) returns (r: Option<File>)
    requires ValidFiles(levelFiles)
    ensures r.None? ==> NoBoundary(levelFiles, largestKey)
    ensures r.Some? ==> IsSmallestBoundary(levelFiles, largestKey, r.value)
  {
    r := None;
    for i := 0 to |levelFiles|
      invariant r.None? ==> NoBoundary(levelFiles[..i], largestKey)
      invariant r.Some? ==> IsSmallestBoundary(levelFiles[..i], largestKey, r.value)
    {
      var f := levelFiles[i];
      if IsBoundary(f, largestKey) {
        if r.None? || Less(f.Smallest(), r.value.Smallest()) {
          r := Some(f);
        }
      }
      assert levelFiles[..i + 1] == levelFiles[..i] + [f];
    }
    assert levelFiles[..|levelFiles|] == levelFiles;
  }

  /** Number of files starting after `key`: it falls as the boundary key advances. */
  function StartingAfter(files: seq<File>, key: InternalKey): nat
    requires ValidFiles(files)
  {
    if files == [] then 0 else
      StartingAfter(files[..|files| - 1], key) + if Less(key, files[|files| - 1].Smallest()) then 1 else 0
  }

  lemma {:induction false} StartingAfterFalls(files: seq<File>, key: InternalKey, key1: InternalKey)
    requires ValidFiles(files) && !Less(key1, key)
    ensures StartingAfter(files, key1) <= StartingAfter(files, key)
    ensures (exists i :: 0 <= i < |files| && Less(key, files[i].Smallest()) && !Less(key1, files[i].Smallest()))
            ==> StartingAfter(files, key1) < StartingAfter(files, key)
  {
    if files != [] {
      StartingAfterFalls(files[..|files| - 1], key, key1);
    }
  }

  /** AddBoundaryInputs: append boundary files, each the first after the largest key so far, until
      no file of the level continues the user key the inputs end with. */
  method AddBoundaryInputs(levelFiles: seq<File>, inputs: seq<File>) returns (r: seq<File>, largest: InternalKey)
    requires ValidFiles(levelFiles) && ValidFiles(inputs) && inputs != []
    ensures ValidFiles(r) && |inputs| <= |r| && r[..|inputs|] == inputs
    ensures IsLargest(largest, r) && NoBoundary(levelFiles, largest)
    ensures BoundaryChain(levelFiles, inputs, r)
  {
    var _, key := GetRange(inputs);
    r := inputs;
    var searching := true;
    while searching
      invariant ValidFiles(r) && |inputs| <= |r| && r[..|inputs|] == inputs
      invariant IsLargest(key, r) && (!searching ==> NoBoundary(levelFiles, key))
      invariant BoundaryChain(levelFiles, inputs, r)
      decreases StartingAfter(levelFiles, key), searching
    {
      var f := FindSmallestBoundaryFile(levelFiles, key);
      if f.Some? {
        BoundaryAdvances(levelFiles, key, f.value);
        ChainGrows(levelFiles, inputs, r, key, f.value);
        r := r + [f.value];
        key := f.value.Largest();
      } else {
        searching := false;
      }
    }
    largest := key;
  }

  lemma {:induction false} BoundaryAdvances(levelFiles: seq<File>, key: InternalKey, f: File)
    requires ValidFiles(levelFiles) && IsSmallestBoundary(levelFiles, key, f)
    ensures StartingAfter(levelFiles, f.Largest()) < StartingAfter(levelFiles, key)
  {
    StartsBeforeEnds(f);
    StartingAfterFalls(levelFiles, key, f.Largest());
    var i :| 0 <= i < |levelFiles| && levelFiles[i] == f;
    assert Less(key, levelFiles[i].Smallest()) && !Less(f.Largest(), levelFiles[i].Smallest());
  }

  lemma {:induction false} StartsBeforeEnds(f: File)
    requires f.Valid()
    ensures !Less(f.Largest(), f.Smallest())
  {
    if |f.entries| > 1 {
      assert Before(f.entries[0], f.entries[|f.entries| - 1]);
    }
  }

  /** `f` is the first file of the level to continue the largest key of `prefix`. */
  ghost predicate Continues(levelFiles: seq<File>, prefix: seq<File>, f: File)
    requires ValidFiles(levelFiles) && ValidFiles(prefix)
  {
    exists key :: IsLargest(key, prefix) && IsSmallestBoundary(levelFiles, key, f)
  }

  /** Each file after `inputs` is the first one to continue those before it. */
  ghost predicate BoundaryChain(levelFiles: seq<File>, inputs: seq<File>, r: seq<File>)
    requires ValidFiles(levelFiles) && ValidFiles(r)
  {
    forall i {:trigger r[..i]} | |inputs| <= i < |r| :: Continues(levelFiles, r[..i], r[i])
  }

  lemma {:induction false} ChainGrows(levelFiles: seq<File>, inputs: seq<File>, r: seq<File>, key: InternalKey, f: File)
    requires ValidFiles(levelFiles) && ValidFiles(r)
    requires BoundaryChain(levelFiles, inputs, r) && |inputs| <= |r|
    requires IsLargest(key, r) && IsSmallestBoundary(levelFiles, key, f)
    ensures ValidFiles(r + [f]) && BoundaryChain(levelFiles, inputs, r + [f])
    ensures IsLargest(f.Largest(), r + [f])
  {
    var t := r + [f];
    forall i | |inputs| <= i < |t| ensures Continues(levelFiles, t[..i], t[i]) {
      assert t[..i] == r[..i];
      assert i == |r| ==> r[..i] == r;
    }
    StartsBeforeEnds(f);
    assert t[|r|].Largest() == f.Largest();
  }

  // ---------- SetupOtherInputs ----------

  /** What the callers pick at `level`: on level 0 all files of a range closed under overlap,
      above it a run of neighbouring files. */
  ghost predicate Picked(v: Levels, level: nat, in0: seq<File>)
    requires ValidLevels(v) && level < NUM_LEVELS
  {
    && in0 != []
    && if level == 0 then
         exists b, e :: ClosedRange(v[0], b, e) && in0 == InRangeFiles(v[0], b, e)
       else
         exists lo, hi :: 0 <= lo < hi <= |v[level]| && in0 == v[level][lo..hi]
  }

  /** A picked set whose last user key does not continue in another file of the level. */
  ghost predicate Complete(v: Levels, level: nat, in0: seq<File>)
    requires ValidLevels(v) && level < NUM_LEVELS
  {
    && Picked(v, level, in0) && ValidFiles(in0)
    && exists largest :: IsLargest(largest, in0) && NoBoundary(v[level], largest)
  }

  /** `in1` is every file of the next level that meets the user keys of `in0`. */
  ghost predicate NextLevelInputs(v: Levels, level: nat, in0: seq<File>, in1: seq<File>)
    requires ValidLevels(v) && level + 1 < NUM_LEVELS && ValidFiles(in0)
  {
    MeetKeysOf(v[level + 1], in0, in1)
  }

  ghost predicate MeetKeysOf(files: seq<File>, in0: seq<File>, in1: seq<File>)
    requires ValidFiles(files) && ValidFiles(in0)
  {
    exists s, l :: IsSmallest(s, in0) && IsLargest(l, in0) && in1 == InRangeFiles(files, Some(s.ukey), Some(l.ukey))
  }

  lemma {:induction false} PickedAre(v: Levels, level: nat, in0: seq<File>)
    requires ValidLevels(v) && level < NUM_LEVELS && Picked(v, level, in0)
    ensures ValidFiles(in0) && forall f | f in in0 :: f in v[level]
  {
    if level == 0 {
      var b, e :| ClosedRange(v[0], b, e) && in0 == InRangeFiles(v[0], b, e);
      InRangeFilesAre(v[0], b, e);
    }
  }

  lemma {:induction false} FileOrder(files: seq<File>, i: nat, j: nat)
    requires Disjoint(files) && i < j < |files|
    ensures Less(files[i].Largest(), files[j].Smallest()) && Less(files[i].Smallest(), files[j].Smallest())
    ensures !Less(files[j].Largest(), files[j].Smallest())
    ensures files[i].Smallest().ukey <= files[i].Largest().ukey <= files[j].Smallest().ukey <= files[j].Largest().ukey
  {
    StartsBeforeEnds(files[i]);
    StartsBeforeEnds(files[j]);
    assert Before(files[i].entries[|files[i].entries| - 1], files[j].entries[0]);
  }

  lemma {:induction false} LargestOfRun(files: seq<File>, lo: nat, k: nat, key: InternalKey)
    requires Disjoint(files) && lo < k <= |files| && IsLargest(key, files[lo..k])
    ensures key == files[k - 1].Largest()
  {
    var i :| 0 <= i < k - lo && files[lo..k][i].Largest() == key;
    assert !Less(key, files[lo..k][k - 1 - lo].Largest());
    NotPastLast(files, lo + i, k);
  }

  lemma {:induction false} NotPastLast(files: seq<File>, m: nat, k: nat)
    requires Disjoint(files) && m < k <= |files|
    ensures m < k - 1 ==> Less(files[m].Largest(), files[k - 1].Largest())
  {
    if m < k - 1 {
      DisjointBefore(files, m, |files[m].entries| - 1, k - 1, |files[k - 1].entries| - 1);
    }
  }

  lemma {:induction false} BoundaryNotBefore(files: seq<File>, k: nat, m: nat)
    requires Disjoint(files) && m < k <= |files|
    ensures !IsBoundary(files[m], files[k - 1].Largest())
  {
    StartsBeforeEnds(files[k - 1]);
    if m < k - 1 { FileOrder(files, m, k - 1); }
  }

  lemma {:induction false} BoundaryIsNext(files: seq<File>, k: nat, m: nat)
    requires Disjoint(files) && 0 < k < m < |files| && IsBoundary(files[m], files[k - 1].Largest())
    ensures IsBoundary(files[k], files[k - 1].Largest()) && Less(files[k].Smallest(), files[m].Smallest())
  {
    FileOrder(files, k - 1, k);
    FileOrder(files, k, m);
  }

  /** The first file to continue a run of neighbours is the neighbour that follows it. */
  lemma {:induction false} NextOfRun(files: seq<File>, k: nat, f: File)
    requires Disjoint(files) && 0 < k <= |files| && IsSmallestBoundary(files, files[k - 1].Largest(), f)
    ensures k < |files| && files[k] == f
  {
    forall m | 0 <= m < k ensures !IsBoundary(files[m], files[k - 1].Largest()) {
      BoundaryNotBefore(files, k, m);
    }
    forall m | k < m < |files| && IsBoundary(files[m], files[k - 1].Largest())
      ensures IsBoundary(files[k], files[k - 1].Largest()) && Less(files[k].Smallest(), files[m].Smallest())
    {
      BoundaryIsNext(files, k, m);
    }
  }

  /** Boundary files of a run of neighbours are the neighbours that follow it. */
  lemma {:induction false} ChainOfRun(files: seq<File>, lo: nat, hi: nat, r: seq<File>, n: nat) returns (k: nat)
    requires Disjoint(files) && lo < hi <= |files| && ValidFiles(r)
    requires hi - lo <= n <= |r| && r[..hi - lo] == files[lo..hi]
    requires BoundaryChain(files, files[lo..hi], r)
    ensures hi <= k <= |files| && r[..n] == files[lo..k]
    decreases n
  {
    k := hi;
    if n > hi - lo {
      var m := ChainOfRun(files, lo, hi, r, n - 1);
      ChainNext(files, lo, m, r, n);
      k := m + 1;
    }
  }

  lemma {:induction false} ChainNext(files: seq<File>, lo: nat, k: nat, r: seq<File>, n: nat)
    requires Disjoint(files) && lo < k <= |files| && ValidFiles(r) && 0 < n <= |r|
    requires r[..n - 1] == files[lo..k] && Continues(files, r[..n - 1], r[n - 1])
    ensures k < |files| && r[..n] == files[lo..k + 1]
  {
    ChainStep(files, lo, k, r[..n - 1], r[n - 1]);
    assert r[..n] == r[..n - 1] + [r[n - 1]];
  }

  lemma {:induction false} ChainStep(files: seq<File>, lo: nat, k: nat, prefix: seq<File>, f: File)
    requires Disjoint(files) && lo < k <= |files| && prefix == files[lo..k] && Continues(files, prefix, f)
    ensures k < |files| && prefix + [f] == files[lo..k + 1]
  {
    var key :| IsLargest(key, prefix) && IsSmallestBoundary(files, key, f);
    LargestOfRun(files, lo, k, key);
    NextOfRun(files, k, f);
  }

  /** On level 0 a closed range already holds every boundary file. */
  lemma {:induction false} ChainOfClosed(files: seq<File>, b: Option<UserKey>, e: Option<UserKey>, r: seq<File>)
    requires ValidFiles(files) && ClosedRange(files, b, e) && ValidFiles(r)
    requires InRangeFiles(files, b, e) <= r && BoundaryChain(files, InRangeFiles(files, b, e), r)
    ensures r == InRangeFiles(files, b, e)
  {
    var in0 := InRangeFiles(files, b, e);
    if |r| > |in0| {
      assert r[..|in0|] == in0;
      assert Continues(files, in0, r[|in0|]);
      NotContinued(files, b, e, r[|in0|]);
      assert false;
    }
  }

  lemma {:induction false} NotContinued(files: seq<File>, b: Option<UserKey>, e: Option<UserKey>, f: File)
    requires ValidFiles(files) && ClosedRange(files, b, e)
    ensures ValidFiles(InRangeFiles(files, b, e)) && !Continues(files, InRangeFiles(files, b, e), f)
  {
    var in0 := InRangeFiles(files, b, e);
    InRangeFilesAre(files, b, e);
    forall key | IsLargest(key, in0) && IsSmallestBoundary(files, key, f) ensures false {
      var i :| 0 <= i < |in0| && in0[i].Largest() == key;
      assert in0[i] in in0;
      var j :| 0 <= j < |files| && files[j] == in0[i];
      StartsBeforeEnds(f);
      StartsBeforeEnds(files[j]);
      assert Inside(files[j], b, e);
      assert InRange(f, b, e);
    }
  }

  lemma {:induction false} InRangeBetween(files: seq<File>, i: nat, j: nat, b: Option<UserKey>, e: Option<UserKey>)
    requires Disjoint(files) && i < j < |files| && InRange(files[i], b, e) && InRange(files[j], b, e)
    ensures forall m | i < m < j :: InRange(files[m], b, e)
  {
    forall m | i < m < j ensures InRange(files[m], b, e) {
      FileOrder(files, i, m);
      FileOrder(files, m, j);
    }
  }

  ghost predicate RunOf(files: seq<File>, b: Option<UserKey>, e: Option<UserKey>, lo: nat, hi: nat)
    requires ValidFiles(files)
  {
    lo <= hi <= |files| && forall m | 0 <= m < |files| :: InRange(files[m], b, e) <==> lo <= m < hi
  }

  lemma {:induction false} OneMoreFile(all: seq<File>, init: seq<File>, last: File, b: Option<UserKey>, e: Option<UserKey>)
    requires ValidFiles(all) && ValidFiles(init) && last.Valid() && all == init + [last]
    ensures InRangeFiles(all, b, e) == if InRange(last, b, e) then InRangeFiles(init, b, e) + [last] else InRangeFiles(init, b, e)
  {
    assert all[..|all| - 1] == init;
  }

  lemma {:induction false} RunPart(files: seq<File>, lo: nat, hi: nat, n: nat, taken: bool)
    requires lo <= hi <= |files| && 0 < n <= |files| && (taken <==> lo <= n - 1 < hi)
    ensures files[..n] == files[..n - 1] + [files[n - 1]]
    ensures taken ==> files[lo..n] == files[lo..n - 1] + [files[n - 1]]
  {
  }

  lemma {:induction false} FilterRun(files: seq<File>, b: Option<UserKey>, e: Option<UserKey>, lo: nat, hi: nat, n: nat)
    requires ValidFiles(files) && RunOf(files, b, e, lo, hi) && n <= |files|
    ensures InRangeFiles(files[..n], b, e) == if n < lo then [] else if n < hi then files[lo..n] else files[lo..hi]
  {
    if n > 0 {
      FilterRun(files, b, e, lo, hi, n - 1);
      RunPart(files, lo, hi, n, InRange(files[n - 1], b, e));
      OneMoreFile(files[..n], files[..n - 1], files[n - 1], b, e);
    }
  }

  /** The first file from `lo` on that meets the range. */
  lemma {:induction false} FirstInRange(files: seq<File>, b: Option<UserKey>, e: Option<UserKey>, lo: nat) returns (i: nat)
    requires ValidFiles(files) && lo <= |files|
    ensures lo <= i <= |files| && (i < |files| ==> InRange(files[i], b, e))
    ensures forall m | lo <= m < i :: !InRange(files[m], b, e)
    decreases |files| - lo
  {
    i := lo;
    if lo < |files| && !InRange(files[lo], b, e) {
      i := FirstInRange(files, b, e, lo + 1);
    }
  }

  /** Behind the last of the first `hi` files that meets the range. */
  lemma {:induction false} LastInRange(files: seq<File>, b: Option<UserKey>, e: Option<UserKey>, lo: nat, hi: nat) returns (j: nat)
    requires ValidFiles(files) && lo <= hi <= |files|
    ensures lo <= j <= hi && (lo < j ==> InRange(files[j - 1], b, e))
    ensures forall m | j <= m < hi :: !InRange(files[m], b, e)
    decreases hi
  {
    j := hi;
    if lo < hi && !InRange(files[hi - 1], b, e) {
      j := LastInRange(files, b, e, lo, hi - 1);
    }
  }

  lemma {:induction false} BetweenIsRun(files: seq<File>, b: Option<UserKey>, e: Option<UserKey>, lo: nat, hi: nat)
    requires Disjoint(files) && lo <= hi <= |files|
    requires (lo < |files| ==> InRange(files[lo], b, e)) && (lo < hi ==> InRange(files[hi - 1], b, e))
    requires forall m | 0 <= m < lo || hi <= m < |files| :: !InRange(files[m], b, e)
    ensures RunOf(files, b, e, lo, hi)
  {
    if lo < hi - 1 {
      InRangeBetween(files, lo, hi - 1, b, e);
    }
  }

  /** The files of a sorted level that meet a range are neighbours. */
  lemma {:induction false} InRangeRun(files: seq<File>, b: Option<UserKey>, e: Option<UserKey>)
    returns (lo: nat, hi: nat)
    requires Disjoint(files)
    ensures RunOf(files, b, e, lo, hi) && InRangeFiles(files, b, e) == files[lo..hi]
  {
    lo := FirstInRange(files, b, e, 0);
    hi := LastInRange(files, b, e, lo, |files|);
    BetweenIsRun(files, b, e, lo, hi);
    FilterRun(files, b, e, lo, hi, |files|);
    assert files[..|files|] == files;
  }

  lemma {:induction false} OverlappingPicked(v: Levels, level: nat, b: Option<UserKey>, e: Option<UserKey>)
    requires ValidLevels(v) && level < NUM_LEVELS
    requires InRangeFiles(v[level], b, e) != []
    requires level == 0 ==> ClosedRange(v[0], b, e)
    ensures Picked(v, level, InRangeFiles(v[level], b, e))
  {
    if level > 0 {
      var lo, hi := InRangeRun(v[level], b, e);
    }
  }

  lemma {:induction false} BoundaryCompletes(v: Levels, level: nat, inputs: seq<File>, r: seq<File>, largest: InternalKey)
    requires ValidLevels(v) && level < NUM_LEVELS && Picked(v, level, inputs)
    requires ValidFiles(r) && inputs <= r && BoundaryChain(v[level], inputs, r)
    requires IsLargest(largest, r) && NoBoundary(v[level], largest)
    ensures Complete(v, level, r)
  {
    if level == 0 {
      ClosedStaysPicked(v, inputs, r);
    } else {
      RunStaysPicked(v, level, inputs, r);
    }
  }

  lemma {:induction false} ClosedStaysPicked(v: Levels, inputs: seq<File>, r: seq<File>)
    requires ValidLevels(v) && Picked(v, 0, inputs)
    requires ValidFiles(r) && inputs <= r && BoundaryChain(v[0], inputs, r)
    ensures Picked(v, 0, r)
  {
    var b, e :| ClosedRange(v[0], b, e) && inputs == InRangeFiles(v[0], b, e);
    ChainOfClosed(v[0], b, e, r);
  }

  lemma {:induction false} RunStaysPicked(v: Levels, level: nat, inputs: seq<File>, r: seq<File>)
    requires ValidLevels(v) && 0 < level < NUM_LEVELS && Picked(v, level, inputs)
    requires ValidFiles(r) && inputs <= r && BoundaryChain(v[level], inputs, r)
    ensures Picked(v, level, r)
  {
    var lo, hi :| 0 <= lo < hi <= |v[level]| && inputs == v[level][lo..hi];
    var k := ChainOfRun(v[level], lo, hi, r, |r|);
    assert r[..|r|] == r;
  }

  function TotalFileSize(files: seq<File>): nat {
    if files == [] then 0 else files[0].size + TotalFileSize(files[1..])
  }

  /** The files of the next level that meet the user keys of `in0`. */
  method PickNextLevel(v: Levels, level: nat, in0: seq<File>) returns (in1: seq<File>)
    requires ValidLevels(v) && level + 1 < NUM_LEVELS && in0 != [] && ValidFiles(in0)
    ensures ValidFiles(in1) && NextLevelInputs(v, level, in0, in1)
  {
    var smallest, largest := GetRange(in0);
    var files, _, _ := GetOverlappingInputs(level + 1, v[level + 1], Some(smallest.ukey), Some(largest.ukey));
    InRangeFilesAre(v[level + 1], Some(smallest.ukey), Some(largest.ukey));
    in1 := files;
  }

  /** `r` is `inputs` followed by boundary files, each the first to continue those before it, until no
      file of the level continues them. */
  ghost predicate Closure(v: Levels, level: nat, inputs: seq<File>, r: seq<File>)
    requires ValidLevels(v) && level < NUM_LEVELS
  {
    Complete(v, level, r) && inputs <= r && BoundaryChain(v[level], inputs, r)
  }

  /** On level 0 the least range around [begin, end] that is closed under overlap, else that range. */
  ghost predicate LeastAround(v: Levels, level: nat, begin: UserKey, end: UserKey, b: Option<UserKey>, e: Option<UserKey>)
    requires ValidLevels(v) && level < NUM_LEVELS
  {
    if level > 0 then b == Some(begin) && e == Some(end)
    else
      && Covers(b, e, Some(begin), Some(end)) && ClosedRange(v[0], b, e)
      && WithinClosed(v[0], Some(begin), Some(end), b, e)
  }

  /** `r` are the files of the level around all of `files`. */
  ghost predicate Around(v: Levels, level: nat, files: seq<File>, r: seq<File>)
    requires ValidLevels(v) && level < NUM_LEVELS && ValidFiles(files)
  {
    exists s, l, b, e ::
      && IsSmallest(s, files) && IsLargest(l, files) && LeastAround(v, level, s.ukey, l.ukey, b, e)
      && r == InRangeFiles(v[level], b, e)
  }

  /** `wide` are the files of the level around the inputs of both levels, with their boundary files. */
  ghost predicate Widened(v: Levels, level: nat, in0: seq<File>, in1: seq<File>, wide: seq<File>)
    requires ValidLevels(v) && level < NUM_LEVELS && ValidFiles(in0) && ValidFiles(in1)
  {
    exists files :: Around(v, level, in0 + in1, files) && Closure(v, level, files, wide)
  }

  /** The files of `level` that meet the whole range of the inputs, with their boundary files. */
  method ExpandInputs(v: Levels, level: nat, in0: seq<File>, in1: seq<File>) returns (expanded0: seq<File>)
    requires ValidLevels(v) && level < NUM_LEVELS && Picked(v, level, in0) && ValidFiles(in0) && ValidFiles(in1)
    ensures Complete(v, level, expanded0) && forall f | f in in0 :: f in expanded0
    ensures Widened(v, level, in0, in1, expanded0)
  {
    var allStart, allLimit := GetRange(in0 + in1);
    var overlapping, ub, ue := GetOverlappingInputs(level, v[level], Some(allStart.ukey), Some(allLimit.ukey));
    InRangeFilesAre(v[level], ub, ue);
    StillInRange(v, level, in0, in1, allStart, allLimit, ub, ue);
    assert in0[0] in overlapping;
    OverlappingPicked(v, level, ub, ue);
    assert LeastAround(v, level, allStart.ukey, allLimit.ukey, ub, ue);
    expanded0 := CloseInputs(v, level, overlapping);
  }

  /** The inputs with their boundary files. */
  method CloseInputs(v: Levels, level: nat, inputs: seq<File>) returns (r: seq<File>)
    requires ValidLevels(v) && level < NUM_LEVELS && Picked(v, level, inputs)
    ensures Closure(v, level, inputs, r) && forall f | f in inputs :: f in r
  {
    PickedAre(v, level, inputs);
    var largest;
    r, largest := AddBoundaryInputs(v[level], inputs);
    BoundaryCompletes(v, level, inputs, r, largest);
    assert forall i | 0 <= i < |inputs| :: inputs[i] == r[i];
  }

  /** `larger` may take the place of `in0`: it has more files, is not too large together with the
      inputs of the next level, and needs no other inputs there. */
  ghost predicate MayGrow(v: Levels, level: nat, in0: seq<File>, in1: seq<File>, larger: seq<File>, sizeLimit: nat)
    requires ValidLevels(v) && level + 1 < NUM_LEVELS && ValidFiles(larger)
  {
    |larger| > |in0| && TotalFileSize(in1) + TotalFileSize(larger) < sizeLimit && NextLevelInputs(v, level, larger, in1)
  }

  /** The files two levels down that meet the user keys of all inputs. */
  ghost predicate GrandparentsOf(v: Levels, level: nat, in0: seq<File>, in1: seq<File>, grandparents: seq<File>)
    requires ValidLevels(v) && ValidFiles(in0) && ValidFiles(in1)
  {
    if level + 2 < NUM_LEVELS then MeetKeysOf(v[level + 2], in0 + in1, grandparents) else grandparents == []
  }

  /** SetupOtherInputs: close the inputs at `level` (`least`) and take every file of the next level that
      overlaps them; grow to the files around both (`wide`) if and only if that is not too much and
      changes nothing at the next level. With them the files two levels down that meet the keys of all
      inputs, and the key at which the next compaction of the level starts. */
  method SetupOtherInputs(v: Levels, level: nat, inputs: seq<File>, sizeLimit: nat)
    returns (in0: seq<File>, in1: seq<File>, grandparents: seq<File>, pointer: InternalKey,
             ghost least: seq<File>, ghost wide: seq<File>)
    requires ValidLevels(v) && level + 1 < NUM_LEVELS && Picked(v, level, inputs)
    ensures Closure(v, level, inputs, least) && NextLevelInputs(v, level, least, in1) && ValidFiles(in1)
    ensures Complete(v, level, wide) && (in1 != [] ==> Widened(v, level, least, in1, wide))
    ensures in0 == (if in1 != [] && MayGrow(v, level, least, in1, wide, sizeLimit) then wide else least)
    ensures Complete(v, level, in0) && NextLevelInputs(v, level, in0, in1)
    ensures forall f | f in inputs :: f in in0
    ensures IsLargest(pointer, in0) && GrandparentsOf(v, level, in0, in1, grandparents)
  {
    in0 := CloseInputs(v, level, inputs);
    least := in0;
    in1 := PickNextLevel(v, level, in0);
    wide := in0;
    if in1 != [] {
      in0, wide := GrowInputs(v, level, in0, in1, sizeLimit);
    }
    assert in0 != [] && ValidFiles(in0);
    grandparents, pointer := PickGrandparents(v, level, in0, in1);
  }

  method PickGrandparents(v: Levels, level: nat, in0: seq<File>, in1: seq<File>)
    returns (grandparents: seq<File>, pointer: InternalKey)
    requires ValidLevels(v) && in0 != [] && ValidFiles(in0) && ValidFiles(in1)
    ensures IsLargest(pointer, in0) && GrandparentsOf(v, level, in0, in1, grandparents)
  {
    var _, largest := GetRange(in0);
    pointer := largest;
    grandparents := [];
    if level + 2 < NUM_LEVELS {
      var allStart, allLimit := GetRange(in0 + in1);
      var files, _, _ := GetOverlappingInputs(level + 2, v[level + 2], Some(allStart.ukey), Some(allLimit.ukey));
      grandparents := files;
    }
  }

  /** The larger set of inputs at `level`, if it may take the place of `in0`. */
  method GrowInputs(v: Levels, level: nat, in0: seq<File>, in1: seq<File>, sizeLimit: nat)
    returns (grown0: seq<File>, ghost wide: seq<File>)
    requires ValidLevels(v) && level + 1 < NUM_LEVELS && Complete(v, level, in0)
    requires ValidFiles(in1) && NextLevelInputs(v, level, in0, in1)
    ensures Complete(v, level, wide) && Widened(v, level, in0, in1, wide) && forall f | f in in0 :: f in wide
    ensures grown0 == (if MayGrow(v, level, in0, in1, wide, sizeLimit) then wide else in0)
  {
    grown0 := in0;
    var expanded0 := ExpandInputs(v, level, in0, in1);
    wide := expanded0;
    if |expanded0| > |in0| && TotalFileSize(in1) + TotalFileSize(expanded0) < sizeLimit {
      var expanded1 := PickNextLevel(v, level, expanded0);
      SameMeet(v[level + 1], in0, in1, expanded0, expanded1);
      if |expanded1| == |in1| {
        grown0 := expanded0;
      }
    }
  }

  /** More inputs meet at least the same files of the next level; as many are the same ones. */
  lemma {:induction false} SameMeet(files: seq<File>, in0: seq<File>, in1: seq<File>, larger: seq<File>, in1': seq<File>)
    requires ValidFiles(files) && ValidFiles(in0) && ValidFiles(larger)
    requires MeetKeysOf(files, in0, in1) && MeetKeysOf(files, larger, in1')
    requires forall f | f in in0 :: f in larger
    ensures |in1'| == |in1| <==> in1' == in1
    ensures MeetKeysOf(files, larger, in1) <==> in1' == in1
  {
    MeetsMore(files, in0, in1, larger, in1');
    if MeetKeysOf(files, larger, in1) {
      MeetsMore(files, larger, in1, larger, in1');
      MeetsMore(files, larger, in1', larger, in1);
    }
  }

  lemma {:induction false} MeetsMore(files: seq<File>, in0: seq<File>, in1: seq<File>, larger: seq<File>, in1': seq<File>)
    requires ValidFiles(files) && ValidFiles(in0) && ValidFiles(larger)
    requires MeetKeysOf(files, in0, in1) && MeetKeysOf(files, larger, in1')
    requires forall f | f in in0 :: f in larger
    ensures |in1| <= |in1'| && (|in1| == |in1'| ==> in1 == in1')
  {
    var s, l :| IsSmallest(s, in0) && IsLargest(l, in0) && in1 == InRangeFiles(files, Some(s.ukey), Some(l.ukey));
    var s', l' :| IsSmallest(s', larger) && IsLargest(l', larger) && in1' == InRangeFiles(files, Some(s'.ukey), Some(l'.ukey));
    WiderRange(in0, larger, s, l, s', l');
    MoreInRange(files, Some(s.ukey), Some(l.ukey), Some(s'.ukey), Some(l'.ukey));
  }

  lemma {:induction false} WiderRange(some: seq<File>, all: seq<File>, s: InternalKey, l: InternalKey, s': InternalKey, l': InternalKey)
    requires ValidFiles(some) && ValidFiles(all) && forall f | f in some :: f in all
    requires IsSmallest(s, some) && IsLargest(l, some) && IsSmallest(s', all) && IsLargest(l', all)
    ensures s'.ukey <= s.ukey && l.ukey <= l'.ukey
  {
    var i :| 0 <= i < |some| && some[i].Smallest() == s;
    var j :| 0 <= j < |some| && some[j].Largest() == l;
    assert some[i] in all && some[j] in all;
    var m :| 0 <= m < |all| && all[m] == some[i];
    var n :| 0 <= n < |all| && all[n] == some[j];
    assert !Less(all[m].Smallest(), s') && !Less(l', all[n].Largest());
  }

  lemma {:induction false} MoreInRange(files: seq<File>, b: Option<UserKey>, e: Option<UserKey>, b': Option<UserKey>, e': Option<UserKey>)
    requires ValidFiles(files) && Covers(b', e', b, e)
    ensures |InRangeFiles(files, b, e)| <= |InRangeFiles(files, b', e')|
    ensures |InRangeFiles(files, b, e)| == |InRangeFiles(files, b', e')| ==> InRangeFiles(files, b, e) == InRangeFiles(files, b', e')
  {
    if files != [] {
      MoreInRange(files[..|files| - 1], b, e, b', e');
    }
  }

  lemma {:induction false} StillInRange(v: Levels, level: nat, in0: seq<File>, in1: seq<File>,
                                        start: InternalKey, limit: InternalKey, ub: Option<UserKey>, ue: Option<UserKey>)
    requires ValidLevels(v) && level < NUM_LEVELS && Picked(v, level, in0) && ValidFiles(in0) && ValidFiles(in1)
    requires IsSmallest(start, in0 + in1) && IsLargest(limit, in0 + in1)
    requires Covers(ub, ue, Some(start.ukey), Some(limit.ukey))
    ensures forall f | f in in0 :: f in InRangeFiles(v[level], ub, ue)
  {
    PickedAre(v, level, in0);
    InRangeFilesAre(v[level], ub, ue);
    forall f | f in in0 ensures f in InRangeFiles(v[level], ub, ue) {
      var i :| 0 <= i < |in0| && in0[i] == f;
      assert (in0 + in1)[i] == f;
      StartsBeforeEnds(f);
    }
  }

  // ---------- what a chosen set of inputs guarantees ----------

  /** Files of the level that are left behind hold nothing older than the inputs. */
  lemma {:induction false} LeftBehindIsNewer(v: Levels, level: nat, in0: seq<File>, f: File)
    requires ValidLevels(v) && level < NUM_LEVELS && Complete(v, level, in0)
    requires f in v[level] && f !in in0
    ensures NewerThan(Elements(f.entries), EntriesIn(in0))
  {
    if level == 0 {
      var b, e :| ClosedRange(v[0], b, e) && in0 == InRangeFiles(v[0], b, e);
      OutsideClosed(v[0], b, e, f);
    } else {
      var files := v[level];
      var lo, hi :| 0 <= lo < hi <= |files| && in0 == files[lo..hi];
      var largest :| IsLargest(largest, in0) && NoBoundary(files, largest);
      LargestOfRun(files, lo, hi, largest);
      var i :| 0 <= i < |files| && files[i] == f;
      forall k | lo <= k < hi ensures files[k] in in0 {
        assert in0[k - lo] == files[k];
      }
      OutsideRun(files, lo, hi, i);
    }
  }

  lemma {:induction false} OutsideClosed(files: seq<File>, b: Option<UserKey>, e: Option<UserKey>, f: File)
    requires ValidFiles(files) && ClosedRange(files, b, e) && f in files && f !in InRangeFiles(files, b, e)
    ensures NewerThan(Elements(f.entries), EntriesIn(InRangeFiles(files, b, e)))
  {
    InRangeFilesAre(files, b, e);
    var in0 := InRangeFiles(files, b, e);
    forall x, y | x in Elements(f.entries) && y in EntriesIn(in0) ensures x.key.ukey != y.key.ukey {
      var g :| g in in0 && y in g.entries;
      var j :| 0 <= j < |files| && files[j] == g;
      UserRange(f, x);
      UserRange(g, y);
      assert Inside(files[j], b, e);
    }
  }

  lemma {:induction false} OutsideRun(files: seq<File>, lo: nat, hi: nat, i: nat)
    requires Disjoint(files) && lo < hi <= |files| && i < |files| && (i < lo || hi <= i)
    requires NoBoundary(files, files[hi - 1].Largest())
    ensures NewerThan(Elements(files[i].entries), EntriesIn(files[lo..hi]))
  {
    var in0 := files[lo..hi];
    forall x, y | x in Elements(files[i].entries) && y in EntriesIn(in0)
      ensures x.key.ukey == y.key.ukey ==> x.key.sequence > y.key.sequence
    {
      var a, n := Locate(in0, y);
      var k :| 0 <= k < |files[i].entries| && files[i].entries[k] == x;
      if i < lo {
        DisjointBefore(files, i, k, lo + a, n);
      } else {
        UserRange(files[i], x);
        UserRange(files[lo + a], y);
        AfterRun(files, lo + a, hi, i);
      }
    }
  }

  lemma {:induction false} AfterRun(files: seq<File>, j: nat, hi: nat, i: nat)
    requires Disjoint(files) && j < hi <= i < |files| && NoBoundary(files, files[hi - 1].Largest())
    ensures files[j].Largest().ukey < files[i].Smallest().ukey
  {
    FileOrder(files, hi - 1, i);
    StartsBeforeEnds(files[hi - 1]);
    if j < hi - 1 { FileOrder(files, j, hi - 1); }
    assert !IsBoundary(files[i], files[hi - 1].Largest());
  }

  lemma {:induction false} UserRange(f: File, e: Entry)
    requires f.Valid() && e in f.entries
    ensures f.Smallest().ukey <= e.key.ukey <= f.Largest().ukey
  {
    var k :| 0 <= k < |f.entries| && f.entries[k] == e;
    assert 0 < k ==> Before(f.entries[0], e);
    assert k < |f.entries| - 1 ==> Before(e, f.entries[|f.entries| - 1]);
  }

  ghost predicate AllBefore(a: set<Entry>, b: set<Entry>) {
    forall x, y | x in a && y in b :: Before(x, y)
  }

  /** Files of the next level that are left behind lie wholly before or wholly after all inputs
      and share no user key with the inputs of the level. */
  lemma {:induction false} NextLevelAround(v: Levels, level: nat, in0: seq<File>, in1: seq<File>, g: File)
    requires ValidLevels(v) && level + 1 < NUM_LEVELS && ValidFiles(in0) && NextLevelInputs(v, level, in0, in1)
    requires g in v[level + 1] && g !in in1
    ensures var inputs := EntriesIn(in0) + EntriesIn(in1);
            AllBefore(Elements(g.entries), inputs) || AllBefore(inputs, Elements(g.entries))
    ensures forall x, y | x in g.entries && y in EntriesIn(in0) :: x.key.ukey != y.key.ukey
  {
    var files := v[level + 1];
    var s, l :| IsSmallest(s, in0) && IsLargest(l, in0) && in1 == InRangeFiles(files, Some(s.ukey), Some(l.ukey));
    InRangeFilesAre(files, Some(s.ukey), Some(l.ukey));
    var i :| 0 <= i < |files| && files[i] == g;
    assert !InRange(g, Some(s.ukey), Some(l.ukey));
    forall x, y | x in g.entries && y in EntriesIn(in0)
      ensures if g.Largest().ukey < s.ukey then x.key.ukey < y.key.ukey else y.key.ukey < x.key.ukey
    {
      AroundFirst(in0, s, l, g, x, y);
    }
    forall x, y | x in g.entries && y in EntriesIn(in1)
      ensures if g.Largest().ukey < s.ukey then Before(x, y) else Before(y, x)
    {
      AroundRange(files, s, l, i, x, y);
    }
    if g.Largest().ukey < s.ukey {
      assert AllBefore(Elements(g.entries), EntriesIn(in0) + EntriesIn(in1));
    } else {
      assert AllBefore(EntriesIn(in0) + EntriesIn(in1), Elements(g.entries));
    }
  }

  lemma {:induction false} AroundFirst(in0: seq<File>, s: InternalKey, l: InternalKey, g: File, x: Entry, y: Entry)
    requires ValidFiles(in0) && IsSmallest(s, in0) && IsLargest(l, in0) && g.Valid()
    requires !InRange(g, Some(s.ukey), Some(l.ukey)) && x in g.entries && y in EntriesIn(in0)
    ensures if g.Largest().ukey < s.ukey then x.key.ukey < y.key.ukey else y.key.ukey < x.key.ukey
  {
    var a, n := Locate(in0, y);
    UserRange(in0[a], y);
    UserRange(g, x);
  }

  lemma {:induction false} AroundRange(files: seq<File>, s: InternalKey, l: InternalKey, i: nat, x: Entry, y: Entry)
    requires Disjoint(files) && i < |files| && x in files[i].entries
    requires !InRange(files[i], Some(s.ukey), Some(l.ukey)) && y in EntriesIn(InRangeFiles(files, Some(s.ukey), Some(l.ukey)))
    ensures if files[i].Largest().ukey < s.ukey then Before(x, y) else Before(y, x)
  {
    var in1 := InRangeFiles(files, Some(s.ukey), Some(l.ukey));
    InRangeFilesAre(files, Some(s.ukey), Some(l.ukey));
    var a, n := Locate(in1, y);
    assert in1[a] in in1;
    var j :| 0 <= j < |files| && files[j] == in1[a];
    var k :| 0 <= k < |files[i].entries| && files[i].entries[k] == x;
    DisjointBefore(files, i, k, j, n);
    if i < j { FileOrder(files, i, j); } else { FileOrder(files, j, i); }
  }
}
