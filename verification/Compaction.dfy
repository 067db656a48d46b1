/** The compaction loop and its drop rules (db/db_impl.cc, db/version_set.cc). */
module Compaction {
  import opened Dbformat
  import opened Version
  import opened CompactionInputs
  import opened CompactionCuts

  // ---------- the drop rules ----------

  /** No file of the levels from `deep` on can hold a version of `u`. */
  ghost predicate BaseLevel(v: Levels, deep: nat, u: UserKey)
    requires ValidLevels(v)
  {
    forall l, i | deep <= l < NUM_LEVELS && 0 <= i < |v[l]| :: !Overlaps(FileAt(v, l, i), u)
  }

  function FileAt(v: Levels, l: nat, i: nat): (f: File)
    requires ValidLevels(v) && l < NUM_LEVELS && i < |v[l]|
    ensures f.Valid()
  {
    assert l > 0 ==> Disjoint(v[l]);
    v[l][i]
  }

  /** The sequence number of the entry before `i` for the same user key, if there is one. */
  function PreviousSequence(input: seq<Entry>, i: nat): nat
    requires i < |input|
  {
    if i > 0 && input[i - 1].key.ukey == input[i].key.ukey then input[i - 1].key.sequence else MAX_SEQUENCE
  }

  /** Rule (A): a newer version of the user key is visible to every snapshot still in use. */
  predicate Hidden(input: seq<Entry>, i: nat, smallestSnapshot: nat)
    requires i < |input|
  {
    PreviousSequence(input, i) <= smallestSnapshot
  }

  /** Rule (B): a deletion marker with nothing left below it to hide. */
  ghost predicate Obsolete(v: Levels, deep: nat, e: Entry, smallestSnapshot: nat)
    requires ValidLevels(v)
  {
    e.key.typ.Deletion? && e.key.sequence <= smallestSnapshot && BaseLevel(v, deep, e.key.ukey)
  }

  ghost predicate Drops(v: Levels, deep: nat, input: seq<Entry>, i: nat, smallestSnapshot: nat)
    requires ValidLevels(v) && i < |input|
  {
    Hidden(input, i, smallestSnapshot) || Obsolete(v, deep, input[i], smallestSnapshot)
  }

  /** What is left of the first `n` input entries. */
  ghost function Survivors(v: Levels, deep: nat, input: seq<Entry>, n: nat, smallestSnapshot: nat): seq<Entry>
    requires ValidLevels(v) && n <= |input|
  {
    if n == 0 then [] else
      Survivors(v, deep, input, n - 1, smallestSnapshot)
      + (if Drops(v, deep, input, n - 1, smallestSnapshot) then [] else [input[n - 1]])
  }

  lemma {:induction false} SurvivorsAre(v: Levels, deep: nat, input: seq<Entry>, n: nat, smallestSnapshot: nat)
    requires ValidLevels(v) && n <= |input| && Ordered(input)
    ensures var s := Survivors(v, deep, input, n, smallestSnapshot);
            && Ordered(s)
            && forall e :: e in s <==> exists i :: 0 <= i < n && input[i] == e && !Drops(v, deep, input, i, smallestSnapshot)
  {
    if n > 0 {
      SurvivorsAre(v, deep, input, n - 1, smallestSnapshot);
      var s := Survivors(v, deep, input, n - 1, smallestSnapshot);
      forall k | 0 <= k < |s| ensures Before(s[k], input[n - 1]) {
        assert s[k] in s;
        var i :| 0 <= i < n - 1 && input[i] == s[k] && !Drops(v, deep, input, i, smallestSnapshot);
      }
    }
  }

  /** The output, with the table under construction, is what is left of the first `n` input entries. */
  ghost predicate Holds(v: Levels, deep: nat, input: seq<Entry>, n: nat, smallestSnapshot: nat, outputs: seq<seq<Entry>>, builder: seq<Entry>)
    requires ValidLevels(v) && n <= |input|
  {
    Concat(outputs) + builder == Survivors(v, deep, input, n, smallestSnapshot)
  }

  lemma {:induction false} HoldsNone(v: Levels, deep: nat, input: seq<Entry>, n: nat, smallestSnapshot: nat,
                                     outputs: seq<seq<Entry>>, builder: seq<Entry>)
    requires ValidLevels(v) && n == 0 && outputs == [] && builder == []
    ensures Holds(v, deep, input, n, smallestSnapshot, outputs, builder)
  {
  }

  lemma {:induction false} HoldsNext(v: Levels, deep: nat, input: seq<Entry>, i: nat, smallestSnapshot: nat, outputs: seq<seq<Entry>>,
                                     builder: seq<Entry>, done: seq<seq<Entry>>, rest: seq<Entry>)
    requires ValidLevels(v) && i < |input| && Holds(v, deep, input, i, smallestSnapshot, outputs, builder)
    requires Concat(done) + rest == Concat(outputs) + builder + if Drops(v, deep, input, i, smallestSnapshot) then [] else [input[i]]
    ensures Holds(v, deep, input, i + 1, smallestSnapshot, done, rest)
  {
  }

  // ---------- the loop ----------

  class CompactionJob {
    const v: Levels
    const level: nat
    const grandparents: seq<File>
    const maxOverlap: nat
    var levelPtrs: seq<nat>
    var grandparentIndex: nat
    var seenKey: bool
    var overlappedBytes: nat
    ghost var since: nat /* where the grandparents passed since the first key or the last stop begin */

    ghost predicate Valid()
      reads this
    {
      && ValidLevels(v) && level + 1 < NUM_LEVELS && ValidFiles(grandparents)
      && |levelPtrs| == NUM_LEVELS
      && (forall l | 0 <= l < NUM_LEVELS :: levelPtrs[l] <= |v[l]|)
      && since <= grandparentIndex <= |grandparents|
      && overlappedBytes == (if seenKey then SizeBetween(grandparents, since, grandparentIndex) else 0) <= maxOverlap
    }

    /** Every deeper file already passed ends before `u`. */
    ghost predicate Passed(u: UserKey)
      requires Valid()
      reads this
    {
      forall l, i | level + 2 <= l < NUM_LEVELS && 0 <= i < levelPtrs[l] :: FileAt(v, l, i).Largest().ukey < u
    }

    /** No key has been looked at. */
    predicate Fresh()
      reads this
    {
      !seenKey && grandparentIndex == 0
    }

    function Limit(): Limits {
      Limits(grandparents, maxOverlap)
    }

    /** The grandparents have been passed as far as the keys before `i` say. */
    ghost predicate At(input: seq<Entry>, i: nat)
      requires Valid() && i <= |input|
      reads this
    {
      if i == 0 then Fresh()
      else
        seenKey && grandparentIndex == PassedFiles(grandparents, input[i - 1].key) && since == Since(Limit(), input, i - 1)
    }

    constructor (v: Levels, level: nat, grandparents: seq<File>, maxOverlap: nat)
      requires ValidLevels(v) && level + 1 < NUM_LEVELS && ValidFiles(grandparents)
      ensures Valid() && this.v == v && this.level == level && Fresh()
      ensures this.grandparents == grandparents && this.maxOverlap == maxOverlap
      ensures forall u :: Passed(u)
    {
      this.v, this.level, this.grandparents, this.maxOverlap := v, level, grandparents, maxOverlap;
      levelPtrs := seq(NUM_LEVELS, _ => 0);
      grandparentIndex, seenKey, overlappedBytes, since := 0, false, 0, 0;
    }

    /** IsBaseLevelForKey: pointers that only move forward find every deeper file covering the
        key, as long as the keys asked for never decrease. */
    method IsBaseLevelForKey(u: UserKey) returns (r: bool)
      requires Valid() && Passed(u)
      modifies this`levelPtrs
      ensures Valid() && forall w | w >= u :: Passed(w)
      ensures r <==> BaseLevel(v, level + 2, u)
    {
      for lvl := level + 2 to NUM_LEVELS
        invariant Valid() && Passed(u)
        invariant forall l, i | level + 2 <= l < lvl && 0 <= i < |v[l]| :: !Overlaps(FileAt(v, l, i), u)
      {
        var found := ScanLevel(lvl, u);
        if found {
          return false;
        }
      }
      return true;
    }

    /** The scan of one level: whether some file of it covers `u`. */
    method ScanLevel(lvl: nat, u: UserKey) returns (found: bool)
      requires Valid() && Passed(u) && level + 2 <= lvl < NUM_LEVELS
      modifies this`levelPtrs
      ensures Valid() && Passed(u)
      ensures found <==> exists i :: 0 <= i < |v[lvl]| && Overlaps(FileAt(v, lvl, i), u)
    {
      while levelPtrs[lvl] < |v[lvl]|
        invariant Valid() && Passed(u)
        decreases |v[lvl]| - levelPtrs[lvl]
      {
        var f := FileAt(v, lvl, levelPtrs[lvl]);
        if u <= f.Largest().ukey {
          assert f == FileAt(v, lvl, levelPtrs[lvl]);
          LaterFilesAfter(v, lvl, levelPtrs[lvl], u);
          return u >= f.Smallest().ukey;
        }
        levelPtrs := levelPtrs[lvl := levelPtrs[lvl] + 1];
      }
      return false;
    }

    /** ShouldStopBefore: the pointer moves past the grandparents that end before the key, and the
        output file should be closed if those passed since it was begun are too large together. */
    method ShouldStopBefore(key: InternalKey) returns (r: bool)
      requires Valid()
      modifies this`grandparentIndex, this`seenKey, this`overlappedBytes, this`since
      ensures Valid() && (forall u | old(Passed(u)) :: Passed(u)) && seenKey && grandparentIndex >= old(grandparentIndex)
      ensures forall i | old(grandparentIndex) <= i < grandparentIndex :: Less(grandparents[i].Largest(), key)
      ensures grandparentIndex < |grandparents| ==> !Less(grandparents[grandparentIndex].Largest(), key)
      ensures r <==> old(seenKey) && SizeBetween(grandparents, old(since), grandparentIndex) > maxOverlap
      ensures since == if r || !old(seenKey) then grandparentIndex else old(since)
    {
      while grandparentIndex < |grandparents| && Less(grandparents[grandparentIndex].Largest(), key)
        invariant old(grandparentIndex) <= grandparentIndex <= |grandparents|
        invariant seenKey == old(seenKey) && since == old(since) <= grandparentIndex
        invariant forall i | old(grandparentIndex) <= i < grandparentIndex :: Less(grandparents[i].Largest(), key)
        invariant overlappedBytes == if seenKey then SizeBetween(grandparents, since, grandparentIndex) else 0
        decreases |grandparents| - grandparentIndex
      {
        if seenKey {
          overlappedBytes := overlappedBytes + grandparents[grandparentIndex].size;
        }
        grandparentIndex := grandparentIndex + 1;
      }
      if !seenKey {
        since := grandparentIndex;
      }
      seenKey := true;
      if overlappedBytes > maxOverlap {
        overlappedBytes, since := 0, grandparentIndex;
        r := true;
      } else {
        r := false;
      }
    }

    /** The drop decision for one entry, given the sequence number last seen for its user key. */
    method ShouldDrop(input: seq<Entry>, i: nat, lastSequenceForKey: nat, smallestSnapshot: nat) returns (drop: bool)
      requires Valid() && i < |input| && Passed(input[i].key.ukey)
      requires lastSequenceForKey == PreviousSequence(input, i)
      modifies this`levelPtrs
      ensures Valid() && forall w | w >= input[i].key.ukey :: Passed(w)
      ensures drop <==> Drops(v, level + 2, input, i, smallestSnapshot)
    {
      drop := false;
      if lastSequenceForKey <= smallestSnapshot {
        drop := true;
      } else if input[i].key.typ.Deletion? && input[i].key.sequence <= smallestSnapshot {
        drop := IsBaseLevelForKey(input[i].key.ukey);
      }
    }

    /** ShouldStopBefore for the keys of the input, one after the other. */
    method StopBefore(input: seq<Entry>, i: nat) returns (stop: bool)
      requires Valid() && Ordered(input) && i < |input| && At(input, i)
      modifies this`grandparentIndex, this`seenKey, this`overlappedBytes, this`since
      ensures Valid() && At(input, i + 1) && (forall u | old(Passed(u)) :: Passed(u))
      ensures stop == StopsAt(Limit(), input, i)
    {
      ghost var l, was, from := Limit(), grandparentIndex, since;
      stop := ShouldStopBefore(input[i].key);
      if i > 0 {
        assert Before(input[i - 1], input[i]);
        PassedMore(grandparents, input[i - 1].key, input[i].key);
      }
      PassedByUnique(grandparents, input[i].key, grandparentIndex, PassedFiles(grandparents, input[i].key));
    }

    /** What the loop knows when it comes to key `i`. */
    ghost predicate Reached(input: seq<Entry>, i: nat, currentUserKey: Option<UserKey>, lastSequenceForKey: nat)
      requires Valid() && i <= |input|
      reads this
    {
      && At(input, i) && (i < |input| ==> Passed(input[i].key.ukey))
      && currentUserKey == (if i == 0 then None else Some(input[i - 1].key.ukey))
      && (i > 0 ==> lastSequenceForKey == input[i - 1].key.sequence)
    }

    /** DoCompactionWork: stream the merged inputs, drop what rules (A) and (B) allow, and cut the
        rest into output tables wherever the size limits say, and only there. */
    method DoCompactionWork(input: seq<Entry>, smallestSnapshot: nat, fileSize: seq<Entry> -> nat, maxFileSize: nat)
      returns (outputs: seq<seq<Entry>>, ghost places: seq<seq<nat>>)
      requires Valid() && Ordered(input) && (forall u :: Passed(u)) && Fresh()
      modifies this
      ensures Valid() && forall i | 0 <= i < |outputs| :: outputs[i] != []
      ensures Concat(outputs) == Survivors(v, level + 2, input, |input|, smallestSnapshot)
      ensures WellCut(Size(fileSize, maxFileSize), Stops(Limit(), input), input, outputs, places)
    {
      ghost var size, stops := Size(fileSize, maxFileSize), Stops(Limit(), input);
      var builder: seq<Entry>;
      ghost var now: seq<nat>;
      outputs, builder, places, now := [], [], [], [];
      NothingCut(size, stops, input, outputs, places, builder, now);
      HoldsNone(v, level + 2, input, 0, smallestSnapshot, outputs, builder);
      outputs, builder, places, now := TakeKeys(input, smallestSnapshot, fileSize, maxFileSize, outputs, builder, places, now);
      outputs, places := CloseLast(outputs, builder, size, stops, input, places, now);
    }

    /** The loop over the keys. */
    method TakeKeys(input: seq<Entry>, smallestSnapshot: nat, fileSize: seq<Entry> -> nat, maxFileSize: nat,
                    outputs: seq<seq<Entry>>, builder: seq<Entry>, ghost places: seq<seq<nat>>, ghost now: seq<nat>)
      returns (done: seq<seq<Entry>>, rest: seq<Entry>, ghost places': seq<seq<nat>>, ghost now': seq<nat>)
      requires Valid() && Ordered(input) && (forall u :: Passed(u)) && Fresh()
      requires Cutting(Size(fileSize, maxFileSize), Stops(Limit(), input), input, outputs, places, builder, now, -1)
      requires Holds(v, level + 2, input, 0, smallestSnapshot, outputs, builder)
      modifies this
      ensures Valid() && Cutting(Size(fileSize, maxFileSize), Stops(Limit(), input), input, done, places', rest, now', |input| - 1)
      ensures Holds(v, level + 2, input, |input|, smallestSnapshot, done, rest)
    {
      ghost var size, stops := Size(fileSize, maxFileSize), Stops(Limit(), input);
      done, rest, places', now' := outputs, builder, places, now;
      var currentUserKey: Option<UserKey> := None;
      var lastSequenceForKey := MAX_SEQUENCE;
      for i := 0 to |input|
        invariant Valid() && Reached(input, i, currentUserKey, lastSequenceForKey)
        invariant Cutting(size, stops, input, done, places', rest, now', i - 1)
        invariant Holds(v, level + 2, input, i, smallestSnapshot, done, rest)
      {
        ghost var outs, table := done, rest;
        done, rest, currentUserKey, lastSequenceForKey, places', now' :=
          TakeKey(input, i, smallestSnapshot, fileSize, maxFileSize, done, rest, currentUserKey, lastSequenceForKey, places', now');
        HoldsNext(v, level + 2, input, i, smallestSnapshot, outs, table, done, rest);
      }
    }

    /** The table still under construction at the end of the input is closed too. */
    method CloseLast(outputs: seq<seq<Entry>>, builder: seq<Entry>, ghost size: Size, ghost stops: seq<bool>, ghost input: seq<Entry>,
                     ghost places: seq<seq<nat>>, ghost now: seq<nat>)
      returns (done: seq<seq<Entry>>, ghost places': seq<seq<nat>>)
      requires Cutting(size, stops, input, outputs, places, builder, now, |input| - 1)
      ensures WellCut(size, stops, input, done, places') && (forall i | 0 <= i < |done| :: done[i] != [])
      ensures Concat(done) == Concat(outputs) + builder
    {
      done, places' := outputs, places;
      if builder != [] {
        ClosedWellCut(size, stops, input, outputs, places, builder, now);
        places' := places + [now];
        var rest;
        done, rest := Finish(outputs, builder);
      }
    }

    /** One turn of the loop. */
    method TakeKey(input: seq<Entry>, i: nat, smallestSnapshot: nat, fileSize: seq<Entry> -> nat, maxFileSize: nat,
                   outputs: seq<seq<Entry>>, builder: seq<Entry>, currentUserKey: Option<UserKey>, lastSequenceForKey: nat,
                   ghost places: seq<seq<nat>>, ghost now: seq<nat>)
      returns (done: seq<seq<Entry>>, rest: seq<Entry>, currentUserKey': Option<UserKey>, lastSequenceForKey': nat,
               ghost places': seq<seq<nat>>, ghost now': seq<nat>)
      requires Valid() && Ordered(input) && i < |input| && Reached(input, i, currentUserKey, lastSequenceForKey)
      requires Cutting(Size(fileSize, maxFileSize), Stops(Limit(), input), input, outputs, places, builder, now, i - 1)
      modifies this
      ensures Valid() && Reached(input, i + 1, currentUserKey', lastSequenceForKey')
      ensures Cutting(Size(fileSize, maxFileSize), Stops(Limit(), input), input, done, places', rest, now', i)
      ensures Concat(done) + rest ==
              Concat(outputs) + builder + if Drops(v, level + 2, input, i, smallestSnapshot) then [] else [input[i]]
    {
      ghost var size, stops := Size(fileSize, maxFileSize), Stops(Limit(), input);
      var stop := StopBefore(input, i);
      done, rest, places', now' := CloseBefore(stop, outputs, builder, size, stops, input, places, now, i);
      var drop;
      drop, currentUserKey', lastSequenceForKey' := DropKey(input, i, smallestSnapshot, currentUserKey, lastSequenceForKey);
      if !drop {
        done, rest, places', now' := Emit(done, rest, input, i, fileSize, maxFileSize, stops, places', now');
      }
    }

    /** What is remembered of the user key, and the drop decision. */
    method DropKey(input: seq<Entry>, i: nat, smallestSnapshot: nat, currentUserKey: Option<UserKey>, lastSequenceForKey: nat)
      returns (drop: bool, currentUserKey': Option<UserKey>, lastSequenceForKey': nat)
      requires Valid() && Ordered(input) && i < |input| && At(input, i + 1) && Passed(input[i].key.ukey)
      requires currentUserKey == if i == 0 then None else Some(input[i - 1].key.ukey)
      requires i > 0 ==> lastSequenceForKey == input[i - 1].key.sequence
      modifies this`levelPtrs
      ensures Valid() && Reached(input, i + 1, currentUserKey', lastSequenceForKey')
      ensures drop <==> Drops(v, level + 2, input, i, smallestSnapshot)
    {
      currentUserKey', lastSequenceForKey' := currentUserKey, lastSequenceForKey;
      if currentUserKey' != Some(input[i].key.ukey) {
        currentUserKey' := Some(input[i].key.ukey);
        lastSequenceForKey' := MAX_SEQUENCE;
      }
      drop := ShouldDrop(input, i, lastSequenceForKey', smallestSnapshot);
      lastSequenceForKey' := input[i].key.sequence;
      assert i + 1 < |input| ==> Before(input[i], input[i + 1]);
    }

    /** Before a key at which to stop the table under construction is closed, if there is one. */
    method CloseBefore(stop: bool, outputs: seq<seq<Entry>>, builder: seq<Entry>, ghost size: Size, ghost stops: seq<bool>,
                       ghost input: seq<Entry>, ghost places: seq<seq<nat>>, ghost now: seq<nat>, ghost i: nat)
      returns (done: seq<seq<Entry>>, rest: seq<Entry>, ghost places': seq<seq<nat>>, ghost now': seq<nat>)
      requires Cutting(size, stops, input, outputs, places, builder, now, i - 1) && i < |stops| && stop == stops[i]
      ensures Cutting(size, stops, input, done, places', rest, now', i)
      ensures Concat(done) + rest == Concat(outputs) + builder
    {
      done, rest, places', now' := outputs, builder, places, now;
      if stop && builder != [] {
        CutAtStop(size, stops, input, outputs, places, builder, now, i - 1);
        places', now' := places + [now], [];
        done, rest := Finish(outputs, builder);
      } else {
        CutNothing(size, stops, input, outputs, places, builder, now, i - 1);
      }
    }

    /** Add an entry to the table under construction and close the table when it is big enough. */
    method Emit(outputs: seq<seq<Entry>>, builder: seq<Entry>, input: seq<Entry>, i: nat, fileSize: seq<Entry> -> nat, maxFileSize: nat,
                ghost stops: seq<bool>, ghost places: seq<seq<nat>>, ghost now: seq<nat>)
      returns (done: seq<seq<Entry>>, rest: seq<Entry>, ghost places': seq<seq<nat>>, ghost now': seq<nat>)
      requires i < |input| && Cutting(Size(fileSize, maxFileSize), stops, input, outputs, places, builder, now, i)
      ensures Cutting(Size(fileSize, maxFileSize), stops, input, done, places', rest, now', i)
      ensures Concat(done) + rest == Concat(outputs) + builder + [input[i]]
    {
      ghost var size := Size(fileSize, maxFileSize);
      Regroup(Concat(outputs), builder, [input[i]]);
      done, rest := outputs, builder + [input[i]];
      places', now' := places, now + [i];
      if fileSize(rest) >= maxFileSize {
        CutAtSize(size, stops, input, outputs, places, builder, now, i);
        places', now' := places + [now + [i]], [];
        done, rest := Finish(done, rest);
      } else {
        CutNotYet(size, stops, input, outputs, places, builder, now, i);
      }
    }

    /** FinishCompactionOutputFile: the table under construction becomes an output. */
    method Finish(outputs: seq<seq<Entry>>, builder: seq<Entry>) returns (done: seq<seq<Entry>>, empty: seq<Entry>)
      requires builder != []
      ensures empty == [] && done == outputs + [builder] && Concat(done) == Concat(outputs) + builder
    {
      done, empty := outputs + [builder], [];
      ConcatLast(done, outputs, builder);
    }
  }

  /** In a sorted level, once a file reaches `u` only that file can cover it. */
  lemma {:induction false} LaterFilesAfter(v: Levels, lvl: nat, p: nat, u: UserKey)
    requires ValidLevels(v) && 1 <= lvl < NUM_LEVELS && p < |v[lvl]|
    requires forall i | 0 <= i < p :: FileAt(v, lvl, i).Largest().ukey < u
    requires u <= FileAt(v, lvl, p).Largest().ukey
    ensures (exists i :: 0 <= i < |v[lvl]| && Overlaps(FileAt(v, lvl, i), u)) <==> Overlaps(FileAt(v, lvl, p), u)
  {
    assert Disjoint(v[lvl]);
    forall i | 0 <= i < |v[lvl]| && i != p && Overlaps(FileAt(v, lvl, i), u)
      ensures Overlaps(FileAt(v, lvl, p), u)
    {
      if p < i {
        FileOrder(v[lvl], p, i);
      }
    }
  }
}
