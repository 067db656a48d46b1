/** The manifest end to end: version edits are encoded, appended to a log, read back, decoded and
    given to one builder (db/version_set.cc LogAndApply, WriteSnapshot and Recover).

    ManifestEdit.dfy has the bytes of a record, LogReader.dfy the file of records and
    VersionBuilder.dfy the effect of edits on the levels; here they are one. A table is known by its
    number: what it holds is in the catalog of the tables on disk. */
module ManifestReplay {
  import opened Dbformat
  import opened Coding
  import opened Version
  import Comparator
  import Log
  import LogReader
  import Manifest = ManifestEdit
  import Builder = VersionBuilder

  /** The bytes of user keys. */
  type Names = UserKey -> Bytes

  // ---------- files in records ----------

  function KeyBytes(names: Names, k: InternalKey): Bytes {
    AppendInternalKey(EncodedKey(names(k.ukey), k.sequence, k.typ))
  }

  /** What a record says of a file. */
  function MetaOf(names: Names, f: File): Manifest.FileMeta
    requires f.Valid()
  {
    Manifest.FileMeta(f.number, f.size, KeyBytes(names, f.Smallest()), KeyBytes(names, f.Largest()))
  }

  predicate Named(names: Names, k: InternalKey) {
    Comparator.Rank(names(k.ukey)) == k.ukey
  }

  /** The bounds read from a record compare as those of the file do. */
  lemma {:induction false} BoundsRead(names: Names, f: File)
    requires f.Valid() && Named(names, f.Smallest()) && Named(names, f.Largest())
    ensures var small, large := ParseInternalKey(MetaOf(names, f).smallest), ParseInternalKey(MetaOf(names, f).largest);
            && small.Some? && Comparator.Ranked(small.value) == f.Smallest()
            && large.Some? && Comparator.Ranked(large.value) == f.Largest()
  {
    InternalKeyRoundTrip(EncodedKey(names(f.Smallest().ukey), f.Smallest().sequence, f.Smallest().typ));
    InternalKeyRoundTrip(EncodedKey(names(f.Largest().ukey), f.Largest().sequence, f.Largest().typ));
  }

  predicate AddsValid(adds: seq<(nat, File)>) {
    forall i | 0 <= i < |adds| :: adds[i].1.Valid()
  }

  function Metas(names: Names, adds: seq<(nat, File)>): (r: seq<(nat, Manifest.FileMeta)>)
    requires AddsValid(adds)
    ensures |r| == |adds|
  {
    seq(|adds|, i requires 0 <= i < |adds| => (adds[i].0, MetaOf(names, adds[i].1)))
  }

  /** The table that a record means, if there is one on disk with that number, size and bounds. */
  function FileOf(names: Names, catalog: map<nat, File>, meta: Manifest.FileMeta): Option<File> {
    if meta.number in catalog && catalog[meta.number].Valid() && MetaOf(names, catalog[meta.number]) == meta
    then Some(catalog[meta.number])
    else None
  }

  function AddsOf(names: Names, catalog: map<nat, File>, metas: seq<(nat, Manifest.FileMeta)>): Option<seq<(nat, File)>> {
    if metas == [] then Some([])
    else
      match (AddsOf(names, catalog, metas[..|metas| - 1]), FileOf(names, catalog, metas[|metas| - 1].1))
      case (Some(adds), Some(f)) => Some(adds + [(metas[|metas| - 1].0, f)])
      case _ => None
  }

  predicate OnDisk(catalog: map<nat, File>, adds: seq<(nat, File)>) {
    forall i | 0 <= i < |adds| :: adds[i].1.number in catalog && catalog[adds[i].1.number] == adds[i].1
  }

  lemma {:induction false} AddsRead(names: Names, catalog: map<nat, File>, adds: seq<(nat, File)>)
    requires AddsValid(adds) && OnDisk(catalog, adds)
    ensures AddsOf(names, catalog, Metas(names, adds)) == Some(adds)
    decreases |adds|
  {
    if adds != [] {
      var n := |adds| - 1;
      AddsRead(names, catalog, adds[..n]);
      assert Metas(names, adds)[..n] == Metas(names, adds[..n]);
      assert adds == adds[..n] + [(adds[n].0, adds[n].1)];
    }
  }

  // ---------- records ----------

  /** What LogAndApply adds to the files of an edit. */
  datatype Stamp = Stamp(logNumber: nat, prevLogNumber: nat, nextFile: nat, lastSequence: nat, pointers: seq<(nat, Bytes)>)

  function RecordOf(names: Names, e: Builder.Edit, stamp: Stamp): Manifest.Edit
    requires AddsValid(e.added)
  {
    Manifest.Edit(None, Some(stamp.logNumber), Some(stamp.prevLogNumber), Some(stamp.nextFile), Some(stamp.lastSequence),
                  stamp.pointers, e.deleted, Metas(names, e.added))
  }

  /** WriteSnapshot: the name of the comparator, compaction pointers and every file, but no numbers. */
  function SnapshotRecord(names: Names, comparator: Bytes, pointers: seq<(nat, Bytes)>, v: Levels): Manifest.Edit
    requires AddsValid(Builder.SnapshotAdds(v, 0))
  {
    Manifest.Edit(Some(comparator), None, None, None, None, pointers, {}, Metas(names, Builder.SnapshotAdds(v, 0)))
  }

  /** The numbers, levels and keys fit their fields. */
  predicate Fits(m: Manifest.Edit) {
    && (m.comparator.Some? ==> |m.comparator.value| < TWO32)
    && (m.logNumber.Some? ==> m.logNumber.value < TWO64) && (m.prevLogNumber.Some? ==> m.prevLogNumber.value < TWO64)
    && (m.nextFileNumber.Some? ==> m.nextFileNumber.value < TWO64) && (m.lastSequence.Some? ==> m.lastSequence.value < TWO64)
    && (forall i | 0 <= i < |m.compactPointers| :: Manifest.Holds(Manifest.CompactPointer(m.compactPointers[i].0, m.compactPointers[i].1)))
    && (forall d | d in m.deleted :: Manifest.Holds(Manifest.DeletedFile(d.0, d.1)))
    && (forall i | 0 <= i < |m.added| :: Manifest.Holds(Manifest.NewFile(m.added[i].0, m.added[i].1)))
  }

  /** Read into a new edit, the record gives `m`. */
  predicate Encodes(record: Bytes, m: Manifest.Edit) {
    Manifest.Decode(Manifest.BLANK, record) == (m, None)
  }

  method EncodeEdit(m: Manifest.Edit) returns (record: Bytes)
    requires Fits(m)
    ensures Encodes(record, m)
  {
    var edit := new Manifest.VersionEdit();
    edit.comparator, edit.logNumber, edit.prevLogNumber := m.comparator, m.logNumber, m.prevLogNumber;
    edit.nextFileNumber, edit.lastSequence := m.nextFileNumber, m.lastSequence;
    edit.compactPointers, edit.deleted, edit.added := m.compactPointers, m.deleted, m.added;
    assert edit.Contents() == m;
    record := edit.EncodeTo();
    BlankAlike(m);
    assert Manifest.Decode(Manifest.Cleared(Manifest.BLANK), record) == (Manifest.Prepended(Manifest.BLANK.compactPointers, m), None);
  }

  lemma {:induction false} BlankAlike(m: Manifest.Edit)
    ensures Manifest.Cleared(Manifest.BLANK) == Manifest.BLANK && Manifest.Prepended(Manifest.BLANK.compactPointers, m) == m
  {
    assert [] + m.compactPointers == m.compactPointers;
  }

  /** Recovery reads each record into an edit of its own. */
  method DecodeEdit(record: Bytes, ghost m0: Manifest.Edit) returns (m: Option<Manifest.Edit>)
    ensures Encodes(record, m0) ==> m == Some(m0)
  {
    var edit := new Manifest.VersionEdit();
    BlankAlike(m0);
    var problem := edit.DecodeFrom(record);
    if problem.Some? {
      return None;
    }
    ghost var contents := edit.Contents();
    m := Some(Manifest.Edit(edit.comparator, edit.logNumber, edit.prevLogNumber, edit.nextFileNumber, edit.lastSequence,
                            edit.compactPointers, edit.deleted, edit.added));
    assert m.value == contents;
  }

  ghost predicate AllEncode(records: seq<Bytes>, ms: seq<Manifest.Edit>) {
    |records| == |ms| && forall i | 0 <= i < |ms| :: Encodes(records[i], ms[i])
  }

  lemma {:induction false} OneMoreEncodes(records: seq<Bytes>, ms: seq<Manifest.Edit>, record: Bytes, m: Manifest.Edit)
    requires AllEncode(records, ms) && Encodes(record, m)
    ensures AllEncode(records + [record], ms + [m])
  {
    forall i | 0 <= i <= |ms| ensures Encodes((records + [record])[i], (ms + [m])[i]) {
      if i < |ms| {
        assert Encodes(records[i], ms[i]);
      }
    }
  }

  method EncodeAll(ms: seq<Manifest.Edit>) returns (records: seq<Bytes>)
    requires AllFit(ms)
    ensures AllEncode(records, ms)
  {
    records := [];
    for n := 0 to |ms|
      invariant AllEncode(records, ms[..n])
    {
      var record := EncodeEdit(ms[n]);
      OneMoreEncodes(records, ms[..n], record, ms[n]);
      records := records + [record];
      assert ms[..n + 1] == ms[..n] + [ms[n]];
    }
    assert ms[..|ms|] == ms;
  }

  method WriteManifest(c: Log.Checksum, ms: seq<Manifest.Edit>) returns (file: Bytes, ghost records: seq<Bytes>)
    requires AllFit(ms)
    ensures AllEncode(records, ms) && file == Log.Image(c, records, |records|)
  {
    var all := EncodeAll(ms);
    file := LogReader.WriteAll(c, all);
    records := all;
  }

  method DecodeAll(records: seq<Bytes>, ghost ms: seq<Manifest.Edit>) returns (edits: Option<seq<Manifest.Edit>>)
    requires AllEncode(records, ms)
    ensures edits == Some(ms)
  {
    var read: seq<Manifest.Edit> := [];
    for n := 0 to |records|
      invariant read == ms[..n]
    {
      var m := DecodeEdit(records[n], ms[n]);
      if m.None? {
        return None;
      }
      read := read + [m.value];
      assert ms[..n + 1] == ms[..n] + [ms[n]];
    }
    assert ms[..|ms|] == ms;
    edits := Some(read);
  }

  lemma {:induction false} PrefixEncodes(records: seq<Bytes>, ms: seq<Manifest.Edit>, k: nat)
    requires AllEncode(records, ms) && k <= |ms|
    ensures AllEncode(records[..k], ms[..k])
  {
  }

  /** From a manifest cut at any byte exactly the edits that are wholly in it are read. */
  method ReadManifest(c: Log.Checksum, file: Bytes, verify: bool, ghost records: seq<Bytes>, ghost ms: seq<Manifest.Edit>)
    returns (edits: Option<seq<Manifest.Edit>>, ghost k: nat)
    requires c.Sound() && AllEncode(records, ms) && file <= Log.Image(c, records, |records|)
    ensures k <= |ms| && edits == Some(ms[..k]) && |Log.Image(c, records, k)| <= |file|
    ensures k < |ms| ==> |file| < |Log.Image(c, records, k + 1)|
  {
    var found, reports;
    found, reports, k := LogReader.ReadAll(c, file, verify, records);
    if reports > 0 {
      return None, k;
    }
    PrefixEncodes(records, ms, k);
    edits := DecodeAll(found, ms[..k]);
  }

  // ---------- replaying them ----------

  function EditOf(names: Names, catalog: map<nat, File>, m: Manifest.Edit): Option<Builder.Edit> {
    match AddsOf(names, catalog, m.added) case None => None case Some(adds) => Some(Builder.Edit(m.deleted, adds))
  }

  datatype Numbers = Numbers(logNumber: Option<nat>, nextFile: Option<nat>, lastSequence: Option<nat>)

  function Or(a: Option<nat>, b: Option<nat>): Option<nat> {
    if a.Some? then a else b
  }

  /** The last record that has a number decides it. */
  function NumbersOf(ms: seq<Manifest.Edit>): Numbers {
    if ms == [] then Numbers(None, None, None)
    else
      var before, m := NumbersOf(ms[..|ms| - 1]), ms[|ms| - 1];
      Numbers(Or(m.logNumber, before.logNumber), Or(m.nextFileNumber, before.nextFile), Or(m.lastSequence, before.lastSequence))
  }

  const EMPTY: Levels := [[], [], [], [], [], [], []]

  /** The record was written under another order of the keys. */
  predicate OtherOrder(m: Manifest.Edit, name: Bytes) {
    m.comparator.Some? && m.comparator.value != name
  }

  /** What opening gives: a version, or one of the two errors found behind the reading. */
  datatype Opened = Opened(version: Levels) | InvalidArgument | Corruption

  /** VersionSet::Recover behind the reading: every record must name the comparator of the database if it
      names one, all edits go to one builder, the numbers are collected, and without all of them the
      manifest is corrupt. */
  method Recover(names: Names, name: Bytes, catalog: map<nat, File>, ms: seq<Manifest.Edit>, ghost es: seq<Builder.Edit>)
    returns (v: Opened, numbers: Numbers)
    requires |es| == |ms| && forall i | 0 <= i < |ms| :: EditOf(names, catalog, ms[i]) == Some(es[i])
    requires (forall i | 0 <= i < |es| :: Builder.ValidEdit(es[i])) && Builder.FreshFor(EMPTY, Builder.AllAdds(es))
    ensures v.InvalidArgument? <==> exists i | 0 <= i < |ms| :: OtherOrder(ms[i], name)
    ensures !v.InvalidArgument? ==> numbers == NumbersOf(ms)
    ensures !v.InvalidArgument? ==>
              (v.Opened? <==> numbers.nextFile.Some? && numbers.logNumber.Some? && numbers.lastSequence.Some?)
    ensures v.Opened? ==> Builder.SortedLevels(v.version)
                          && forall l | 0 <= l < NUM_LEVELS :: Builder.FileSet(v.version[l]) == Builder.RunSet({}, es, l)
  {
    numbers := Numbers(None, None, None);
    var edits: seq<Builder.Edit> := [];
    for n := 0 to |ms|
      invariant numbers == NumbersOf(ms[..n]) && edits == es[..n]
      invariant forall i | 0 <= i < n :: !OtherOrder(ms[i], name)
    {
      if OtherOrder(ms[n], name) {
        return InvalidArgument, numbers;
      }
      assert ms[..n + 1][..n] == ms[..n] && es[..n + 1] == es[..n] + [es[n]];
      edits := edits + [EditOf(names, catalog, ms[n]).value];
      numbers := Numbers(Or(ms[n].logNumber, numbers.logNumber), Or(ms[n].nextFileNumber, numbers.nextFile),
                         Or(ms[n].lastSequence, numbers.lastSequence));
    }
    assert ms[..|ms|] == ms && es[..|es|] == es;
    if numbers.nextFile.None? || numbers.logNumber.None? || numbers.lastSequence.None? {
      return Corruption, numbers;
    }
    var w := Builder.Replay(EMPTY, edits);
    assert forall l | 0 <= l < NUM_LEVELS :: Builder.FileSet(EMPTY[l]) == {};
    v := Opened(w);
  }

  // ---------- a snapshot and the edits after it ----------

  function Snapshot(v: Levels): Builder.Edit {
    Builder.Edit({}, Builder.SnapshotAdds(v, 0))
  }

  lemma {:induction false} SnapshotValid(v: Levels)
    requires Builder.SortedLevels(v)
    ensures Builder.ValidEdit(Snapshot(v)) && AddsValid(Builder.SnapshotAdds(v, 0))
    ensures forall l | 0 <= l < NUM_LEVELS :: Builder.StepSet({}, Snapshot(v), l) == Builder.FileSet(v[l])
  {
    var e := Snapshot(v);
    forall i | 0 <= i < |e.added| ensures e.added[i].0 < NUM_LEVELS && e.added[i].1.Valid() {
      Builder.SnapshotAddsAre(v, 0, e.added[i].0, e.added[i].1);
      assert (e.added[i].0, e.added[i].1) in e.added;
    }
    forall l | 0 <= l < NUM_LEVELS ensures Builder.StepSet({}, e, l) == Builder.FileSet(v[l]) {
      forall f ensures f in Builder.StepSet({}, e, l) <==> f in Builder.FileSet(v[l]) {
        Builder.SnapshotAddsAre(v, 0, l, f);
        assert f in Builder.AddedAt(e, l) <==> (l, f) in e.added;
      }
    }
  }

  lemma {:induction false} AddsAfter(first: Builder.Edit, es: seq<Builder.Edit>)
    ensures Builder.AllAdds([first] + es) == first.added + Builder.AllAdds(es)
    decreases |es|
  {
    if es == [] {
      OnlyAdds([first], first);
    } else {
      var init, last := es[..|es| - 1], es[|es| - 1];
      AddsAfter(first, init);
      LastAdds([first] + es, [first] + init, last);
    }
  }

  lemma {:induction false} OnlyAdds(all: seq<Builder.Edit>, first: Builder.Edit)
    requires all == [first]
    ensures Builder.AllAdds(all + []) == first.added
  {
    assert all[..0] == [] && all + [] == all;
  }

  lemma {:induction false} LastAdds(all: seq<Builder.Edit>, init: seq<Builder.Edit>, last: Builder.Edit)
    requires all == init + [last]
    ensures Builder.AllAdds(all) == Builder.AllAdds(init) + last.added
  {
    assert all[..|all| - 1] == init;
  }

  lemma {:induction false} RunAfter(first: Builder.Edit, es: seq<Builder.Edit>, l: nat)
    ensures Builder.RunSet({}, [first] + es, l) == Builder.RunSet(Builder.StepSet({}, first, l), es, l)
    decreases |es|
  {
    var all := [first] + es;
    if es == [] {
      assert all[..|all| - 1] == [];
    } else {
      assert all[..|all| - 1] == [first] + es[..|es| - 1];
      RunAfter(first, es[..|es| - 1], l);
    }
  }

  /** No number of the edits after a snapshot is one of a file in it. */
  lemma {:induction false} FreshAfter(v: Levels, es: seq<Builder.Edit>)
    requires Builder.SortedLevels(v) && Builder.DistinctNumbers(v) && Builder.FreshFor(v, Builder.AllAdds(es))
    ensures Builder.FreshFor(EMPTY, Builder.AllAdds([Snapshot(v)] + es))
  {
    var head, tail := Builder.SnapshotAdds(v, 0), Builder.AllAdds(es);
    AddsAfter(Snapshot(v), es);
    Builder.SnapshotAddsDistinct(v, 0);
    forall i, j | 0 <= i < j < |head + tail| ensures !Builder.Clash((head + tail)[i], (head + tail)[j]) {
      if i >= |head| {
        assert !Builder.Clash(tail[i - |head|], tail[j - |head|]);
      } else if j < |head| {
        assert !Builder.Clash(head[i], head[j]);
      } else {
        Builder.SnapshotAddsAre(v, 0, head[i].0, head[i].1);
        assert (head[i].0, head[i].1) in head;
        assert Builder.NoneClash(v, tail[j - |head|]);
      }
    }
  }

  lemma {:induction false} FreshPrefix(v: Levels, es: seq<Builder.Edit>, n: nat)
    requires |v| == NUM_LEVELS && n <= |es| && Builder.FreshFor(v, Builder.AllAdds(es))
    ensures Builder.FreshFor(v, Builder.AllAdds(es[..n]))
  {
    Builder.AddsSplit(es, n);
    Builder.FreshSlice(v, Builder.AllAdds(es), 0, Builder.AllAdds(es[..n]));
  }

  /** A version, the edits that were made to it, and what a manifest of them says besides. */
  datatype History = History(
    names: Names,
    comparator: Bytes,
    pointers: seq<(nat, Bytes)>,
    base: Levels,
    edits: seq<Builder.Edit>,
    stamps: seq<Stamp>)
  {
    /** The version and the edits are those of a running database. */
    ghost predicate Valid() {
      && Builder.SortedLevels(base) && Builder.DistinctNumbers(base) && Builder.FreshFor(base, Builder.AllAdds(edits))
      && |stamps| == |edits| && (forall i | 0 <= i < |edits| :: Builder.ValidEdit(edits[i]))
    }

    /** Every file of the version and of the edits has entries, whose bounds a record can give. */
    predicate FilesValid() {
      && AddsValid(Builder.SnapshotAdds(base, 0)) && |stamps| == |edits|
      && forall i | 0 <= i < |edits| :: AddsValid(edits[i].added)
    }

    predicate FilesOnDisk(catalog: map<nat, File>) {
      OnDisk(catalog, Builder.SnapshotAdds(base, 0)) && forall i | 0 <= i < |edits| :: OnDisk(catalog, edits[i].added)
    }

    /** The records of the manifest: a snapshot, then one for each edit. */
    function Records(): (r: seq<Manifest.Edit>)
      requires Valid()
      ensures |r| == |edits| + 1
    {
      HistoryFiles(this);
      [SnapshotRecord(names, comparator, pointers, base)]
      + seq(|edits|, i requires 0 <= i < |edits| => RecordOf(names, edits[i], stamps[i]))
    }

    /** The numbers recovered from the first `k` records. */
    function NumbersAt(k: nat): Numbers
      requires k <= |stamps| + 1
    {
      if k < 2 then Numbers(None, None, None)
      else Numbers(Some(stamps[k - 2].logNumber), Some(stamps[k - 2].nextFile), Some(stamps[k - 2].lastSequence))
    }
  }

  lemma {:induction false} HistoryFiles(h: History)
    requires h.Valid()
    ensures h.FilesValid()
  {
    SnapshotValid(h.base);
    forall i | 0 <= i < |h.edits| ensures AddsValid(h.edits[i].added) {
      assert Builder.ValidEdit(h.edits[i]);
    }
  }

  /** The first record has none of the numbers, every other one has all of them. */
  lemma {:induction false} NumbersRead(h: History, k: nat)
    requires h.Valid() && k <= |h.edits| + 1
    ensures NumbersOf(h.Records()[..k]) == h.NumbersAt(k)
  {
    var ms := h.Records();
    if k > 0 {
      assert ms[..k][..k - 1] == ms[..k - 1];
      if k < 2 {
        assert ms[..k - 1] == [];
      }
    }
  }

  /** Only the first record names a comparator. */
  lemma {:induction false} OrderRead(h: History, name: Bytes, k: nat)
    requires h.Valid() && k <= |h.edits| + 1
    ensures (exists i | 0 <= i < k :: OtherOrder(h.Records()[..k][i], name)) <==> k > 0 && name != h.comparator
  {
    var ms := h.Records();
    if k > 0 {
      assert ms[..k][0] == ms[0];
      assert OtherOrder(ms[..k][0], name) <==> name != h.comparator;
    }
    assert forall i | 0 < i < k :: !OtherOrder(ms[..k][i], name);
  }

  lemma {:induction false} EditsRead(h: History, catalog: map<nat, File>, i: nat)
    requires h.Valid() && h.FilesOnDisk(catalog) && i <= |h.edits|
    ensures EditOf(h.names, catalog, h.Records()[i]) == Some(([Snapshot(h.base)] + h.edits)[i])
  {
    HistoryFiles(h);
    AddsRead(h.names, catalog, ([Snapshot(h.base)] + h.edits)[i].added);
  }

  /** The edits before the `k`-th record. */
  function Before(h: History, k: nat): seq<Builder.Edit>
    requires k <= |h.edits| + 1
  {
    h.edits[..if k == 0 then 0 else k - 1]
  }

  /** Running: the edits applied one at a time. */
  method RunHistory(h: History, k: nat) returns (running: Levels)
    requires h.Valid() && k <= |h.edits| + 1
    ensures Builder.SortedLevels(running)
    ensures forall l | 0 <= l < NUM_LEVELS :: Builder.FileSet(running[l]) == Builder.RunSet(Builder.FileSet(h.base[l]), Before(h, k), l)
  {
    FreshPrefix(h.base, h.edits, if k == 0 then 0 else k - 1);
    running := Builder.RunEdits(h.base, Before(h, k));
  }

  /** What is replayed carries the snapshot and the edits after it. */
  lemma {:induction false} ReplayedIs(h: History, k: nat, v: Levels, running: Levels)
    requires h.Valid() && 1 <= k <= |h.edits| + 1 && Builder.SortedLevels(v) && Builder.SortedLevels(running)
    requires forall l | 0 <= l < NUM_LEVELS :: Builder.FileSet(running[l]) == Builder.RunSet(Builder.FileSet(h.base[l]), Before(h, k), l)
    requires forall l | 0 <= l < NUM_LEVELS :: Builder.FileSet(v[l]) == Builder.RunSet({}, ([Snapshot(h.base)] + h.edits)[..k], l)
    ensures v == running
  {
    SnapshotValid(h.base);
    assert ([Snapshot(h.base)] + h.edits)[..k] == [Snapshot(h.base)] + Before(h, k);
    forall l | 0 <= l < NUM_LEVELS ensures Builder.FileSet(v[l]) == Builder.FileSet(running[l]) {
      RunAfter(Snapshot(h.base), Before(h, k), l);
    }
    Builder.LevelsDetermined(v, running);
  }

  /** The records that were read can be replayed. */
  lemma {:induction false} Replayable(h: History, catalog: map<nat, File>, k: nat)
    requires h.Valid() && h.FilesOnDisk(catalog) && k <= |h.edits| + 1
    ensures var es := ([Snapshot(h.base)] + h.edits)[..k];
            && Builder.FreshFor(EMPTY, Builder.AllAdds(es))
            && forall i | 0 <= i < k :: EditOf(h.names, catalog, h.Records()[..k][i]) == Some(es[i]) && Builder.ValidEdit(es[i])
  {
    var all := [Snapshot(h.base)] + h.edits;
    SnapshotValid(h.base);
    FreshAfter(h.base, h.edits);
    FreshPrefix(EMPTY, all, k);
    forall i | 0 <= i < k ensures EditOf(h.names, catalog, h.Records()[..k][i]) == Some(all[..k][i]) && Builder.ValidEdit(all[..k][i]) {
      EditsRead(h, catalog, i);
    }
  }

  /** What opening with a comparator of this name finds in the first `k` records. */
  function Finding(h: History, name: Bytes, k: nat, running: Levels): Opened {
    if k > 0 && name != h.comparator then InvalidArgument else if k < 2 then Corruption else Opened(running)
  }

  /** The records of a manifest read up to the `k`-th leave what the running database had then. */
  method RecoverRead(h: History, name: Bytes, catalog: map<nat, File>, read: seq<Manifest.Edit>)
    returns (recovered: Opened, numbers: Numbers, running: Levels)
    requires h.Valid() && h.FilesOnDisk(catalog)
    requires |read| <= |h.edits| + 1 && read == h.Records()[..|read|]
    ensures recovered == Finding(h, name, |read|, running) && (!recovered.InvalidArgument? ==> numbers == h.NumbersAt(|read|))
    ensures Builder.SortedLevels(running)
    ensures forall l | 0 <= l < NUM_LEVELS ::
              Builder.FileSet(running[l]) == Builder.RunSet(Builder.FileSet(h.base[l]), Before(h, |read|), l)
  {
    running := RunHistory(h, |read|);
    NumbersRead(h, |read|);
    OrderRead(h, name, |read|);
    Replayable(h, catalog, |read|);
    recovered, numbers := Recover(h.names, name, catalog, read, ([Snapshot(h.base)] + h.edits)[..|read|]);
    if recovered.Opened? {
      ReplayedIs(h, |read|, recovered.version, running);
    }
  }

  /** Opening after a crash: a manifest that begins with the snapshot of a version and goes on with an
      edit for each LogAndApply, whole or cut at any byte, is read, decoded and replayed into exactly the
      version that applying one at a time the edits wholly in it had given, with the numbers of the
      last of them; without any such edit, or under a comparator of another name, the manifest is
      refused. */
  method Reopen(c: Log.Checksum, verify: bool, h: History, name: Bytes, catalog: map<nat, File>, cut: Option<nat>)
    returns (recovered: Opened, numbers: Numbers, running: Levels, k: nat)
    requires c.Sound() && h.Valid() && h.FilesOnDisk(catalog)
    requires AllFit(h.Records())
    ensures k <= |h.edits| + 1 && (cut.None? ==> k == |h.edits| + 1)
    ensures recovered == Finding(h, name, k, running) && (!recovered.InvalidArgument? ==> numbers == h.NumbersAt(k))
    ensures Builder.SortedLevels(running)
    ensures forall l | 0 <= l < NUM_LEVELS :: Builder.FileSet(running[l]) == Builder.RunSet(Builder.FileSet(h.base[l]), Before(h, k), l)
  {
    var edits;
    edits := ReadBack(c, verify, h.Records(), cut);
    k := |edits|;
    recovered, numbers, running := RecoverRead(h, name, catalog, edits);
  }

  lemma {:induction false} WholeRead(c: Log.Checksum, records: seq<Bytes>, k: nat)
    requires k <= |records| && (k < |records| ==> |Log.Image(c, records, |records|)| < |Log.Image(c, records, k + 1)|)
    ensures k == |records|
  {
    if k < |records| {
      LogReader.ImageGrows(c, records, k + 1, |records|);
    }
  }

  predicate AllFit(ms: seq<Manifest.Edit>) {
    forall i | 0 <= i < |ms| :: Fits(ms[i])
  }

  /** A manifest written, cut and read. */
  method ReadBack(c: Log.Checksum, verify: bool, ms: seq<Manifest.Edit>, cut: Option<nat>) returns (edits: seq<Manifest.Edit>)
    requires c.Sound() && AllFit(ms)
    ensures |edits| <= |ms| && edits == ms[..|edits|] && (cut.None? ==> |edits| == |ms|)
  {
    var file;
    ghost var records;
    file, records := WriteManifest(c, ms);
    var torn := if cut.Some? && cut.value <= |file| then file[..cut.value] else file;
    var read;
    ghost var n;
    read, n := ReadManifest(c, torn, verify, records, ms);
    if torn == file {
      WholeRead(c, records, n);
    }
    edits := read.value;
  }
}
