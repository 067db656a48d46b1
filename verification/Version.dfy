/** Versions of the file tree and point lookups in them (db/version_set.cc, db/db_impl.cc). */
module Version {
  import opened Dbformat

  /** A table file: its number, its size in bytes and the entries it holds. */
  datatype File = File(number: nat, size: nat, entries: seq<Entry>) {
    predicate Valid() {
      && |entries| > 0
      && Ordered(entries)
      && forall i | 0 <= i < |entries| :: entries[i].key.sequence <= MAX_SEQUENCE
    }

    function Smallest(): InternalKey
      requires Valid()
    {
      entries[0].key
    }

    function Largest(): InternalKey
      requires Valid()
    {
      entries[|entries| - 1].key
    }
  }

  /** The files of a level, level 0 first. */
  type Levels = seq<seq<File>>

  predicate ValidFiles(files: seq<File>) {
    forall i | 0 <= i < |files| :: files[i].Valid()
  }

  /** The files of a level above 0: sorted, and no two share an internal key. */
  predicate Disjoint(files: seq<File>) {
    && ValidFiles(files)
    && forall i, j | 0 <= i < j < |files| ::
         Before(files[i].entries[|files[i].entries| - 1], files[j].entries[0])
  }

  ghost function EntriesIn(files: seq<File>): set<Entry> {
    set f, e | f in files && e in f.entries :: e
  }

  /** All entries of the levels from `l` on. */
  ghost function Below(v: Levels, l: nat): set<Entry>
    requires l <= |v|
    decreases |v| - l
  {
    if l == |v| then {} else EntriesIn(v[l]) + Below(v, l + 1)
  }

  /** Every version in `a` of a user key is newer than every version of it in `b`. */
  ghost predicate NewerThan(a: set<Entry>, b: set<Entry>) {
    forall x, y | x in a && y in b && x.key.ukey == y.key.ukey :: x.key.sequence > y.key.sequence
  }

  /** Level-0 files may overlap; a higher number then means newer data. */
  ghost predicate NumberedByAge(files: seq<File>) {
    && ValidFiles(files)
    && (forall i, j | 0 <= i < |files| && 0 <= j < |files| && i != j :: files[i].number != files[j].number)
    && (forall i, j | 0 <= i < |files| && 0 <= j < |files| && files[i].number > files[j].number ::
          NewerThan(Elements(files[i].entries), Elements(files[j].entries)))
  }

  /** The tree invariant reads depend on: lower levels hold newer versions. */
  ghost predicate ValidLevels(v: Levels) {
    && |v| == NUM_LEVELS
    && NumberedByAge(v[0])
    && (forall l | 1 <= l < |v| :: Disjoint(v[l]))
    && (forall l, m | 0 <= l < m < |v| :: NewerThan(EntriesIn(v[l]), EntriesIn(v[m])))
  }

  // ---------- layers ----------

  /** Searching a newer layer first, and the older one only on a miss, is searching both. */
  lemma {:induction false} LayerHit(a: set<Entry>, b: set<Entry>, u: UserKey, snap: nat)
    requires NewerThan(a, b) && Unambiguous(a) && Unambiguous(b)
    ensures Unambiguous(a + b)
    ensures Newest(a + b, u, snap) ==
            if Newest(a, u, snap).Some? then Newest(a, u, snap) else Newest(b, u, snap)
  {
    NewestNone(a, u, snap);
    NewestNone(b, u, snap);
    match Newest(a, u, snap)
    case Some(e) =>
      assert IsNewest(e, a + b, u, snap);
      NewestIs(e, a + b, u, snap);
    case None =>
      match Newest(b, u, snap)
      case Some(e) =>
        assert IsNewest(e, a + b, u, snap);
        NewestIs(e, a + b, u, snap);
      case None =>
        NewestNone(a + b, u, snap);
  }

  lemma {:induction false} EntriesInSplit(f: File, rest: seq<File>)
    ensures EntriesIn([f] + rest) == Elements(f.entries) + EntriesIn(rest)
  {
    assert forall g :: g in [f] + rest <==> g == f || g in rest;
  }

  lemma {:induction false} NewerThanBelow(v: Levels, l: nat, m: nat)
    requires ValidLevels(v) && l < m <= |v|
    ensures NewerThan(EntriesIn(v[l]), Below(v, m))
    decreases |v| - m
  {
    if m < |v| {
      NewerThanBelow(v, l, m + 1);
    }
  }

  lemma {:induction false} DisjointUnambiguous(files: seq<File>)
    requires Disjoint(files)
    ensures Unambiguous(EntriesIn(files))
  {
    forall a, b | a in EntriesIn(files) && b in EntriesIn(files)
                  && a.key.ukey == b.key.ukey && a.key.sequence == b.key.sequence
      ensures a == b
    {
      var i, k := Locate(files, a);
      var j, n := Locate(files, b);
      if i != j {
        DisjointBefore(files, i, k, j, n);
      }
    }
  }

  lemma {:induction false} Locate(files: seq<File>, e: Entry) returns (i: nat, k: nat)
    requires e in EntriesIn(files)
    ensures i < |files| && k < |files[i].entries| && files[i].entries[k] == e
  {
    var f :| f in files && e in f.entries;
    i :| 0 <= i < |files| && files[i] == f;
    k :| 0 <= k < |f.entries| && f.entries[k] == e;
  }

  lemma {:induction false} DisjointBefore(files: seq<File>, i: nat, k: nat, j: nat, n: nat)
    requires Disjoint(files) && i < |files| && j < |files|
    requires k < |files[i].entries| && n < |files[j].entries|
    ensures i < j ==> Before(files[i].entries[k], files[j].entries[n])
    ensures j < i ==> Before(files[j].entries[n], files[i].entries[k])
  {
    var f, g := files[i], files[j];
    assert k < |f.entries| - 1 ==> Before(f.entries[k], f.entries[|f.entries| - 1]);
    assert 0 < n ==> Before(g.entries[0], g.entries[n]);
    assert n < |g.entries| - 1 ==> Before(g.entries[n], g.entries[|g.entries| - 1]);
    assert 0 < k ==> Before(f.entries[0], f.entries[k]);
  }

  lemma {:induction false} NumberedUnambiguous(files: seq<File>)
    requires NumberedByAge(files)
    ensures Unambiguous(EntriesIn(files))
  {
    forall a, b | a in EntriesIn(files) && b in EntriesIn(files)
                  && a.key.ukey == b.key.ukey && a.key.sequence == b.key.sequence
      ensures a == b
    {
      var i, k := Locate(files, a);
      var j, n := Locate(files, b);
      assert a in Elements(files[i].entries) && b in Elements(files[j].entries);
    }
  }

  lemma {:induction false} BelowUnambiguous(v: Levels, l: nat)
    requires ValidLevels(v) && l <= |v|
    ensures Unambiguous(Below(v, l))
    decreases |v| - l
  {
    if l < |v| {
      BelowUnambiguous(v, l + 1);
      if l == 0 { NumberedUnambiguous(v[0]); } else { DisjointUnambiguous(v[l]); }
      NewerThanBelow(v, l, l + 1);
    }
  }

  // ---------- searching one file and one level ----------

  /** Table lookup as the callers see it: seek, then compare the user key found. */
  method FileGet(f: seq<Entry>, u: UserKey, snap: nat) returns (r: Option<Entry>)
    requires Ordered(f)
    ensures r == Newest(Elements(f), u, snap)
  {
    SeekFindsNewest(f, u, snap);
    var i := SeekIndex(f, LookupKey(u, snap));
    if i < |f| && f[i].key.ukey == u {
      r := Some(f[i]);
    } else {
      r := None;
    }
  }

  /** Binary search for the first file whose largest key is not before `key`. */
  method FindFile(files: seq<File>, key: InternalKey) returns (r: nat)
    requires Disjoint(files)
    ensures r <= |files|
    ensures forall i | 0 <= i < r :: Less(files[i].Largest(), key)
    ensures forall i | r <= i < |files| :: !Less(files[i].Largest(), key)
  {
    var left, right := 0, |files|;
    while left < right
      invariant 0 <= left <= right <= |files|
      invariant forall i | 0 <= i < left :: Less(files[i].Largest(), key)
      invariant forall i | right <= i < |files| :: !Less(files[i].Largest(), key)
    {
      var mid := (left + right) / 2;
      forall i | 0 <= i < |files| && i != mid
        ensures i < mid ==> Before(files[i].entries[|files[i].entries| - 1], files[mid].entries[|files[mid].entries| - 1])
        ensures i > mid ==> Before(files[mid].entries[|files[mid].entries| - 1], files[i].entries[|files[i].entries| - 1])
      {
        DisjointBefore(files, i, |files[i].entries| - 1, mid, |files[mid].entries| - 1);
      }
      if Less(files[mid].Largest(), key) {
        left := mid + 1;
      } else {
        right := mid;
      }
    }
    r := right;
  }

  /** One file decides a level: the first whose largest key is at or after the lookup key,
      even when the versions of the user key span two files. */
  lemma {:induction false} LevelLookup(files: seq<File>, u: UserKey, snap: nat, i: nat)
    requires Disjoint(files) && i <= |files|
    requires forall j | 0 <= j < i :: Less(files[j].Largest(), LookupKey(u, snap))
    requires forall j | i <= j < |files| :: !Less(files[j].Largest(), LookupKey(u, snap))
    ensures Newest(EntriesIn(files), u, snap) ==
            if i < |files| && files[i].Smallest().ukey <= u
            then Newest(Elements(files[i].entries), u, snap) else None
  {
    var all := EntriesIn(files);
    DisjointUnambiguous(files);
    NewestNone(all, u, snap);
    forall e | e in all && Visible(e, u, snap)
      ensures i < |files| && files[i].Smallest().ukey <= u
      ensures SeekIndex(files[i].entries, LookupKey(u, snap)) < |files[i].entries|
      ensures var d := files[i].entries[SeekIndex(files[i].entries, LookupKey(u, snap))];
              IsNewest(d, Elements(files[i].entries), u, snap) && e.key.sequence <= d.key.sequence
    {
      LevelHit(files, u, snap, i, e);
    }
    if i < |files| && files[i].Smallest().ukey <= u {
      NewestNone(Elements(files[i].entries), u, snap);
      SeekFindsNewest(files[i].entries, u, snap);
      match Newest(Elements(files[i].entries), u, snap)
      case None =>
        assert forall e | e in all :: !Visible(e, u, snap);
      case Some(d) =>
        assert IsNewest(d, all, u, snap);
        NewestIs(d, all, u, snap);
    }
  }

  lemma {:induction false} LevelHit(files: seq<File>, u: UserKey, snap: nat, i: nat, e: Entry)
    requires Disjoint(files) && i <= |files|
    requires forall j | 0 <= j < i :: Less(files[j].Largest(), LookupKey(u, snap))
    requires forall j | i <= j < |files| :: !Less(files[j].Largest(), LookupKey(u, snap))
    requires e in EntriesIn(files) && Visible(e, u, snap)
    ensures i < |files| && files[i].Smallest().ukey <= u
    ensures SeekIndex(files[i].entries, LookupKey(u, snap)) < |files[i].entries|
    ensures var d := files[i].entries[SeekIndex(files[i].entries, LookupKey(u, snap))];
            IsNewest(d, Elements(files[i].entries), u, snap) && e.key.sequence <= d.key.sequence
  {
    var j, k := Locate(files, e);
    FileReaches(files[j], k, LookupKey(u, snap));
    SeekLands(files[i], LookupKey(u, snap));
    var s := SeekIndex(files[i].entries, LookupKey(u, snap));
    var d := files[i].entries[s];
    if i < j {
      DisjointBefore(files, i, s, j, k);
    } else {
      assert s <= k && (s == k || Before(d, e));
    }
    SeekFindsNewest(files[i].entries, u, snap);
    NewestIs(d, Elements(files[i].entries), u, snap);
  }

  lemma {:induction false} FileReaches(f: File, k: nat, key: InternalKey)
    requires f.Valid() && k < |f.entries| && !Less(f.entries[k].key, key)
    ensures !Less(f.Largest(), key)
  {
    var last := |f.entries| - 1;
    assert k < last ==> Before(f.entries[k], f.entries[last]);
  }

  lemma {:induction false} SeekLands(f: File, key: InternalKey)
    requires f.Valid() && !Less(f.Largest(), key)
    ensures var s := SeekIndex(f.entries, key);
            s < |f.entries| && f.Smallest().ukey <= f.entries[s].key.ukey
  {
    var s := SeekIndex(f.entries, key);
    assert !Less(f.entries[|f.entries| - 1].key, key);
    assert 0 < s ==> Before(f.entries[0], f.entries[s]);
  }

  // ---------- level 0 ----------

  predicate NewestFirst(files: seq<File>) {
    forall i, j | 0 <= i < j < |files| :: files[i].number > files[j].number
  }

  /** Insertion sort by descending file number, standing for std::sort with NewestFirst. */
  method SortNewestFirst(files: seq<File>) returns (r: seq<File>)
    requires forall i, j | 0 <= i < j < |files| :: files[i].number != files[j].number
    ensures NewestFirst(r) && multiset(r) == multiset(files)
  {
    r := [];
    for n := 0 to |files|
      invariant NewestFirst(r) && multiset(r) == multiset(files[..n])
    {
      assert files[..n + 1] == files[..n] + [files[n]];
      forall i | 0 <= i < |r| ensures r[i].number != files[n].number {
        assert r[i] in multiset(files[..n]);
      }
      r := InsertByNumber(r, files[n]);
    }
    assert files[..|files|] == files;
  }

  lemma {:induction false} OldestLast(files: seq<File>)
    requires NewestFirst(files) && files != []
    ensures NewestFirst(files[1..]) && multiset(files) == multiset{files[0]} + multiset(files[1..])
    ensures forall i | 0 <= i < |files| - 1 :: files[1..][i].number < files[0].number
  {
    assert files == [files[0]] + files[1..];
  }

  function InsertByNumber(files: seq<File>, f: File): (r: seq<File>)
    requires NewestFirst(files) && forall i | 0 <= i < |files| :: files[i].number != f.number
    ensures NewestFirst(r) && multiset(r) == multiset(files) + multiset{f}
    ensures forall i | 0 <= i < |r| :: r[i] == f || r[i] in files
  {
    if files == [] || files[0].number < f.number then
      [f] + files
    else
      OldestLast(files);
      [files[0]] + InsertByNumber(files[1..], f)
  }

  predicate Overlaps(f: File, u: UserKey)
    requires f.Valid()
  {
    f.Smallest().ukey <= u <= f.Largest().ukey
  }

  /** A file whose user-key range misses `u` holds no version of it. */
  lemma {:induction false} NoOverlapNoEntry(f: File, u: UserKey)
    requires f.Valid() && !Overlaps(f, u)
    ensures forall e | e in f.entries :: e.key.ukey != u
  {
    forall e | e in f.entries ensures e.key.ukey != u {
      var k :| 0 <= k < |f.entries| && f.entries[k] == e;
      assert 0 < k ==> Before(f.entries[0], e);
      assert k < |f.entries| - 1 ==> Before(e, f.entries[|f.entries| - 1]);
    }
  }

  /** Sets that agree on the versions of `u` answer reads of `u` alike. */
  lemma {:induction false} SameVersions(a: set<Entry>, b: set<Entry>, u: UserKey, snap: nat)
    requires Unambiguous(a) && Unambiguous(b)
    requires forall e: Entry | e.key.ukey == u :: e in a <==> e in b
    ensures Newest(a, u, snap) == Newest(b, u, snap)
  {
    NewestNone(a, u, snap);
    NewestNone(b, u, snap);
    if e :| IsNewest(e, a, u, snap) {
      assert IsNewest(e, b, u, snap);
      NewestIs(e, a, u, snap);
      NewestIs(e, b, u, snap);
    }
  }

  /** The level-0 files whose range covers the key, in their own order. */
  method CollectOverlapping(files: seq<File>, u: UserKey) returns (tmp: seq<File>)
    requires NumberedByAge(files)
    ensures NumberedByAge(tmp)
    ensures forall f | f in tmp :: f in files
    ensures forall f | f in files && Overlaps(f, u) :: f in tmp
  {
    tmp := [];
    for i := 0 to |files|
      invariant forall f | f in tmp :: f in files[..i]
      invariant forall j | 0 <= j < i && Overlaps(files[j], u) :: files[j] in tmp
      invariant NumberedByAge(tmp)
    {
      if Overlaps(files[i], u) {
        AppendNumbered(files, i, tmp);
        tmp := tmp + [files[i]];
      }
    }
  }

  /** Level 0 of Version::Get: the overlapping files, newest first, until one has the key. */
  method Level0Get(files: seq<File>, u: UserKey, snap: nat) returns (r: Option<Entry>)
    requires NumberedByAge(files)
    ensures r == Newest(EntriesIn(files), u, snap)
  {
    var tmp := CollectOverlapping(files, u);
    var sorted := SortNewestFirst(tmp);
    SortedNumbered(tmp, sorted);
    forall f: File ensures f in sorted <==> f in tmp {
      assert f in multiset(sorted) <==> f in multiset(tmp);
    }
    Level0Relevant(files, sorted, u, snap);
    assert sorted[0..] == sorted;
    for i := 0 to |sorted|
      invariant Newest(EntriesIn(sorted[i..]), u, snap) == Newest(EntriesIn(files), u, snap)
    {
      r := FileGet(sorted[i].entries, u, snap);
      Level0Step(sorted, i, u, snap);
      if r.Some? {
        return;
      }
    }
    NewestNone(EntriesIn(sorted[|sorted|..]), u, snap);
    r := None;
  }

  /** The level-0 files whose range misses the key do not matter. */
  lemma {:induction false} Level0Relevant(files: seq<File>, chosen: seq<File>, u: UserKey, snap: nat)
    requires NumberedByAge(files) && NumberedByAge(chosen)
    requires forall f | f in chosen :: f in files
    requires forall f | f in files && Overlaps(f, u) :: f in chosen
    ensures Newest(EntriesIn(chosen), u, snap) == Newest(EntriesIn(files), u, snap)
  {
    NumberedUnambiguous(files);
    NumberedUnambiguous(chosen);
    forall e: Entry | e.key.ukey == u && e in EntriesIn(files) ensures e in EntriesIn(chosen) {
      var j, k := Locate(files, e);
      if !Overlaps(files[j], u) { NoOverlapNoEntry(files[j], u); }
    }
    SameVersions(EntriesIn(files), EntriesIn(chosen), u, snap);
  }

  lemma {:induction false} AppendNumbered(files: seq<File>, i: nat, tmp: seq<File>)
    requires NumberedByAge(files) && i < |files| && NumberedByAge(tmp)
    requires forall f | f in tmp :: f in files[..i]
    ensures NumberedByAge(tmp + [files[i]])
  {
    var t := tmp + [files[i]];
    forall a | 0 <= a < |tmp|
      ensures t[a].number != files[i].number
      ensures t[a].number > files[i].number ==> NewerThan(Elements(t[a].entries), Elements(files[i].entries))
      ensures t[a].number < files[i].number ==> NewerThan(Elements(files[i].entries), Elements(t[a].entries))
    {
      assert tmp[a] in tmp;
      var j :| 0 <= j < i && files[j] == tmp[a];
    }
  }

  lemma {:induction false} SortedNumbered(tmp: seq<File>, sorted: seq<File>)
    requires NumberedByAge(tmp) && NewestFirst(sorted) && multiset(sorted) == multiset(tmp)
    ensures NumberedByAge(sorted)
  {
    forall i | 0 <= i < |sorted| ensures sorted[i] in tmp {
      assert sorted[i] in multiset(tmp);
    }
  }

  lemma {:induction false} Level0Step(sorted: seq<File>, i: nat, u: UserKey, snap: nat)
    requires NumberedByAge(sorted) && NewestFirst(sorted) && i < |sorted|
    ensures Newest(EntriesIn(sorted[i..]), u, snap) ==
            var r := Newest(Elements(sorted[i].entries), u, snap);
            if r.Some? then r else Newest(EntriesIn(sorted[i + 1..]), u, snap)
  {
    var f, rest := sorted[i], sorted[i + 1..];
    assert sorted[i..] == [f] + rest;
    EntriesInSplit(f, rest);
    SeekFindsNewest(f.entries, u, snap);
    assert NumberedByAge(rest);
    NumberedUnambiguous(rest);
    assert NewerThan(Elements(f.entries), EntriesIn(rest));
    LayerHit(Elements(f.entries), EntriesIn(rest), u, snap);
  }

  // ---------- the whole tree ----------

  /** Version::Get: level 0 newest file first, then one binary-searched file per level. */
  method Get(v: Levels, u: UserKey, snap: nat) returns (r: Option<Entry>)
    requires ValidLevels(v)
    ensures r == Newest(Below(v, 0), u, snap)
  {
    r := Level0Get(v[0], u, snap);
    LevelStep(v, 0, u, snap);
    if r.Some? {
      return;
    }
    for level := 1 to NUM_LEVELS
      invariant Newest(Below(v, level), u, snap) == Newest(Below(v, 0), u, snap)
    {
      LevelStep(v, level, u, snap);
      var index := FindFile(v[level], LookupKey(u, snap));
      LevelLookup(v[level], u, snap, index);
      if index < |v[level]| && v[level][index].Smallest().ukey <= u {
        r := FileGet(v[level][index].entries, u, snap);
        if r.Some? {
          return;
        }
      }
    }
    NewestNone({}, u, snap);
    r := None;
  }

  lemma {:induction false} LevelStep(v: Levels, l: nat, u: UserKey, snap: nat)
    requires ValidLevels(v) && l < |v|
    ensures Newest(Below(v, l), u, snap) ==
            var r := Newest(EntriesIn(v[l]), u, snap);
            if r.Some? then r else Newest(Below(v, l + 1), u, snap)
  {
    if l == 0 { NumberedUnambiguous(v[0]); } else { DisjointUnambiguous(v[l]); }
    BelowUnambiguous(v, l + 1);
    NewerThanBelow(v, l, l + 1);
    LayerHit(EntriesIn(v[l]), Below(v, l + 1), u, snap);
  }

  /** Everything the database holds. */
  ghost function Contents(mem: seq<Entry>, imm: seq<Entry>, v: Levels): set<Entry>
    requires |v| == NUM_LEVELS
  {
    Elements(mem) + (Elements(imm) + Below(v, 0))
  }

  /** The recency order of the layers a read goes through. */
  ghost predicate ValidLayers(mem: seq<Entry>, imm: seq<Entry>, v: Levels) {
    && ValidLevels(v) && Ordered(mem) && Ordered(imm)
    && NewerThan(Elements(imm), Below(v, 0))
    && NewerThan(Elements(mem), Elements(imm) + Below(v, 0))
  }

  /** DBImpl::Get: the memtable, the immutable memtable, then the current version. A missing
      immutable memtable is an empty one. */
  method DBGet(mem: seq<Entry>, imm: seq<Entry>, v: Levels, u: UserKey, snap: nat) returns (r: Option<Bytes>)
    requires ValidLayers(mem, imm, v)
    ensures r == Read(Contents(mem, imm, v), u, snap)
  {
    BelowUnambiguous(v, 0);
    SeekFindsNewest(mem, u, snap);
    SeekFindsNewest(imm, u, snap);
    LayerHit(Elements(imm), Below(v, 0), u, snap);
    LayerHit(Elements(mem), Elements(imm) + Below(v, 0), u, snap);
    var e := FileGet(mem, u, snap);
    if e.None? {
      e := FileGet(imm, u, snap);
      if e.None? {
        e := Get(v, u, snap);
      }
    }
    r := ValueOf(e);
  }
}
