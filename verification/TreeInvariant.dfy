/** Version edits keep the file tree fit for lookups (db/db_impl.cc, db/version_set.cc). */
module TreeInvariant {
  import opened Dbformat
  import opened Version
  import opened VersionBuilder
  import opened CompactionInputs
  import opened CompactionCuts
  import opened Compaction
  import opened CompactionEffect

  // ---------- levels as sets of separated files ----------

  ghost predicate Apart(f: File, g: File) {
    AllBefore(Elements(f.entries), Elements(g.entries)) || AllBefore(Elements(g.entries), Elements(f.entries))
  }

  /** Sorted files that lie apart from each other are disjoint in order. */
  lemma {:induction false} ApartIsDisjoint(files: seq<File>)
    requires SortedFiles(files)
    requires forall i, j | 0 <= i < j < |files| :: Apart(files[i], files[j])
    ensures Disjoint(files)
  {
    forall i, j | 0 <= i < j < |files|
      ensures Before(files[i].entries[|files[i].entries| - 1], files[j].entries[0])
    {
      assert Apart(files[i], files[j]) && FileLess(files[i], files[j]);
      ApartInOrder(files[i], files[j]);
    }
  }

  lemma {:induction false} ApartInOrder(f: File, g: File)
    requires f.Valid() && g.Valid() && Apart(f, g) && FileLess(f, g)
    ensures Before(f.entries[|f.entries| - 1], g.entries[0])
  {
    assert f.entries[0] in Elements(f.entries) && g.entries[0] in Elements(g.entries);
    assert f.entries[|f.entries| - 1] in Elements(f.entries);
  }

  lemma {:induction false} DisjointApart(files: seq<File>, f: File, g: File)
    requires Disjoint(files) && f in files && g in files && f != g
    ensures Apart(f, g)
  {
    var i :| 0 <= i < |files| && files[i] == f;
    var j :| 0 <= j < |files| && files[j] == g;
    forall x, y | x in Elements(f.entries) && y in Elements(g.entries)
      ensures if i < j then Before(x, y) else Before(y, x)
    {
      var k :| 0 <= k < |f.entries| && f.entries[k] == x;
      var n :| 0 <= n < |g.entries| && g.entries[n] == y;
      DisjointBefore(files, i, k, j, n);
    }
    if i < j {
      assert AllBefore(Elements(f.entries), Elements(g.entries));
    } else {
      assert AllBefore(Elements(g.entries), Elements(f.entries));
    }
  }

  /** A sorted selection from a disjoint level is disjoint. */
  lemma {:induction false} SubsetDisjoint(files: seq<File>, sub: seq<File>)
    requires Disjoint(files) && SortedFiles(sub) && forall f | f in sub :: f in files
    ensures Disjoint(sub)
  {
    forall i, j | 0 <= i < j < |sub| ensures Apart(sub[i], sub[j]) {
      assert FileLess(sub[i], sub[j]) && sub[i] in files && sub[j] in files;
      DisjointApart(files, sub[i], sub[j]);
    }
    ApartIsDisjoint(sub);
  }

  lemma {:induction false} SubsetNumbered(files: seq<File>, sub: seq<File>)
    requires NumberedByAge(files) && SortedFiles(sub) && forall f | f in sub :: f in files
    ensures NumberedByAge(sub)
  {
    forall i, j | 0 <= i < |sub| && 0 <= j < |sub| && i != j
      ensures sub[i].number != sub[j].number
      ensures sub[i].number > sub[j].number ==> NewerThan(Elements(sub[i].entries), Elements(sub[j].entries))
    {
      assert sub[i] in files && sub[j] in files;
      assert sub[i] != sub[j] by {
        assert i < j ==> FileLess(sub[i], sub[j]);
        assert j < i ==> FileLess(sub[j], sub[i]);
      }
      var a :| 0 <= a < |files| && files[a] == sub[i];
      var b :| 0 <= b < |files| && files[b] == sub[j];
    }
  }

  // ---------- output tables ----------

  /** Tables cut from one ordered stream of input entries. */
  ghost predicate CutFrom(outs: seq<File>, input: seq<Entry>) {
    && (forall i | 0 <= i < |outs| :: outs[i].entries != [])
    && Ordered(Concat(Tables(outs)))
    && forall e | e in Concat(Tables(outs)) :: e in input
  }

  lemma {:induction false} CutPrefix(outs: seq<File>, n: nat)
    requires n < |outs| && Ordered(Concat(Tables(outs)[..n + 1]))
    ensures var c := Concat(Tables(outs)[..n]);
            Ordered(c) && Ordered(outs[n].entries) && AllBefore(Elements(c), Elements(outs[n].entries))
    ensures Concat(Tables(outs)[..n + 1]) == Concat(Tables(outs)[..n]) + outs[n].entries
  {
    assert Tables(outs)[..n + 1][..n] == Tables(outs)[..n];
    var c, d := Concat(Tables(outs)[..n]), Concat(Tables(outs)[..n + 1]);
    assert d == c + outs[n].entries;
    assert forall k | 0 <= k < |c| :: c[k] == d[k];
    assert forall k | 0 <= k < |outs[n].entries| :: outs[n].entries[k] == d[|c| + k];
  }

  /** The tables are ordered, and earlier ones lie wholly before later ones. */
  lemma {:induction false} CutOrder(outs: seq<File>, n: nat)
    requires n <= |outs| && Ordered(Concat(Tables(outs)[..n]))
    ensures forall i | 0 <= i < n :: Ordered(outs[i].entries)
    ensures forall i, j | 0 <= i < j < n :: AllBefore(Elements(outs[i].entries), Elements(outs[j].entries))
  {
    if n > 0 {
      CutPrefix(outs, n - 1);
      CutOrder(outs, n - 1);
      forall i | 0 <= i < n - 1 ensures AllBefore(Elements(outs[i].entries), Elements(outs[n - 1].entries)) {
        forall x | x in Elements(outs[i].entries) ensures x in Elements(Concat(Tables(outs)[..n - 1])) {
          ConcatIn(outs, n - 1, x);
        }
      }
    }
  }

  lemma {:induction false} CutFiles(outs: seq<File>, input: seq<Entry>)
    requires CutFrom(outs, input) && forall e | e in input :: e.key.sequence <= MAX_SEQUENCE
    ensures ValidFiles(outs)
    ensures forall i, j | 0 <= i < j < |outs| :: Apart(outs[i], outs[j])
    ensures EntriesIn(outs) <= Elements(input)
  {
    assert Tables(outs)[..|outs|] == Tables(outs);
    CutOrder(outs, |outs|);
    forall i, e | 0 <= i < |outs| && e in outs[i].entries ensures e in input {
      ConcatIn(outs, |outs|, e);
    }
    forall e | e in EntriesIn(outs) ensures e in Elements(input) {
      var i, k := Locate(outs, e);
    }
  }

  lemma {:induction false} WrittenIsCut(v: Levels, level: nat, input: seq<Entry>, smallest: nat, outs: seq<File>)
    requires ValidLevels(v) && Ordered(input) && Written(v, level, input, smallest, outs)
    ensures CutFrom(outs, input)
  {
    SurvivorsAre(v, level + 2, input, |input|, smallest);
  }

  lemma {:induction false} InputBounded(v: Levels, level: nat, in0: seq<File>, in1: seq<File>, input: seq<Entry>)
    requires Ready(v, level, in0, in1, input)
    ensures forall e | e in input :: e.key.sequence <= MAX_SEQUENCE
  {
    forall e | e in input ensures e.key.sequence <= MAX_SEQUENCE {
      var i :| 0 <= i < |input| && input[i] == e;
      var l, f := InputHome(v, level, in0, in1, input, i);
      var a :| 0 <= a < |v[l]| && v[l][a] == f;
      assert FileAt(v, l, a).Valid();
      var k :| 0 <= k < |f.entries| && f.entries[k] == e;
    }
  }

  // ---------- installing a compaction ----------

  lemma {:induction false} NextLevelApart(v: Levels, level: nat, in0: seq<File>, in1: seq<File>, input: seq<Entry>,
                                          outs: seq<File>, w: Levels, f: File, g: File)
    requires Ready(v, level, in0, in1, input) && Chosen(v, level, in0, in1)
    requires CutFrom(outs, input) && Installed(v, level, in0, in1, outs, w)
    requires f in w[level + 1] && g in w[level + 1] && f != g
    ensures Apart(f, g)
  {
    InputBounded(v, level, in0, in1, input);
    CutFiles(outs, input);
    if f in outs && g in outs {
      var i :| 0 <= i < |outs| && outs[i] == f;
      var j :| 0 <= j < |outs| && outs[j] == g;
      assert i < j ==> Apart(outs[i], outs[j]);
      assert j < i ==> Apart(outs[j], outs[i]);
    } else if f in outs {
      KeptApart(v, level, in0, in1, input, outs, f, g);
    } else if g in outs {
      KeptApart(v, level, in0, in1, input, outs, g, f);
    } else {
      DisjointApart(v[level + 1], f, g);
    }
  }

  lemma {:induction false} KeptApart(v: Levels, level: nat, in0: seq<File>, in1: seq<File>, input: seq<Entry>,
                                     outs: seq<File>, f: File, g: File)
    requires Ready(v, level, in0, in1, input) && Chosen(v, level, in0, in1)
    requires EntriesIn(outs) <= Elements(input) && f in outs && g in v[level + 1] && g !in in1
    ensures Apart(f, g)
  {
    NextLevelAround(v, level, in0, in1, g);
    assert Elements(f.entries) <= EntriesIn(outs);
    if AllBefore(Elements(g.entries), EntriesIn(in0) + EntriesIn(in1)) {
      assert AllBefore(Elements(g.entries), Elements(f.entries));
    } else {
      assert AllBefore(Elements(f.entries), Elements(g.entries));
    }
  }

  ghost predicate AllApart(files: seq<File>) {
    forall f, g {:trigger Apart(f, g)} | f in files && g in files && f != g :: Apart(f, g)
  }

  lemma {:induction false} OutputLevelApart(v: Levels, level: nat, in0: seq<File>, in1: seq<File>, input: seq<Entry>,
                                            outs: seq<File>, w: Levels)
    requires Ready(v, level, in0, in1, input) && Chosen(v, level, in0, in1)
    requires CutFrom(outs, input) && Installed(v, level, in0, in1, outs, w)
    ensures AllApart(w[level + 1])
  {
    forall f, g | f in w[level + 1] && g in w[level + 1] && f != g ensures Apart(f, g) {
      NextLevelApart(v, level, in0, in1, input, outs, w, f, g);
    }
  }

  lemma {:induction false} SortedApart(files: seq<File>)
    requires SortedFiles(files) && AllApart(files)
    ensures Disjoint(files)
  {
    forall i, j | 0 <= i < j < |files| ensures Apart(files[i], files[j]) {
      assert FileLess(files[i], files[j]);
    }
    ApartIsDisjoint(files);
  }

  lemma {:induction false} OtherLevelDisjoint(v: Levels, level: nat, in0: seq<File>, in1: seq<File>,
                                              outs: seq<File>, w: Levels, l: nat, files: seq<File>)
    requires |v| == NUM_LEVELS && level + 1 < NUM_LEVELS && Installed(v, level, in0, in1, outs, w)
    requires 1 <= l < NUM_LEVELS && l != level + 1 && Disjoint(v[l]) && files == w[l] && SortedFiles(files)
    ensures Disjoint(files)
  {
    assert forall f | f in files :: f in v[l];
    SubsetDisjoint(v[l], files);
  }

  /** Where an entry of the new tree was before. */
  lemma {:induction false} Origin(v: Levels, level: nat, in0: seq<File>, in1: seq<File>, input: seq<Entry>,
                                  outs: seq<File>, w: Levels, l: nat, e: Entry) returns (f: File)
    requires Ready(v, level, in0, in1, input) && EntriesIn(outs) <= Elements(input)
    requires Installed(v, level, in0, in1, outs, w) && l < NUM_LEVELS && e in EntriesIn(w[l])
    ensures f in w[l] && e in f.entries
    ensures e in EntriesIn(v[l]) || (l == level + 1 && e in EntriesIn(in0) && e in EntriesIn(v[level]))
    ensures l == level ==> f in v[level] && f !in in0
  {
    f :| f in w[l] && e in f.entries;
    if l == level + 1 && f in outs {
      assert e in EntriesIn(outs);
      assert e in EntriesIn(in0) || e in EntriesIn(in1);
    } else {
      assert f in v[l];
    }
  }

  lemma {:induction false} RecencyKept(v: Levels, level: nat, in0: seq<File>, in1: seq<File>, input: seq<Entry>,
                                       outs: seq<File>, w: Levels, l: nat, m: nat)
    requires Ready(v, level, in0, in1, input) && Chosen(v, level, in0, in1) && EntriesIn(outs) <= Elements(input)
    requires Installed(v, level, in0, in1, outs, w) && l < m < NUM_LEVELS
    ensures NewerThan(EntriesIn(w[l]), EntriesIn(w[m]))
  {
    forall x, y | x in EntriesIn(w[l]) && y in EntriesIn(w[m]) && x.key.ukey == y.key.ukey
      ensures x.key.sequence > y.key.sequence
    {
      var f := Origin(v, level, in0, in1, input, outs, w, l, x);
      var g := Origin(v, level, in0, in1, input, outs, w, m, y);
      RecencyOf(v, level, in0, in1, l, m, x, y, f);
    }
  }

  lemma {:induction false} RecencyOf(v: Levels, level: nat, in0: seq<File>, in1: seq<File>, l: nat, m: nat,
                                     x: Entry, y: Entry, f: File)
    requires ValidLevels(v) && level + 1 < NUM_LEVELS && Chosen(v, level, in0, in1) && l < m < NUM_LEVELS
    requires x in EntriesIn(v[l]) || (l == level + 1 && x in EntriesIn(v[level]))
    requires y in EntriesIn(v[m]) || (m == level + 1 && y in EntriesIn(in0) && y in EntriesIn(v[level]))
    requires x in f.entries && (l == level ==> f in v[level] && f !in in0)
    ensures x.key.ukey == y.key.ukey ==> x.key.sequence > y.key.sequence
  {
    var lx := if x in EntriesIn(v[l]) then l else level;
    if y in EntriesIn(v[m]) {
      assert NewerThan(EntriesIn(v[lx]), EntriesIn(v[m]));
    } else if l < level {
      assert NewerThan(EntriesIn(v[l]), EntriesIn(v[level]));
    } else {
      LeftBehindIsNewer(v, level, in0, f);
      assert x in Elements(f.entries);
    }
  }

  /** A compaction or a move keeps the tree fit for lookups. */
  lemma {:induction false} InstallKeepsLevels(v: Levels, level: nat, in0: seq<File>, in1: seq<File>, input: seq<Entry>,
                                              outs: seq<File>, w: Levels)
    requires Ready(v, level, in0, in1, input) && Chosen(v, level, in0, in1)
    requires CutFrom(outs, input) && Installed(v, level, in0, in1, outs, w) && SortedLevels(w)
    ensures ValidLevels(w)
  {
    AllDisjoint(v, level, in0, in1, input, outs, w);
    AllRecencyKept(v, level, in0, in1, input, outs, w);
    Level0Kept(v, level, in0, in1, outs, w);
  }

  lemma {:induction false} AllDisjoint(v: Levels, level: nat, in0: seq<File>, in1: seq<File>, input: seq<Entry>,
                                       outs: seq<File>, w: Levels)
    requires Ready(v, level, in0, in1, input) && Chosen(v, level, in0, in1)
    requires CutFrom(outs, input) && Installed(v, level, in0, in1, outs, w) && SortedLevels(w)
    ensures forall l | 1 <= l < NUM_LEVELS :: Disjoint(w[l])
  {
    OutputLevelApart(v, level, in0, in1, input, outs, w);
    LevelsDisjoint(v, level, in0, in1, outs, w);
  }

  lemma {:induction false} LevelsDisjoint(v: Levels, level: nat, in0: seq<File>, in1: seq<File>, outs: seq<File>, w: Levels)
    requires |v| == NUM_LEVELS && level + 1 < NUM_LEVELS && Installed(v, level, in0, in1, outs, w) && SortedLevels(w)
    requires AllApart(w[level + 1]) && forall l | 1 <= l < NUM_LEVELS :: Disjoint(v[l])
    ensures forall l | 1 <= l < NUM_LEVELS :: Disjoint(w[l])
  {
    forall l | 1 <= l < NUM_LEVELS ensures Disjoint(w[l]) {
      if l == level + 1 {
        SortedApart(w[l]);
      } else {
        OtherLevelDisjoint(v, level, in0, in1, outs, w, l, w[l]);
      }
    }
  }

  lemma {:induction false} AllRecencyKept(v: Levels, level: nat, in0: seq<File>, in1: seq<File>, input: seq<Entry>,
                                          outs: seq<File>, w: Levels)
    requires Ready(v, level, in0, in1, input) && Chosen(v, level, in0, in1)
    requires CutFrom(outs, input) && Installed(v, level, in0, in1, outs, w)
    ensures forall l, m | 0 <= l < m < NUM_LEVELS :: NewerThan(EntriesIn(w[l]), EntriesIn(w[m]))
  {
    InputBounded(v, level, in0, in1, input);
    CutFiles(outs, input);
    forall l, m | 0 <= l < m < NUM_LEVELS ensures NewerThan(EntriesIn(w[l]), EntriesIn(w[m])) {
      RecencyKept(v, level, in0, in1, input, outs, w, l, m);
    }
  }

  lemma {:induction false} Level0Kept(v: Levels, level: nat, in0: seq<File>, in1: seq<File>, outs: seq<File>, w: Levels)
    requires ValidLevels(v) && level + 1 < NUM_LEVELS && Installed(v, level, in0, in1, outs, w) && SortedFiles(w[0])
    ensures NumberedByAge(w[0])
  {
    assert forall f | f in w[0] :: f in v[0];
    SubsetNumbered(v[0], w[0]);
  }

  // ---------- flushing a memtable ----------

  /** `w` is `v` with one more file on level `p`. */
  ghost predicate Added(v: Levels, p: nat, f: File, w: Levels)
    requires |v| == NUM_LEVELS && p < NUM_LEVELS
  {
    && |w| == NUM_LEVELS
    && (forall g :: g in w[p] <==> g in v[p] || g == f)
    && forall l | 0 <= l < NUM_LEVELS && l != p :: forall g :: g in w[l] <==> g in v[l]
  }

  ghost predicate NoOverlapUpTo(v: Levels, p: nat, f: File)
    requires |v| == NUM_LEVELS && p < NUM_LEVELS && f.Valid()
  {
    forall l, i | 0 <= l <= p && 0 <= i < |v[l]| && v[l][i].Valid() ::
      !InRange(v[l][i], Some(f.Smallest().ukey), Some(f.Largest().ukey))
  }

  lemma {:induction false} OutOfRange(f: File, g: File)
    requires f.Valid() && g.Valid() && !InRange(g, Some(f.Smallest().ukey), Some(f.Largest().ukey))
    ensures Apart(f, g)
    ensures forall x, y | x in f.entries && y in g.entries :: x.key.ukey != y.key.ukey
  {
    forall x, y | x in f.entries && y in g.entries
      ensures if g.Largest().ukey < f.Smallest().ukey then y.key.ukey < x.key.ukey else x.key.ukey < y.key.ukey
    {
      UserRange(f, x);
      UserRange(g, y);
    }
    if g.Largest().ukey < f.Smallest().ukey {
      assert AllBefore(Elements(g.entries), Elements(f.entries));
    } else {
      assert AllBefore(Elements(f.entries), Elements(g.entries));
    }
  }

  lemma {:induction false} AddDisjoint(files: seq<File>, f: File, sub: seq<File>)
    requires Disjoint(files) && f.Valid() && SortedFiles(sub)
    requires forall g | g in sub :: g in files || g == f
    requires forall g | g in files :: Apart(g, f)
    ensures Disjoint(sub)
  {
    forall i, j | 0 <= i < j < |sub| ensures Apart(sub[i], sub[j]) {
      assert FileLess(sub[i], sub[j]) && sub[i] in sub && sub[j] in sub;
      if sub[i] in files && sub[j] in files {
        DisjointApart(files, sub[i], sub[j]);
      }
    }
    ApartIsDisjoint(sub);
  }

  lemma {:induction false} AddNumbered(files: seq<File>, f: File, sub: seq<File>)
    requires NumberedByAge(files) && f.Valid() && SortedFiles(sub)
    requires forall g | g in sub :: g in files || g == f
    requires forall g | g in files :: g.number < f.number
    requires NewerThan(Elements(f.entries), EntriesIn(files))
    ensures NumberedByAge(sub)
  {
    forall i, j | 0 <= i < |sub| && 0 <= j < |sub| && i != j
      ensures sub[i].number != sub[j].number
      ensures sub[i].number > sub[j].number ==> NewerThan(Elements(sub[i].entries), Elements(sub[j].entries))
    {
      assert sub[i] != sub[j] by {
        assert i < j ==> FileLess(sub[i], sub[j]);
        assert j < i ==> FileLess(sub[j], sub[i]);
      }
      assert sub[i] in sub && sub[j] in sub;
      if sub[i] == f {
        assert forall e | e in sub[j].entries :: e in EntriesIn(files);
      } else if sub[j] != f {
        var a :| 0 <= a < |files| && files[a] == sub[i];
        var b :| 0 <= b < |files| && files[b] == sub[j];
      }
    }
  }

  lemma {:induction false} AddedEntries(v: Levels, p: nat, f: File, w: Levels, l: nat, e: Entry)
    requires |v| == NUM_LEVELS && p < NUM_LEVELS && Added(v, p, f, w) && l < NUM_LEVELS
    ensures e in EntriesIn(w[l]) <==> e in EntriesIn(v[l]) || (l == p && e in f.entries)
  {
    if e in EntriesIn(w[l]) {
      var g :| g in w[l] && e in g.entries;
    }
    if l == p && e in f.entries {
      assert f in w[l];
    }
    if e in EntriesIn(v[l]) {
      var g :| g in v[l] && e in g.entries;
      assert g in w[l];
    }
  }

  lemma {:induction false} AddedBelow(v: Levels, p: nat, f: File, w: Levels)
    requires |v| == NUM_LEVELS && p < NUM_LEVELS && Added(v, p, f, w)
    ensures Below(w, 0) == Below(v, 0) + Elements(f.entries)
  {
    forall e: Entry ensures e in Below(w, 0) <==> e in Below(v, 0) || e in f.entries {
      BelowAre(v, 0, e);
      BelowAre(w, 0, e);
      if e in Below(w, 0) {
        var l: nat :| l < NUM_LEVELS && e in EntriesIn(w[l]);
        AddedEntries(v, p, f, w, l, e);
      } else {
        AddedEntries(v, p, f, w, p, e);
        forall l | 0 <= l < NUM_LEVELS ensures e !in EntriesIn(v[l]) {
          AddedEntries(v, p, f, w, l, e);
        }
      }
    }
  }

  /** No user key of `f` occurs above level `p`, and no file of level `p` interleaves with `f`. */
  ghost predicate Fits(v: Levels, p: nat, f: File)
    requires |v| == NUM_LEVELS && p < NUM_LEVELS
  {
    && (forall g | g in v[p] :: Apart(g, f))
    && forall l, x, y | 0 <= l < p && x in EntriesIn(v[l]) && y in f.entries :: x.key.ukey != y.key.ukey
  }

  /** The level picked for a memtable fits it. */
  lemma {:induction false} PickedLevelFits(v: Levels, p: nat, f: File)
    requires ValidLevels(v) && p < NUM_LEVELS && f.Valid() && NoOverlapUpTo(v, p, f)
    ensures Fits(v, p, f)
    ensures forall l, x, y | 0 <= l <= p && x in EntriesIn(v[l]) && y in f.entries :: x.key.ukey != y.key.ukey
  {
    forall g | g in v[p] ensures Apart(g, f) {
      var i :| 0 <= i < |v[p]| && v[p][i] == g;
      assert FileAt(v, p, i).Valid();
      OutOfRange(f, v[p][i]);
    }
    forall l, x, y | 0 <= l <= p && x in EntriesIn(v[l]) && y in f.entries ensures x.key.ukey != y.key.ukey {
      var i, k := Locate(v[l], x);
      assert FileAt(v, l, i).Valid();
      OutOfRange(f, v[l][i]);
    }
  }

  /** A memtable written to level `p > 0` keeps the tree fit for lookups exactly when no file of
      that level interleaves with it; level 0 always takes it. */
  lemma {:induction false} FlushKeepsLevels(v: Levels, p: nat, f: File, w: Levels)
    requires ValidLevels(v) && p < NUM_LEVELS && f.Valid() && Added(v, p, f, w) && SortedLevels(w)
    requires NewerThan(Elements(f.entries), Below(v, 0)) && forall g | g in v[0] :: g.number < f.number
    requires p > 0 ==> forall l, x, y | 0 <= l < p && x in EntriesIn(v[l]) && y in f.entries :: x.key.ukey != y.key.ukey
    requires f !in v[p]
    ensures ValidLevels(w) <==> p == 0 || Fits(v, p, f)
  {
    if p == 0 || Fits(v, p, f) {
      FlushIntoFitting(v, p, f, w);
    } else {
      var g :| g in v[p] && !Apart(g, f);
      assert g in w[p] && f in w[p];
      if Disjoint(w[p]) {
        DisjointApart(w[p], g, f);
      }
    }
  }

  lemma {:induction false} FlushIntoFitting(v: Levels, p: nat, f: File, w: Levels)
    requires ValidLevels(v) && p < NUM_LEVELS && f.Valid() && Added(v, p, f, w) && SortedLevels(w)
    requires NewerThan(Elements(f.entries), Below(v, 0)) && forall g | g in v[0] :: g.number < f.number
    requires p > 0 ==> Fits(v, p, f)
    ensures ValidLevels(w)
  {
    forall l | 1 <= l < NUM_LEVELS ensures Disjoint(w[l]) {
      if l == p {
        AddDisjoint(v[l], f, w[l]);
      } else {
        SubsetDisjoint(v[l], w[l]);
      }
    }
    assert NewerThan(Elements(f.entries), EntriesIn(v[0]));
    AddNumbered(v[0], f, w[0]);
    forall l, m | 0 <= l < m < NUM_LEVELS ensures NewerThan(EntriesIn(w[l]), EntriesIn(w[m])) {
      FlushRecency(v, p, f, w, l, m);
    }
  }

  lemma {:induction false} FlushRecency(v: Levels, p: nat, f: File, w: Levels, l: nat, m: nat)
    requires ValidLevels(v) && p < NUM_LEVELS && Added(v, p, f, w) && l < m < NUM_LEVELS
    requires p > 0 ==> Fits(v, p, f)
    requires NewerThan(Elements(f.entries), Below(v, 0))
    ensures NewerThan(EntriesIn(w[l]), EntriesIn(w[m]))
  {
    forall x, y | x in EntriesIn(w[l]) && y in EntriesIn(w[m])
      ensures x.key.ukey == y.key.ukey ==> x.key.sequence > y.key.sequence
    {
      AddedEntries(v, p, f, w, l, x);
      AddedEntries(v, p, f, w, m, y);
      if y in EntriesIn(v[m]) && x !in EntriesIn(v[l]) {
        BelowAre(v, 0, y);
      }
    }
  }
}
