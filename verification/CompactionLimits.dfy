/** Runs on which the background work of the store goes wrong: why the run theorem needs its two
    side conditions. Every step but the last obeys them, and the last is one the code makes. */
module CompactionLimits {
  import opened Dbformat
  import opened Version
  import opened VersionBuilder
  import opened CompactionInputs
  import opened CompactionCuts
  import opened Compaction
  import opened CompactionEffect
  import opened TreeInvariant
  import opened Lsm

  function Put(u: UserKey, sequence: nat): Entry {
    Entry(InternalKey(u, sequence, Value), [])
  }

  function Marker(u: UserKey, sequence: nat): Entry {
    Entry(InternalKey(u, sequence, Deletion), [])
  }

  // ---------- trees of two levels ----------

  function Tree(level1: seq<File>, level2: seq<File>): Levels {
    [[], level1, level2, [], [], [], []]
  }

  /** The entries of one or two files. */
  lemma {:induction false} FilesHold(f: File, g: File, e: Entry)
    ensures e in EntriesIn([f]) <==> e in f.entries
    ensures e in EntriesIn([f, g]) <==> e in f.entries || e in g.entries
  {
    assert f in [f] && f in [f, g] && g in [f, g];
  }

  lemma {:induction false} TreeHolds(level1: seq<File>, level2: seq<File>, e: Entry)
    ensures e in Below(Tree(level1, level2), 0) <==> e in EntriesIn(level1) || e in EntriesIn(level2)
  {
    var v := Tree(level1, level2);
    assert v[1] == level1 && v[2] == level2;
    BelowAre(v, 0, e);
    if e in Below(v, 0) {
      var l: nat :| l < NUM_LEVELS && e in EntriesIn(v[l]);
    }
  }

  lemma {:induction false} TreeSorted(level1: seq<File>, level2: seq<File>)
    requires SortedFiles(level1) && SortedFiles(level2)
    ensures SortedLevels(Tree(level1, level2))
  {
    var v := Tree(level1, level2);
    assert forall l | 0 <= l < NUM_LEVELS && l != 1 && l != 2 :: v[l] == [];
  }

  lemma {:induction false} OneFile(f: File)
    requires f.Valid()
    ensures IsSmallest(f.Smallest(), [f]) && IsLargest(f.Largest(), [f]) && SortedFiles([f])
  {
    assert [f][0] == f;
  }

  lemma {:induction false} OneBoundary(f: File)
    requires f.Valid()
    ensures NoBoundary([f], f.Largest())
  {
    StartsBeforeEnds(f);
  }

  /** Two files, the first one before the second. */
  lemma {:induction false} TwoFiles(f: File, g: File)
    requires f.Valid() && g.Valid() && Less(f.Largest(), g.Smallest())
    ensures IsSmallest(f.Smallest(), [f, g]) && IsLargest(g.Largest(), [f, g]) && NoBoundary([f, g], g.Largest())
  {
    StartsBeforeEnds(f);
    StartsBeforeEnds(g);
    assert [f, g][0] == f && [f, g][1] == g;
  }

  /** A run of files of level 1 and what meets it on level 2. */
  lemma {:induction false} ChosenRun(v: Levels, level1: seq<File>, level2: seq<File>, lo: nat, hi: nat, in0: seq<File>, in1: seq<File>,
                                     s: InternalKey, l: InternalKey)
    requires ValidLevels(v) && v[1] == level1 && v[2] == level2 && lo < hi <= |level1| && in0 == level1[lo..hi]
    requires ValidFiles(level1) && ValidFiles(level2) && ValidFiles(in0)
    requires IsSmallest(s, in0) && IsLargest(l, in0) && NoBoundary(level1, l)
    requires in1 == InRangeFiles(level2, Some(s.ukey), Some(l.ukey))
    ensures Chosen(v, 1, in0, in1)
  {
    assert Picked(v, 1, in0);
  }

  lemma {:induction false} ChosenOne(v: Levels, f: File, level2: seq<File>, in1: seq<File>)
    requires v == Tree([f], level2) && ValidLevels(v) && f.Valid() && ValidFiles(level2)
    requires in1 == InRangeFiles(level2, Some(f.Smallest().ukey), Some(f.Largest().ukey))
    ensures Chosen(v, 1, [f], in1)
  {
    OneFile(f);
    OneBoundary(f);
    ChosenRun(v, [f], level2, 0, 1, [f], in1, f.Smallest(), f.Largest());
  }

  lemma {:induction false} ChosenTwo(v: Levels, f: File, g: File, level2: seq<File>, in1: seq<File>)
    requires v == Tree([f, g], level2) && ValidLevels(v) && f.Valid() && g.Valid() && ValidFiles(level2)
    requires Less(f.Largest(), g.Smallest()) && in1 == InRangeFiles(level2, Some(f.Smallest().ukey), Some(g.Largest().ukey))
    ensures Chosen(v, 1, [f, g], in1)
  {
    TwoFiles(f, g);
    ChosenRun(v, [f, g], level2, 0, 2, [f, g], in1, f.Smallest(), g.Largest());
  }

  // ---------- reachable states ----------

  ghost predicate Reached(s: State) {
    exists states, steps :: IsRun(states, steps) && states[|states| - 1] == s
  }

  lemma {:induction false} ReachedStart()
    ensures Reached(Start()) && Start() == Db([], [], [], None, 0, [], 0, {})
  {
    assert IsRun([Start()], []) && [Start()][0] == Start();
    assert seq(NUM_LEVELS, _ => []) == Tree([], []);
  }

  lemma {:induction false} ReachedValid(s: State)
    requires Reached(s)
    ensures ValidLevels(s.v)
  {
    var states, steps :| IsRun(states, steps) && states[|states| - 1] == s;
    RunsAreFaithful(states, steps, |states| - 1);
  }

  lemma {:induction false} ReachedNext(s: State, step: Step, s': State)
    requires Reached(s) && ValidLevels(s.v) && Next(s, step, s')
    ensures Reached(s')
  {
    var states, steps :| IsRun(states, steps) && states[|states| - 1] == s;
    RunOn(states, steps, step, s');
    assert (states + [s'])[|states|] == s';
  }

  /** A store with files on levels 1 and 2 and no compaction running. */
  function Db(level1: seq<File>, level2: seq<File>, mem: seq<Entry>, imm: Option<seq<Entry>>, last: nat, snapshots: seq<nat>,
              next: nat, history: set<Entry>): State {
    State(mem, imm, Tree(level1, level2), last, snapshots, next, None, history)
  }

  lemma {:induction false} WriteReaches(s: State, op: (ValueType, UserKey, Bytes))
    requires Reached(s) && s.last < 100
    ensures Reached(WriteOne(s, op))
  {
    ReachedValid(s);
    assert [op][..0] == [] && WriteAll(s, []) == s;
    ReachedNext(s, Write([op]), WriteOne(s, op));
  }

  lemma {:induction false} SwitchReaches(s: State)
    requires Reached(s) && s.imm.None?
    ensures Reached(s.(imm := Some(s.mem), mem := []))
  {
    ReachedValid(s);
    ReachedNext(s, SwitchMem, s.(imm := Some(s.mem), mem := []));
  }

  /** Ten files of the default size. */
  const MAX_GRANDPARENT_OVERLAP: nat := 10 * 2 * 1024 * 1024

  /** The level that the code picks for the table. */
  ghost predicate GoesTo(v: Levels, f: File, p: nat)
    requires ValidLevels(v) && f.Valid()
  {
    IsPickedLevel(v, f.Smallest().ukey, f.Largest().ukey, MAX_GRANDPARENT_OVERLAP, p)
  }

  ghost predicate Clear(files: seq<File>, a: UserKey, b: UserKey)
    requires ValidFiles(files)
  {
    forall i | 0 <= i < |files| :: !InRange(files[i], Some(a), Some(b))
  }

  lemma {:induction false} WayTo1(level1: seq<File>, level2: seq<File>, a: UserKey, b: UserKey, max: nat)
    requires ValidLevels(Tree(level1, level2)) && ValidFiles(level1) && ValidFiles(level2)
    requires Clear(level1, a, b) && TotalFileSize(InRangeFiles(level2, Some(a), Some(b))) <= max
    ensures WayDown(Tree(level1, level2), a, b, max, 1)
  {
    var v := Tree(level1, level2);
    assert v[0] == [] && v[1] == level1 && v[2] == level2;
    assert !OverlapInLevel(v, 0, a, b) && !OverlapInLevel(v, 1, a, b);
    assert WayDown(v, a, b, max, 0);
    assert !TooMuchBelow(v, 0, a, b, max);
  }

  /** A table that only files of level 2 are in the way of. */
  lemma {:induction false} GoesTo1(level1: seq<File>, level2: seq<File>, f: File, i: nat)
    requires ValidLevels(Tree(level1, level2)) && f.Valid() && ValidFiles(level1) && ValidFiles(level2)
    requires Clear(level1, f.Smallest().ukey, f.Largest().ukey)
    requires i < |level2| && InRange(level2[i], Some(f.Smallest().ukey), Some(f.Largest().ukey))
    requires TotalFileSize(InRangeFiles(level2, Some(f.Smallest().ukey), Some(f.Largest().ukey))) <= MAX_GRANDPARENT_OVERLAP
    ensures GoesTo(Tree(level1, level2), f, 1)
  {
    var v, a, b := Tree(level1, level2), f.Smallest().ukey, f.Largest().ukey;
    WayTo1(level1, level2, a, b, MAX_GRANDPARENT_OVERLAP);
    assert v[0] == [] && v[2] == level2;
    assert OverlapInLevel(v, 2, a, b);
  }

  /** A table that nothing is in the way of. */
  lemma {:induction false} GoesTo2(level1: seq<File>, level2: seq<File>, f: File)
    requires ValidLevels(Tree(level1, level2)) && f.Valid() && ValidFiles(level1) && ValidFiles(level2)
    requires Clear(level1, f.Smallest().ukey, f.Largest().ukey) && Clear(level2, f.Smallest().ukey, f.Largest().ukey)
    ensures GoesTo(Tree(level1, level2), f, 2)
  {
    var v, a, b := Tree(level1, level2), f.Smallest().ukey, f.Largest().ukey;
    NoneInRange(level2, a, b);
    WayTo1(level1, level2, a, b, MAX_GRANDPARENT_OVERLAP);
    assert v[0] == [] && v[2] == level2 && v[3] == [];
    assert !OverlapInLevel(v, 2, a, b) && !TooMuchBelow(v, 1, a, b, MAX_GRANDPARENT_OVERLAP);
  }

  lemma {:induction false} NoneInRange(files: seq<File>, a: UserKey, b: UserKey)
    requires ValidFiles(files) && Clear(files, a, b)
    ensures InRangeFiles(files, Some(a), Some(b)) == []
  {
    if files != [] {
      NoneInRange(files[..|files| - 1], a, b);
    }
  }

  predicate Gains(files: seq<File>, more: seq<File>, f: File) {
    (forall g | g in more :: g in files || g == f) && (forall g | g in files :: g in more) && f in more
  }

  lemma {:induction false} GainsFirst(f: File)
    ensures Gains([], [f], f)
  {
  }

  lemma {:induction false} GainsSecond(f: File, g: File)
    ensures Gains([f], [f, g], g)
  {
    assert [f, g][0] == f && [f, g][1] == g;
  }

  lemma {:induction false} AddedTree(level1: seq<File>, level2: seq<File>, p: nat, f: File, more1: seq<File>, more2: seq<File>)
    requires (p == 1 && Gains(level1, more1, f) && more2 == level2) || (p == 2 && more1 == level1 && Gains(level2, more2, f))
    ensures Added(Tree(level1, level2), p, f, Tree(more1, more2))
  {
    var v, w := Tree(level1, level2), Tree(more1, more2);
    assert v[1] == level1 && v[2] == level2 && w[1] == more1 && w[2] == more2;
    assert forall l | 0 <= l < NUM_LEVELS && l != 1 && l != 2 :: v[l] == w[l];
  }

  /** Putting a table on the level the code picks for it. */
  lemma {:induction false} FlushReaches(s: State, p: nat, f: File, w: Levels)
    requires Reached(s) && s.job.None? && s.imm == Some(f.entries) && f.number == s.nextFile && f.entries != []
    requires ValidLevels(s.v) && f.Valid() && GoesTo(s.v, f, p) && p in {1, 2}
    requires Added(s.v, p, f, w)
    requires SortedLevels(w)
    ensures Reached(s.(imm := None, v := w, nextFile := s.nextFile + 1))
  {
    WayDownIsFree(s.v, f.Smallest().ukey, f.Largest().ukey, MAX_GRANDPARENT_OVERLAP, p);
    ReachedNext(s, Flush(p, f), s.(imm := None, v := w, nextFile := s.nextFile + 1));
  }

  /** The files of a level after a compaction. */
  predicate Replaces(files: seq<File>, gone: seq<File>, come: seq<File>, more: seq<File>) {
    (forall g | g in more :: (g in files && g !in gone) || g in come) && (forall g | g in files && g !in gone :: g in more)
    && forall g | g in come :: g in more
  }

  lemma {:induction false} InstalledTree(level1: seq<File>, level2: seq<File>, in0: seq<File>, in1: seq<File>, outs: seq<File>,
                         more1: seq<File>, more2: seq<File>)
    requires Replaces(level1, in0, [], more1) && Replaces(level2, in1, outs, more2)
    ensures Installed(Tree(level1, level2), 1, in0, in1, outs, Tree(more1, more2))
  {
    var v, w := Tree(level1, level2), Tree(more1, more2);
    assert v[1] == level1 && v[2] == level2 && w[1] == more1 && w[2] == more2;
    assert forall l | 0 <= l < NUM_LEVELS && l != 1 && l != 2 :: v[l] == w[l];
  }

  /** A compaction started and installed, with nothing in between. */
  lemma {:induction false} CompactionReaches(s: State, j: Job, input: seq<Entry>)
    requires Reached(s) && s.job.None? && ValidLevels(s.v) && StartStep(s, j, input, s.(nextFile := s.nextFile + |j.outs|, job := Some(j)))
    requires j.level + 1 < NUM_LEVELS && NothingResurfaces(s, j, input)
    ensures Reached(s.(nextFile := s.nextFile + |j.outs|, job := Some(j)))
    ensures Reached(s.(nextFile := s.nextFile + |j.outs|, v := j.after))
  {
    var t := s.(nextFile := s.nextFile + |j.outs|, job := Some(j));
    ReachedNext(s, StartCompaction(j, input), t);
    ReachedNext(t, FinishCompaction, t.(v := j.after, job := None));
  }

  lemma {:induction false} Starts(s: State, j: Job, input: seq<Entry>)
    requires s.job.None? && Ready(s.v, j.level, j.in0, j.in1, input)
    requires Chosen(s.v, j.level, j.in0, j.in1)
    requires CompactionEffect.Written(s.v, j.level, input, Oldest(s), j.outs)
    requires forall i | 0 <= i < |j.outs| :: j.outs[i].number == s.nextFile + i
    requires Installed(s.v, j.level, j.in0, j.in1, j.outs, j.after)
    requires SortedLevels(j.after)
    ensures StartStep(s, j, input, s.(nextFile := s.nextFile + |j.outs|, job := Some(j)))
  {
  }

  // ---------- a deleted key comes back ----------

  const OLD := File(0, 1, [Put(2.0, 1)])
  const DELETER := File(1, 1, [Put(1.0, 2), Marker(2.0, 3)])
  const FIRST := File(2, 1, [Put(1.0, 2), Marker(2.0, 3)])
  const SECOND := File(3, 1, [Put(2.0, 1)])
  const UPPER := File(4, 1, [Put(1.0, 4)])
  const OUT := File(5, 1, [Put(1.0, 4)])
  const SPLIT := [Put(1.0, 2), Marker(2.0, 3), Put(2.0, 1)]
  const MERGED := [Put(1.0, 4), Put(1.0, 2), Marker(2.0, 3)]

  function History(n: nat): set<Entry> {
    if n == 0 then {} else History(n - 1) + {if n == 1 then Put(2.0, 1) else if n == 3 then Marker(2.0, 3) else Put(1.0, n)}
  }

  lemma {:induction false} FilesValid()
    ensures OLD.Valid() && DELETER.Valid() && FIRST.Valid() && SECOND.Valid() && UPPER.Valid() && OUT.Valid()
  {
  }

  lemma {:induction false} KeyInMemory()
    ensures Reached(Db([], [], [], Some([Put(2.0, 1)]), 1, [1], 0, History(1)))
  {
    ReachedStart();
    WriteReaches(Start(), (Value, 2.0, []));
    var s := Db([], [], [Put(2.0, 1)], None, 1, [], 0, History(1));
    assert History(1) == {} + {Put(2.0, 1)};
    assert WriteOne(Start(), (Value, 2.0, [])) == s;
    SnapshotReaches(s);
    SwitchReaches(s.(snapshots := [1]));
  }

  lemma {:induction false} SnapshotReaches(s: State)
    requires Reached(s)
    ensures Reached(s.(snapshots := s.snapshots + [s.last]))
  {
    ReachedValid(s);
    ReachedNext(s, GetSnapshot, s.(snapshots := s.snapshots + [s.last]));
  }

  lemma {:induction false} OldGoes()
    requires ValidLevels(Tree([], []))
    ensures OLD.Valid() && GoesTo(Tree([], []), OLD, 2)
  {
    FilesValid();
    GoesTo2([], [], OLD);
  }

  lemma {:induction false} OldTree()
    ensures Added(Tree([], []), 2, OLD, Tree([], [OLD])) && SortedLevels(Tree([], [OLD]))
  {
    FilesValid();
    OneFile(OLD);
    AddedTree([], [], 2, OLD, [], [OLD]);
    TreeSorted([], [OLD]);
  }

  /** A key is written, a snapshot taken, and the memtable goes to level 2. */
  lemma {:induction false} KeyWritten()
    ensures Reached(Db([], [OLD], [], None, 1, [1], 1, History(1)))
  {
    KeyInMemory();
    var s := Db([], [], [], Some([Put(2.0, 1)]), 1, [1], 0, History(1));
    ReachedValid(s);
    OldGoes();
    OldTree();
    FlushReaches(s, 2, OLD, Tree([], [OLD]));
    assert s.(imm := None, v := Tree([], [OLD]), nextFile := 1) == Db([], [OLD], [], None, 1, [1], 1, History(1));
  }

  lemma {:induction false} TwoInMemory()
    requires Reached(Db([], [OLD], [], None, 1, [1], 1, History(1)))
    ensures Reached(Db([], [OLD], [], Some(DELETER.entries), 3, [1], 1, History(3)))
  {
    var s := Db([], [OLD], [], None, 1, [1], 1, History(1));
    WriteReaches(s, (Value, 1.0, []));
    var t := Db([], [OLD], [Put(1.0, 2)], None, 2, [1], 1, History(2));
    assert WriteOne(s, (Value, 1.0, [])) == t;
    WriteReaches(t, (Deletion, 2.0, []));
    var u := Db([], [OLD], DELETER.entries, None, 3, [1], 1, History(3));
    assert MemInsert([], Marker(2.0, 3)) == [Marker(2.0, 3)];
    assert MemInsert([Put(1.0, 2)], Marker(2.0, 3)) == DELETER.entries;
    assert WriteOne(t, (Deletion, 2.0, [])) == u;
    SwitchReaches(u);
  }

  lemma {:induction false} OneInRange(f: File, a: UserKey, b: UserKey)
    requires f.Valid() && InRange(f, Some(a), Some(b))
    ensures InRangeFiles([f], Some(a), Some(b)) == [f] && TotalFileSize([f]) == f.size
  {
    assert [f][..0] == [] && [f][1..] == [];
  }

  lemma {:induction false} DeleterGoes()
    requires ValidLevels(Tree([], [OLD]))
    ensures DELETER.Valid() && GoesTo(Tree([], [OLD]), DELETER, 1)
  {
    FilesValid();
    OneInRange(OLD, 1.0, 2.0);
    GoesTo1([], [OLD], DELETER, 0);
  }

  lemma {:induction false} DeleterTree()
    ensures Added(Tree([], [OLD]), 1, DELETER, Tree([DELETER], [OLD])) && SortedLevels(Tree([DELETER], [OLD]))
  {
    FilesValid();
    OneFile(OLD);
    OneFile(DELETER);
    AddedTree([], [OLD], 1, DELETER, [DELETER], [OLD]);
    TreeSorted([DELETER], [OLD]);
  }

  /** The key is deleted; the memtable stops at level 1, above the old value. */
  lemma {:induction false} KeyDeleted()
    ensures Reached(Db([DELETER], [OLD], [], None, 3, [1], 2, History(3)))
  {
    KeyWritten();
    TwoInMemory();
    var s := Db([], [OLD], [], Some(DELETER.entries), 3, [1], 1, History(3));
    ReachedValid(s);
    DeleterGoes();
    DeleterTree();
    FlushReaches(s, 1, DELETER, Tree([DELETER], [OLD]));
  }

  lemma {:induction false} SplitReady(v: Levels)
    requires v == Tree([DELETER], [OLD]) && ValidLevels(v)
    ensures Ready(v, 1, [DELETER], [OLD], SPLIT)
  {
    forall e: Entry ensures e in Elements(SPLIT) <==> e in EntriesIn([DELETER]) + EntriesIn([OLD]) {
      FilesHold(DELETER, DELETER, e);
      FilesHold(OLD, OLD, e);
    }
    assert v[1] == [DELETER] && v[2] == [OLD] && DELETER in [DELETER] && OLD in [OLD];
  }

  lemma {:induction false} SplitChosen(v: Levels)
    requires v == Tree([DELETER], [OLD]) && ValidLevels(v)
    ensures Chosen(v, 1, [DELETER], [OLD])
  {
    FilesValid();
    OneInRange(OLD, 1.0, 2.0);
    ChosenOne(v, DELETER, [OLD], [OLD]);
  }

  /** With the snapshot in use nothing is dropped, and the outputs may part the key in two. */
  lemma {:induction false} SplitKept(v: Levels)
    requires v == Tree([DELETER], [OLD]) && ValidLevels(v)
    ensures Dropped(v, 1, SPLIT, 1) == {}
  {
    forall i: nat | i < 3 ensures !Drops(v, 3, SPLIT, i, 1) {
      SplitKeeps(v, i);
    }
  }

  lemma {:induction false} SplitKeeps(v: Levels, i: nat)
    requires ValidLevels(v) && i < 3
    ensures !Drops(v, 3, SPLIT, i, 1)
  {
    assert SPLIT[0].key.typ.Value? && SPLIT[2].key.typ.Value? && SPLIT[1].key.sequence == 3;
    assert i == 0 || i == 1 || i == 2;
  }

  lemma {:induction false} SplitSurvives(v: Levels)
    requires ValidLevels(v)
    ensures Survivors(v, 3, SPLIT, |SPLIT|, 1) == SPLIT
  {
    SplitKeeps(v, 0);
    SplitKeeps(v, 1);
    SplitKeeps(v, 2);
    assert Survivors(v, 3, SPLIT, 0, 1) == [];
    assert Survivors(v, 3, SPLIT, 1, 1) == [SPLIT[0]];
    assert Survivors(v, 3, SPLIT, 2, 1) == [SPLIT[0], SPLIT[1]];
  }

  lemma {:induction false} TwoTables(f: File, g: File)
    ensures Concat(Tables([f, g])) == f.entries + g.entries && Concat(Tables([f])) == f.entries
  {
    assert Tables([f])[..0] == [] && Concat(Tables([f])) == [] + f.entries;
    assert Tables([f, g])[..1] == Tables([f]);
  }

  lemma {:induction false} FirstSecondSorted()
    ensures SortedFiles([FIRST, SECOND])
  {
  }

  function SplitJob(): Job {
    Job(1, [DELETER], [OLD], [FIRST, SECOND], Tree([], [FIRST, SECOND]))
  }

  lemma {:induction false} SplitInstalled()
    ensures Installed(Tree([DELETER], [OLD]), 1, [DELETER], [OLD], [FIRST, SECOND], Tree([], [FIRST, SECOND]))
    ensures SortedLevels(Tree([], [FIRST, SECOND]))
  {
    InstalledTree([DELETER], [OLD], [DELETER], [OLD], [FIRST, SECOND], [], [FIRST, SECOND]);
    FirstSecondSorted();
    TreeSorted([], [FIRST, SECOND]);
  }

  lemma {:induction false} SplitParts(s: State, j: Job)
    requires s == Db([DELETER], [OLD], [], None, 3, [1], 2, History(3)) && ValidLevels(s.v) && j == SplitJob()
    ensures Ready(s.v, j.level, j.in0, j.in1, SPLIT) && Chosen(s.v, j.level, j.in0, j.in1)
    ensures s.job.None? && forall i | 0 <= i < |j.outs| :: j.outs[i].number == s.nextFile + i
  {
    SplitReady(s.v);
    SplitChosen(s.v);
    NumberedFrom(FIRST, SECOND, s.nextFile);
  }

  lemma {:induction false} NumberedFrom(f: File, g: File, n: nat)
    requires f.number == n && g.number == n + 1
    ensures forall i | 0 <= i < |[f, g]| :: [f, g][i].number == n + i
  {
  }

  lemma {:induction false} SplitOutputs(s: State, j: Job)
    requires s == Db([DELETER], [OLD], [], None, 3, [1], 2, History(3)) && ValidLevels(s.v) && j == SplitJob()
    ensures CompactionEffect.Written(s.v, j.level, SPLIT, Oldest(s), j.outs) && Dropped(s.v, j.level, SPLIT, Oldest(s)) == {}
    ensures Installed(s.v, j.level, j.in0, j.in1, j.outs, j.after) && SortedLevels(j.after)
  {
    SplitSurvives(s.v);
    SplitKept(s.v);
    TwoTables(FIRST, SECOND);
    SplitInstalled();
  }

  lemma {:induction false} NoneDropped(s: State, j: Job, input: seq<Entry>)
    requires ValidLevels(s.v) && j.level + 1 < NUM_LEVELS && Dropped(s.v, j.level, input, Oldest(s)) == {}
    ensures NothingResurfaces(s, j, input)
  {
  }

  /** A compaction parts the deleted key from its marker. */
  lemma {:induction false} KeyParted()
    ensures Reached(Db([], [FIRST, SECOND], [], None, 3, [1], 4, History(3)))
  {
    KeyDeleted();
    var s := Db([DELETER], [OLD], [], None, 3, [1], 2, History(3));
    ReachedValid(s);
    var j := SplitJob();
    SplitParts(s, j);
    SplitOutputs(s, j);
    Starts(s, j, SPLIT);
    NoneDropped(s, j, SPLIT);
    CompactionReaches(s, j, SPLIT);
  }

  lemma {:induction false} ReleaseReaches(s: State)
    requires Reached(s) && |s.snapshots| == 1
    ensures Reached(s.(snapshots := []))
  {
    ReachedValid(s);
    assert s.snapshots[..0] + s.snapshots[1..] == [];
    ReachedNext(s, ReleaseSnapshot(0), s.(snapshots := []));
  }

  lemma {:induction false} UpperInMemory()
    requires Reached(Db([], [FIRST, SECOND], [], None, 3, [], 4, History(3)))
    ensures Reached(Db([], [FIRST, SECOND], [], Some(UPPER.entries), 4, [], 4, History(4)))
  {
    var s := Db([], [FIRST, SECOND], [], None, 3, [], 4, History(3));
    WriteReaches(s, (Value, 1.0, []));
    var t := Db([], [FIRST, SECOND], [Put(1.0, 4)], None, 4, [], 4, History(4));
    assert WriteOne(s, (Value, 1.0, [])) == t;
    SwitchReaches(t);
  }

  /** The snapshot is given back, and another write goes to level 1. */
  lemma {:induction false} KeyReady()
    ensures Reached(Db([UPPER], [FIRST, SECOND], [], None, 4, [], 5, History(4)))
  {
    KeyParted();
    ReleaseReaches(Db([], [FIRST, SECOND], [], None, 3, [1], 4, History(3)));
    UpperInMemory();
    UpperReaches();
  }

  lemma {:induction false} UpperGoes()
    requires ValidLevels(Tree([], [FIRST, SECOND]))
    ensures UPPER.Valid() && GoesTo(Tree([], [FIRST, SECOND]), UPPER, 1)
  {
    FilesValid();
    FirstSecondSorted();
    OnlyFirstInRange();
    GoesTo1([], [FIRST, SECOND], UPPER, 0);
  }

  lemma {:induction false} UpperTree()
    ensures Added(Tree([], [FIRST, SECOND]), 1, UPPER, Tree([UPPER], [FIRST, SECOND])) && SortedLevels(Tree([UPPER], [FIRST, SECOND]))
  {
    FilesValid();
    OneFile(UPPER);
    AddedTree([], [FIRST, SECOND], 1, UPPER, [UPPER], [FIRST, SECOND]);
    FirstSecondSorted();
    TreeSorted([UPPER], [FIRST, SECOND]);
  }

  lemma {:induction false} UpperReaches()
    requires Reached(Db([], [FIRST, SECOND], [], Some(UPPER.entries), 4, [], 4, History(4)))
    ensures Reached(Db([UPPER], [FIRST, SECOND], [], None, 4, [], 5, History(4)))
  {
    var s := Db([], [FIRST, SECOND], [], Some(UPPER.entries), 4, [], 4, History(4));
    ReachedValid(s);
    UpperGoes();
    UpperTree();
    FlushReaches(s, 1, UPPER, Tree([UPPER], [FIRST, SECOND]));
  }

  lemma {:induction false} OnlyFirstInRange()
    ensures InRangeFiles([FIRST, SECOND], Some(1.0), Some(1.0)) == [FIRST] && TotalFileSize([FIRST]) == 1
  {
    assert [FIRST, SECOND][..1] == [FIRST];
    OneInRange(FIRST, 1.0, 1.0);
  }

  function LostTree(): Levels {
    Tree([UPPER], [FIRST, SECOND])
  }

  lemma {:induction false} LostReady(v: Levels)
    requires v == LostTree() && ValidLevels(v)
    ensures Ready(v, 1, [UPPER], [FIRST], MERGED)
  {
    forall e: Entry ensures e in Elements(MERGED) <==> e in EntriesIn([UPPER]) + EntriesIn([FIRST]) {
      FilesHold(UPPER, UPPER, e);
      FilesHold(FIRST, FIRST, e);
    }
    assert v[1] == [UPPER] && v[2] == [FIRST, SECOND] && UPPER in [UPPER] && FIRST in [FIRST, SECOND];
  }

  lemma {:induction false} LostChosen(v: Levels)
    requires v == LostTree() && ValidLevels(v)
    ensures Chosen(v, 1, [UPPER], [FIRST])
  {
    FilesValid();
    OnlyFirstInRange();
    ChosenOne(v, UPPER, [FIRST, SECOND], [FIRST]);
  }

  /** The marker goes, as nothing deeper has the key; the older write is hidden. */
  lemma {:induction false} LostWritten(v: Levels)
    requires v == LostTree() && ValidLevels(v)
    ensures CompactionEffect.Written(v, 1, MERGED, 4, [OUT]) && Marker(2.0, 3) in Dropped(v, 1, MERGED, 4)
  {
    assert Obsolete(v, 3, MERGED[2], 4);
    assert Drops(v, 3, MERGED, 2, 4) && Drops(v, 3, MERGED, 1, 4) && !Drops(v, 3, MERGED, 0, 4);
    assert Survivors(v, 3, MERGED, 0, 4) == [];
    assert Survivors(v, 3, MERGED, 1, 4) == [MERGED[0]];
    assert Survivors(v, 3, MERGED, 2, 4) == [MERGED[0]];
    assert Survivors(v, 3, MERGED, 3, 4) == [MERGED[0]];
    TwoTables(OUT, OUT);
  }

  lemma {:induction false} LostContents(e: Entry)
    ensures e in Contents([], [], LostTree()) <==> e in {Put(1.0, 4), Put(1.0, 2), Marker(2.0, 3), Put(2.0, 1)}
    ensures e in Contents([], [], Tree([], [OUT, SECOND])) <==> e in {Put(1.0, 4), Put(2.0, 1)}
  {
    TreeHolds([UPPER], [FIRST, SECOND], e);
    TreeHolds([], [OUT, SECOND], e);
    FilesHold(UPPER, UPPER, e);
    FilesHold(FIRST, SECOND, e);
    FilesHold(OUT, SECOND, e);
  }

  /** Every sequence number is taken once; the newest version decides. */
  lemma {:induction false} NewestDecides(s: set<Entry>, t: Entry, snap: nat)
    requires t in s && t.key.sequence <= snap && forall d | d in s && d.key.ukey == t.key.ukey :: d.key.sequence <= t.key.sequence
    requires forall a, b | a in s && b in s && a.key.sequence == b.key.sequence :: a == b
    ensures IsNewest(t, s, t.key.ukey, snap) && Read(s, t.key.ukey, snap) == ValueOf(Some(t))
  {
    NewestIs(t, s, t.key.ukey, snap);
  }

  /** What readers find before and after. */
  lemma {:induction false} LostReads()
    ensures IsNewest(Marker(2.0, 3), Contents([], [], LostTree()), 2.0, 4)
    ensures Read(Contents([], [], LostTree()), 2.0, 4) == None
    ensures Read(Contents([], [], Tree([], [OUT, SECOND])), 2.0, 4) == Some([])
  {
    var before, after := Contents([], [], LostTree()), Contents([], [], Tree([], [OUT, SECOND]));
    forall e: Entry
      ensures e in before <==> e in {Put(1.0, 4), Put(1.0, 2), Marker(2.0, 3), Put(2.0, 1)}
      ensures e in after <==> e in {Put(1.0, 4), Put(2.0, 1)}
    {
      LostContents(e);
    }
    assert before == {Put(1.0, 4), Put(1.0, 2), Marker(2.0, 3), Put(2.0, 1)} && after == {Put(1.0, 4), Put(2.0, 1)};
    NewestDecides({Put(1.0, 4), Put(1.0, 2), Marker(2.0, 3), Put(2.0, 1)}, Marker(2.0, 3), 4);
    NewestDecides({Put(1.0, 4), Put(2.0, 1)}, Put(2.0, 1), 4);
  }

  lemma {:induction false} LostBelow()
    ensures Newest(LeftBelow(LostTree(), 1, [FIRST]), 2.0, 3) == Some(Put(2.0, 1))
  {
    var v, before := LostTree(), Put(2.0, 1);
    var left := LeftBelow(v, 1, [FIRST]);
    assert before in SECOND.entries && SECOND in v[2];
    assert before in left;
    forall e | e in left ensures e == before {
      var f :| f in v[2] && f !in [FIRST] && e in f.entries;
    }
    assert IsNewest(before, left, 2.0, 3);
    NewestIs(before, left, 2.0, 3);
  }

  function Lost(): State {
    Db([UPPER], [FIRST, SECOND], [], None, 4, [], 5, History(4))
  }

  function LostJob(): Job {
    Job(1, [UPPER], [FIRST], [OUT], Tree([], [OUT, SECOND]))
  }

  lemma {:induction false} OutSecondSorted()
    ensures SortedFiles([OUT, SECOND])
  {
  }

  lemma {:induction false} LostInstalled()
    ensures Installed(LostTree(), 1, [UPPER], [FIRST], [OUT], Tree([], [OUT, SECOND])) && SortedLevels(Tree([], [OUT, SECOND]))
  {
    InstalledTree([UPPER], [FIRST, SECOND], [UPPER], [FIRST], [OUT], [], [OUT, SECOND]);
    OutSecondSorted();
    TreeSorted([], [OUT, SECOND]);
  }

  lemma {:induction false} LostParts(s: State, j: Job)
    requires s == Lost() && ValidLevels(s.v) && j == LostJob()
    ensures Ready(s.v, j.level, j.in0, j.in1, MERGED) && Chosen(s.v, j.level, j.in0, j.in1)
    ensures s.job.None? && forall i | 0 <= i < |j.outs| :: j.outs[i].number == s.nextFile + i
  {
    LostReady(s.v);
    LostChosen(s.v);
  }

  lemma {:induction false} LostOutputs(s: State, j: Job)
    requires s == Lost() && ValidLevels(s.v) && j == LostJob()
    ensures CompactionEffect.Written(s.v, j.level, MERGED, Oldest(s), j.outs)
    ensures Installed(s.v, j.level, j.in0, j.in1, j.outs, j.after) && SortedLevels(j.after)
  {
    LostWritten(s.v);
    LostInstalled();
  }

  lemma {:induction false} LostResurfaces(s: State)
    requires s == Lost() && ValidLevels(s.v)
    ensures Resurfaces(Marker(2.0, 3), Stored(s), Dropped(s.v, 1, MERGED, 4), LeftBelow(s.v, 1, [FIRST]), 4)
  {
    LostWritten(s.v);
    LostReads();
    LostBelow();
    LostStored(s);
    ComesBack(Marker(2.0, 3), Stored(s), Dropped(s.v, 1, MERGED, 4), LeftBelow(s.v, 1, [FIRST]), 4, Put(2.0, 1));
  }

  lemma {:induction false} ComesBack(t: Entry, s: set<Entry>, dropped: set<Entry>, left: set<Entry>, smallest: nat, d: Entry)
    requires t in dropped && IsNewest(t, s, t.key.ukey, smallest)
    requires Newest(left, t.key.ukey, t.key.sequence) == Some(d) && d.key.typ.Value?
    ensures Resurfaces(t, s, dropped, left, smallest)
  {
  }

  lemma {:induction false} LostStored(s: State)
    requires s.mem == [] && (s.imm == None || s.imm == Some([])) && |s.v| == NUM_LEVELS
    ensures Stored(s) == Contents([], [], s.v)
  {
  }

  /** A run at whose end the code may start a compaction that parts with a deletion marker while the
      file after those it takes from the next level still holds the deleted value: the inputs there
      are not closed at their last user key. Once it is installed the deleted key is back. */
  lemma {:induction false} MarkerLost() returns (s: State, j: Job, input: seq<Entry>, t: Entry, running: State, done: State)
    ensures Reached(s) && ValidLevels(s.v) && j.level + 1 < NUM_LEVELS && |running.v| == NUM_LEVELS == |done.v|
    ensures StartStep(s, j, input, running)
    ensures Resurfaces(t, Stored(s), Dropped(s.v, j.level, input, Oldest(s)), LeftBelow(s.v, j.level, j.in1), Oldest(s))
    ensures FinishStep(running, done) && done.history == s.history
    ensures Read(Stored(s), t.key.ukey, s.last) == None && Read(Stored(done), t.key.ukey, s.last) == Some([])
  {
    s, j, input, t := Lost(), LostJob(), MERGED, Marker(2.0, 3);
    running := s.(nextFile := 6, job := Some(j));
    done := running.(v := j.after, job := None);
    KeyReady();
    ReachedValid(s);
    LostParts(s, j);
    LostOutputs(s, j);
    Starts(s, j, input);
    LostResurfaces(s);
    LostReads();
    LostInstalled();
    LostStored(s);
    LostStored(done);
  }

  // ---------- a memtable written among the outputs of a compaction ----------

  const LOW := File(0, 1, [Put(1.0, 1)])
  const HIGH := File(1, 1, [Put(9.0, 2)])
  const LEFT := File(2, 1, [Put(1.0, 3)])
  const RIGHT := File(3, 1, [Put(9.0, 4)])
  const SPAN := File(4, 1, [Put(1.0, 3), Put(9.0, 4)])
  const BETWEEN := File(5, 1, [Put(5.0, 5)])
  const FOUR := [Put(1.0, 3), Put(1.0, 1), Put(9.0, 4), Put(9.0, 2)]

  function Past(n: nat): set<Entry> {
    if n == 0 then {} else Past(n - 1) + {Put(if n == 5 then 5.0 else if n % 2 == 1 then 1.0 else 9.0, n)}
  }

  lemma {:induction false} SpanFilesValid()
    ensures LOW.Valid() && HIGH.Valid() && LEFT.Valid() && RIGHT.Valid() && SPAN.Valid() && BETWEEN.Valid()
  {
  }

  lemma {:induction false} SpanFilesSorted()
    ensures SortedFiles([LOW, HIGH]) && SortedFiles([LEFT, RIGHT]) && SortedFiles([SPAN, BETWEEN])
    ensures SortedFiles([LOW]) && SortedFiles([LEFT]) && SortedFiles([SPAN])
  {
  }

  /** One more key in the memtable set aside. */
  lemma {:induction false} KeySetAside(level1: seq<File>, level2: seq<File>, n: nat, u: UserKey)
    requires Reached(Db(level1, level2, [], None, n, [], n, Past(n))) && n < 4
    requires u == if n % 2 == 0 then 1.0 else 9.0
    ensures Reached(Db(level1, level2, [], Some([Put(u, n + 1)]), n + 1, [], n, Past(n + 1)))
  {
    var s := Db(level1, level2, [], None, n, [], n, Past(n));
    WriteReaches(s, (Value, u, []));
    var t := Db(level1, level2, [Put(u, n + 1)], None, n + 1, [], n, Past(n + 1));
    assert WriteOne(s, (Value, u, [])) == t;
    SwitchReaches(t);
  }

  /** It goes where the code picks. */
  lemma {:induction false} KeyFlushed(level1: seq<File>, level2: seq<File>, n: nat, f: File, p: nat, more1: seq<File>, more2: seq<File>)
    requires Reached(Db(level1, level2, [], Some(f.entries), n + 1, [], n, Past(n + 1))) && f.number == n && f.Valid()
    requires ValidLevels(Tree(level1, level2)) ==> GoesTo(Tree(level1, level2), f, p)
    requires (p == 1 && Gains(level1, more1, f) && more2 == level2) || (p == 2 && more1 == level1 && Gains(level2, more2, f))
    requires SortedFiles(more1) && SortedFiles(more2)
    ensures Reached(Db(more1, more2, [], None, n + 1, [], n + 1, Past(n + 1)))
  {
    var s := Db(level1, level2, [], Some(f.entries), n + 1, [], n, Past(n + 1));
    ReachedValid(s);
    AddedTree(level1, level2, p, f, more1, more2);
    TreeSorted(more1, more2);
    FlushReaches(s, p, f, Tree(more1, more2));
  }

  lemma {:induction false} LowHighGo()
    ensures ValidLevels(Tree([], [])) ==> GoesTo(Tree([], []), LOW, 2)
    ensures ValidLevels(Tree([], [LOW])) ==> GoesTo(Tree([], [LOW]), HIGH, 2)
  {
    SpanFilesValid();
    if ValidLevels(Tree([], [])) {
      GoesTo2([], [], LOW);
    }
    if ValidLevels(Tree([], [LOW])) {
      GoesTo2([], [LOW], HIGH);
    }
  }

  /** A key is written, set aside and flushed. */
  lemma {:induction false} KeyGoes(level1: seq<File>, level2: seq<File>, n: nat, u: UserKey, f: File, p: nat,
                                   more1: seq<File>, more2: seq<File>)
    requires Reached(Db(level1, level2, [], None, n, [], n, Past(n))) && n < 4 && u == (if n % 2 == 0 then 1.0 else 9.0)
    requires f.number == n && f.Valid() && f.entries == [Put(u, n + 1)]
    requires ValidLevels(Tree(level1, level2)) ==> GoesTo(Tree(level1, level2), f, p)
    requires (p == 1 && Gains(level1, more1, f) && more2 == level2) || (p == 2 && more1 == level1 && Gains(level2, more2, f))
    requires SortedFiles(more1) && SortedFiles(more2)
    ensures Reached(Db(more1, more2, [], None, n + 1, [], n + 1, Past(n + 1)))
  {
    KeySetAside(level1, level2, n, u);
    KeyFlushed(level1, level2, n, f, p, more1, more2);
  }

  lemma {:induction false} NoKeyYet(n: nat)
    requires n == 0
    ensures Reached(Db([], [], [], None, n, [], n, Past(n)))
  {
    ReachedStart();
    assert Db([], [], [], None, n, [], n, Past(n)) == Start();
  }

  /** What the first four tables hold. */
  lemma {:induction false} LowIs(n: nat)
    requires n == 0
    ensures LOW.number == n && LOW.Valid() && LOW.entries == [Put(1.0, n + 1)] && SortedFiles([]) && SortedFiles([LOW])
  {
  }

  lemma {:induction false} HighIs(n: nat)
    requires n == 1
    ensures HIGH.number == n && HIGH.Valid() && HIGH.entries == [Put(9.0, n + 1)] && SortedFiles([]) && SortedFiles([LOW, HIGH])
  {
  }

  lemma {:induction false} LowGoes(n: nat)
    requires n == 0 && Reached(Db([], [], [], None, n, [], n, Past(n)))
    ensures Reached(Db([], [LOW], [], None, n + 1, [], n + 1, Past(n + 1)))
  {
    LowIs(n);
    LowHighGo();
    GainsFirst(LOW);
    KeyGoes([], [], n, 1.0, LOW, 2, [], [LOW]);
  }

  lemma {:induction false} HighGoes(n: nat)
    requires n == 1 && Reached(Db([], [LOW], [], None, n, [], n, Past(n)))
    ensures Reached(Db([], [LOW, HIGH], [], None, n + 1, [], n + 1, Past(n + 1)))
  {
    HighIs(n);
    LowHighGo();
    GainsSecond(LOW, HIGH);
    KeyGoes([], [LOW], n, 9.0, HIGH, 2, [], [LOW, HIGH]);
  }

  /** Two keys on level 2. */
  lemma {:induction false} LowHighWritten(n: nat)
    requires n == 0
    ensures Reached(Db([], [LOW, HIGH], [], None, n + 2, [], n + 2, Past(n + 2)))
  {
    NoKeyYet(n);
    LowGoes(n);
    HighGoes(n + 1);
  }

  lemma {:induction false} InRangeTwo(f: File, g: File, a: UserKey, b: UserKey)
    requires f.Valid() && g.Valid()
    ensures InRangeFiles([f, g], Some(a), Some(b))
            == (if InRange(f, Some(a), Some(b)) then [f] else []) + (if InRange(g, Some(a), Some(b)) then [g] else [])
  {
    assert [f, g][..1] == [f] && [f][..0] == [];
    assert InRangeFiles([f], Some(a), Some(b)) == if InRange(f, Some(a), Some(b)) then [f] else [];
  }

  lemma {:induction false} OneOfTwo(u: UserKey)
    requires u == 1.0 || u == 9.0
    ensures TotalFileSize(InRangeFiles([LOW, HIGH], Some(u), Some(u))) <= 2
  {
    SpanFilesValid();
    InRangeTwo(LOW, HIGH, u, u);
    assert InRangeFiles([LOW, HIGH], Some(u), Some(u)) == [if u == 1.0 then LOW else HIGH];
    assert [LOW][1..] == [] && [HIGH][1..] == [];
  }

  lemma {:induction false} LeftRightGo()
    ensures ValidLevels(Tree([], [LOW, HIGH])) ==> GoesTo(Tree([], [LOW, HIGH]), LEFT, 1)
    ensures ValidLevels(Tree([LEFT], [LOW, HIGH])) ==> GoesTo(Tree([LEFT], [LOW, HIGH]), RIGHT, 1)
  {
    SpanFilesValid();
    OneOfTwo(1.0);
    OneOfTwo(9.0);
    if ValidLevels(Tree([], [LOW, HIGH])) {
      GoesTo1([], [LOW, HIGH], LEFT, 0);
    }
    if ValidLevels(Tree([LEFT], [LOW, HIGH])) {
      GoesTo1([LEFT], [LOW, HIGH], RIGHT, 1);
    }
  }

  /** The same keys again, on level 1. */
  lemma {:induction false} LeftRightWritten(n: nat)
    requires n == 2
    ensures Reached(Db([LEFT, RIGHT], [LOW, HIGH], [], None, n + 2, [], n + 2, Past(n + 2)))
  {
    LowHighWritten(0);
    SpanFilesValid();
    SpanFilesSorted();
    LeftRightGo();
    KeyGoes([], [LOW, HIGH], n, 1.0, LEFT, 1, [LEFT], [LOW, HIGH]);
    KeyGoes([LEFT], [LOW, HIGH], n + 1, 9.0, RIGHT, 1, [LEFT, RIGHT], [LOW, HIGH]);
  }

  function SpanTree(): Levels {
    Tree([LEFT, RIGHT], [LOW, HIGH])
  }

  lemma {:induction false} SpanReady(v: Levels)
    requires v == SpanTree() && ValidLevels(v)
    ensures Ready(v, 1, [LEFT, RIGHT], [LOW, HIGH], FOUR)
  {
    forall e: Entry ensures e in Elements(FOUR) <==> e in EntriesIn([LEFT, RIGHT]) + EntriesIn([LOW, HIGH]) {
      FilesHold(LEFT, RIGHT, e);
      FilesHold(LOW, HIGH, e);
    }
    assert v[1] == [LEFT, RIGHT] && v[2] == [LOW, HIGH];
  }

  lemma {:induction false} BothInRange()
    ensures InRangeFiles([LOW, HIGH], Some(1.0), Some(9.0)) == [LOW, HIGH]
  {
    SpanFilesValid();
    InRangeTwo(LOW, HIGH, 1.0, 9.0);
  }

  lemma {:induction false} SpanChosen(v: Levels)
    requires v == SpanTree() && ValidLevels(v)
    ensures Chosen(v, 1, [LEFT, RIGHT], [LOW, HIGH])
  {
    SpanFilesValid();
    BothInRange();
    ChosenTwo(v, LEFT, RIGHT, [LOW, HIGH], [LOW, HIGH]);
  }

  lemma {:induction false} SpanDrops(v: Levels, i: nat)
    requires ValidLevels(v) && i < 4
    ensures Drops(v, 3, FOUR, i, 4) <==> i == 1 || i == 3
  {
    assert FOUR[i].key.typ.Value?;
    assert i == 0 || i == 1 || i == 2 || i == 3;
  }

  lemma {:induction false} SpanWritten(v: Levels)
    requires ValidLevels(v)
    ensures Survivors(v, 3, FOUR, |FOUR|, 4) == SPAN.entries
  {
    SpanDrops(v, 0);
    SpanDrops(v, 1);
    SpanDrops(v, 2);
    SpanDrops(v, 3);
    assert Survivors(v, 3, FOUR, 0, 4) == [];
    assert Survivors(v, 3, FOUR, 1, 4) == [FOUR[0]];
    assert Survivors(v, 3, FOUR, 2, 4) == [FOUR[0]];
    assert Survivors(v, 3, FOUR, 3, 4) == [FOUR[0], FOUR[2]];
  }

  function SpanJob(): Job {
    Job(1, [LEFT, RIGHT], [LOW, HIGH], [SPAN], Tree([], [SPAN]))
  }

  function Spanned(): State {
    Db([LEFT, RIGHT], [LOW, HIGH], [], None, 4, [], 4, Past(4))
  }

  lemma {:induction false} SpanParts(s: State, j: Job)
    requires s == Spanned() && ValidLevels(s.v) && j == SpanJob()
    ensures Ready(s.v, j.level, j.in0, j.in1, FOUR) && Chosen(s.v, j.level, j.in0, j.in1)
    ensures s.job.None? && forall i | 0 <= i < |j.outs| :: j.outs[i].number == s.nextFile + i
  {
    SpanReady(s.v);
    SpanChosen(s.v);
  }

  lemma {:induction false} SpanOutputs(s: State, j: Job)
    requires s == Spanned() && ValidLevels(s.v) && j == SpanJob()
    ensures CompactionEffect.Written(s.v, j.level, FOUR, Oldest(s), j.outs)
    ensures Installed(s.v, j.level, j.in0, j.in1, j.outs, j.after) && SortedLevels(j.after)
  {
    SpanWritten(s.v);
    TwoTables(SPAN, SPAN);
    InstalledTree([LEFT, RIGHT], [LOW, HIGH], j.in0, j.in1, j.outs, [], [SPAN]);
    SpanFilesSorted();
    TreeSorted([], [SPAN]);
  }

  /** All of both levels goes in, so nothing can be left behind in the next level. */
  lemma {:induction false} SpanClean(s: State, j: Job)
    requires s == Spanned() && ValidLevels(s.v) && j == SpanJob()
    ensures NothingResurfaces(s, j, FOUR)
  {
    assert LeftBelow(s.v, 1, [LOW, HIGH]) == {} by {
      assert s.v[2] == [LOW, HIGH];
    }
    forall t: Entry ensures Newest({}, t.key.ukey, t.key.sequence).None? {
    }
  }

  function Running(): State {
    Spanned().(nextFile := 5, job := Some(SpanJob()))
  }

  lemma {:induction false} SpanRuns()
    ensures Reached(Running())
  {
    LeftRightWritten(2);
    var s, j := Spanned(), SpanJob();
    ReachedValid(s);
    SpanParts(s, j);
    SpanOutputs(s, j);
    Starts(s, j, FOUR);
    SpanClean(s, j);
    CompactionReaches(s, j, FOUR);
  }

  /** While it runs another memtable is set aside. */
  function Between(): State {
    Running().(imm := Some(BETWEEN.entries), last := 5, history := Past(5))
  }

  lemma {:induction false} BetweenSetAside()
    ensures Reached(Between())
  {
    SpanRuns();
    WriteReaches(Running(), (Value, 5.0, []));
    var t := Running().(mem := BETWEEN.entries, last := 5, history := Past(5));
    assert WriteOne(Running(), (Value, 5.0, [])) == t;
    SwitchReaches(t);
  }

  lemma {:induction false} BetweenGoes()
    requires ValidLevels(SpanTree())
    ensures BETWEEN.Valid() && GoesTo(SpanTree(), BETWEEN, 2)
  {
    SpanFilesValid();
    BetweenClear();
    GoesTo2([LEFT, RIGHT], [LOW, HIGH], BETWEEN);
  }

  lemma {:induction false} BetweenClear()
    ensures ValidFiles([LEFT, RIGHT]) && ValidFiles([LOW, HIGH])
    ensures Clear([LEFT, RIGHT], 5.0, 5.0) && Clear([LOW, HIGH], 5.0, 5.0)
  {
    SpanFilesValid();
  }

  lemma {:induction false} BetweenNotApart()
    ensures !Apart(SPAN, BETWEEN)
  {
    assert BETWEEN.entries[0] in Elements(BETWEEN.entries);
    assert SPAN.entries[0] in Elements(SPAN.entries) && SPAN.entries[1] in Elements(SPAN.entries);
  }

  lemma {:induction false} BetweenTrees()
    ensures Added(SpanTree(), 2, BETWEEN, Tree([LEFT, RIGHT], [LOW, BETWEEN, HIGH]))
    ensures SortedLevels(Tree([LEFT, RIGHT], [LOW, BETWEEN, HIGH]))
    ensures Added(Tree([], [SPAN]), 2, BETWEEN, Tree([], [SPAN, BETWEEN])) && SortedLevels(Tree([], [SPAN, BETWEEN]))
  {
    SpanFilesSorted();
    LowBetweenHigh();
    AddedTree([LEFT, RIGHT], [LOW, HIGH], 2, BETWEEN, [LEFT, RIGHT], [LOW, BETWEEN, HIGH]);
    TreeSorted([LEFT, RIGHT], [LOW, BETWEEN, HIGH]);
    AddedTree([], [SPAN], 2, BETWEEN, [], [SPAN, BETWEEN]);
    TreeSorted([], [SPAN, BETWEEN]);
  }

  lemma {:induction false} LowBetweenHigh()
    ensures SortedFiles([LOW, BETWEEN, HIGH])
  {
  }

  function Flushed(): State {
    Between().(imm := None, v := Tree([LEFT, RIGHT], [LOW, BETWEEN, HIGH]), nextFile := 6,
               job := Some(SpanJob().(after := Tree([], [SPAN, BETWEEN]))))
  }

  lemma {:induction false} BetweenFlushes(s: State)
    requires s == Between() && ValidLevels(s.v)
    ensures FlushStep(s, 2, BETWEEN, Flushed())
  {
    BetweenGoes();
    BetweenTrees();
    WayDownIsFree(s.v, BETWEEN.Smallest().ukey, BETWEEN.Largest().ukey, MAX_GRANDPARENT_OVERLAP, 2);
  }

  lemma {:induction false} SpanFinishes(s: State)
    requires s == Flushed()
    ensures FinishStep(s, s.(v := Tree([], [SPAN, BETWEEN]), job := None))
  {
    InstalledTree([LEFT, RIGHT], [LOW, BETWEEN, HIGH], [LEFT, RIGHT], [LOW, HIGH], [SPAN], [], [SPAN, BETWEEN]);
    BetweenTrees();
  }

  /** Where the search of a level stops, as FindFile's contract says. */
  ghost predicate StopsAt(files: seq<File>, key: InternalKey, r: nat)
    requires ValidFiles(files)
  {
    && r <= |files| && (forall i | 0 <= i < r :: Less(files[i].Largest(), key))
    && (r < |files| ==> !Less(files[r].Largest(), key))
  }

  lemma {:induction false} StopsAtSpan(r: nat)
    requires ValidFiles([SPAN, BETWEEN]) && StopsAt([SPAN, BETWEEN], LookupKey(5.0, 5), r)
    ensures r == 0
  {
    var files := [SPAN, BETWEEN];
    assert files[0] == SPAN && SPAN.Largest() == InternalKey(9.0, 4, Value);
    assert !Less(files[0].Largest(), LookupKey(5.0, 5));
  }

  /** The tree that the compaction leaves. */
  lemma {:induction false} BetweenUnread(w: Levels)
    requires w == Tree([], [SPAN, BETWEEN])
    ensures ValidFiles(w[2]) && !ValidLevels(w) && forall l | 0 <= l < NUM_LEVELS && l != 2 :: w[l] == []
    ensures forall r: nat | StopsAt(w[2], LookupKey(5.0, 5), r) :: r < |w[2]| && forall e | e in w[2][r].entries :: e.key.ukey != 5.0
  {
    SpanFilesValid();
    assert w[2] == [SPAN, BETWEEN];
    var files := w[2];
    assert !Before(files[0].entries[|files[0].entries| - 1], files[1].entries[0]);
    assert !Disjoint(files);
    forall r: nat | StopsAt(w[2], LookupKey(5.0, 5), r) ensures r == 0 {
      StopsAtSpan(r);
    }
    assert forall e | e in SPAN.entries :: e.key.ukey != 5.0;
  }

  lemma {:induction false} BetweenInHistory()
    ensures Read(Past(5), 5.0, 5) == Some([])
  {
    var s := Past(5);
    assert s == {Put(1.0, 1), Put(9.0, 2), Put(1.0, 3), Put(9.0, 4), Put(5.0, 5)};
    assert IsNewest(Put(5.0, 5), s, 5.0, 5);
    NewestIs(Put(5.0, 5), s, 5.0, 5);
  }

  /** A run at whose end the code writes a memtable to the output level of the running compaction,
      between the keys of one of its outputs: the level is picked from a version that has neither.
      Once the compaction is installed the level is not disjoint, and the search for the key that was
      just written stops at a file that does not have it. */
  lemma {:induction false} FlushInterleaves() returns (s: State, f: File, flushed: State, done: State, u: UserKey)
    ensures Reached(s) && ValidLevels(s.v) && f.Valid() && s.job.Some? && |flushed.v| == NUM_LEVELS == |done.v|
    ensures GoesTo(s.v, f, 2) && FlushStep(s, 2, f, flushed) && !ClearOfOutputs(s, 2, f)
    ensures FinishStep(flushed, done) && !ValidLevels(done.v)
    ensures Read(done.history, u, done.last) == Some([]) && done.mem == [] && done.imm.None?
    ensures ValidFiles(done.v[2]) && forall l | 0 <= l < NUM_LEVELS && l != 2 :: done.v[l] == []
    ensures forall r: nat | StopsAt(done.v[2], LookupKey(u, done.last), r) ::
              r < |done.v[2]| && forall e | e in done.v[2][r].entries :: e.key.ukey != u
  {
    s, f, flushed, u := Between(), BETWEEN, Flushed(), 5.0;
    done := flushed.(v := Tree([], [SPAN, BETWEEN]), job := None);
    BetweenSetAside();
    ReachedValid(s);
    BetweenAmongOutputs(s);
    BetweenFlushes(s);
    SpanFinishes(flushed);
    BetweenInHistory();
    BetweenUnread(done.v);
  }

  lemma {:induction false} BetweenAmongOutputs(s: State)
    requires s == Between() && ValidLevels(s.v)
    ensures BETWEEN.Valid() && GoesTo(s.v, BETWEEN, 2) && !ClearOfOutputs(s, 2, BETWEEN)
  {
    BetweenGoes();
    BetweenNotApart();
    assert SPAN in s.job.value.outs;
  }
}
