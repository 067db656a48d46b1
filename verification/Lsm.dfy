/** The store as a state machine: writes, snapshots, memtable flushes and compactions, and what
    its readers see over whole runs (db/db_impl.cc). A compaction may be running while memtables
    are written out: its outputs are fixed by the version it started from, and installed later. */
module Lsm {
  import opened Dbformat
  import opened Version
  import opened VersionBuilder
  import opened CompactionInputs
  import opened CompactionCuts
  import opened Compaction
  import opened CompactionEffect
  import opened TreeInvariant

  /** A running compaction, and the tree that installing it now would give. */
  datatype Job = Job(level: nat, in0: seq<File>, in1: seq<File>, outs: seq<File>, after: Levels)

  datatype State = State(
    mem: seq<Entry>, imm: Option<seq<Entry>>, v: Levels, last: nat, snapshots: seq<nat>,
    nextFile: nat, job: Option<Job>,
    history: set<Entry> /* everything ever written */)

  type Batch = seq<(ValueType, UserKey, Bytes)>

  function Frozen(s: State): seq<Entry> {
    match s.imm case Some(es) => es case None => []
  }

  ghost function Stored(s: State): set<Entry>
    requires |s.v| == NUM_LEVELS
  {
    Contents(s.mem, Frozen(s), s.v)
  }

  /** The snapshot a compaction started now may forget versions before. */
  function Oldest(s: State): nat {
    if s.snapshots == [] then s.last else s.snapshots[0]
  }

  // ---------- steps ----------

  datatype Step =
    | Write(batch: Batch)
    | Skip(n: nat) /* a group that failed takes its sequence numbers all the same */
    | SwitchMem
    | Flush(p: nat, f: File)
    | DropEmpty
    | StartCompaction(j: Job, input: seq<Entry>)
    | FinishCompaction
    | AbandonCompaction
    | TrivialMove(from: nat, moved: File)
    | GetSnapshot
    | ReleaseSnapshot(i: nat)

  /** The memtable keeps its entries in order. */
  function MemInsert(es: seq<Entry>, e: Entry): seq<Entry> {
    if es == [] || Before(e, es[0]) then [e] + es else [es[0]] + MemInsert(es[1..], e)
  }

  function WriteOne(s: State, op: (ValueType, UserKey, Bytes)): State {
    var e := Entry(InternalKey(op.1, s.last + 1, op.0), op.2);
    s.(mem := MemInsert(s.mem, e), last := s.last + 1, history := s.history + {e})
  }

  /** A batch takes consecutive sequence numbers. */
  function WriteAll(s: State, batch: Batch): State {
    if batch == [] then s else WriteOne(WriteAll(s, batch[..|batch| - 1]), batch[|batch| - 1])
  }

  ghost predicate FlushStep(s: State, p: nat, f: File, s': State)
    requires |s.v| == NUM_LEVELS
  {
    && s.imm.Some? && f.entries == s.imm.value && f.entries != [] && f.number == s.nextFile && p < NUM_LEVELS
    && f.Valid() && (p > 0 ==> NoOverlapUpTo(s.v, p, f))
    && Added(s.v, p, f, s'.v) && SortedLevels(s'.v)
    && (s.job.Some? ==> s'.job.Some? && |s.job.value.after| == NUM_LEVELS
                        && Added(s.job.value.after, p, f, s'.job.value.after) && SortedLevels(s'.job.value.after)
                        && s'.job == Some(s.job.value.(after := s'.job.value.after)))
    && s' == s.(imm := None, v := s'.v, nextFile := s.nextFile + 1, job := if s.job.Some? then s'.job else None)
  }

  /** A memtable must not go where the running compaction is about to write around it. */
  ghost predicate ClearOfOutputs(s: State, p: nat, f: File) {
    s.job.Some? && p > 0 && p == s.job.value.level + 1 ==> forall o | o in s.job.value.outs :: Apart(o, f)
  }

  ghost predicate StartStep(s: State, j: Job, input: seq<Entry>, s': State)
  {
    && s.job.None?
    && Ready(s.v, j.level, j.in0, j.in1, input) && Chosen(s.v, j.level, j.in0, j.in1)
    && Written(s.v, j.level, input, Oldest(s), j.outs)
    && (forall i | 0 <= i < |j.outs| :: j.outs[i].number == s.nextFile + i)
    && Installed(s.v, j.level, j.in0, j.in1, j.outs, j.after) && SortedLevels(j.after)
    && s' == s.(nextFile := s.nextFile + |j.outs|, job := Some(j))
  }

  /** No dropped marker leaves an older value behind in the next level. */
  ghost predicate NothingResurfaces(s: State, j: Job, input: seq<Entry>)
    requires ValidLevels(s.v) && j.level + 1 < NUM_LEVELS
  {
    forall t :: !Resurfaces(t, Stored(s), Dropped(s.v, j.level, input, Oldest(s)), LeftBelow(s.v, j.level, j.in1), Oldest(s))
  }

  ghost predicate FinishStep(s: State, s': State)
    requires |s.v| == NUM_LEVELS
  {
    && s.job.Some? && s.job.value.level + 1 < NUM_LEVELS
    && Installed(s.v, s.job.value.level, s.job.value.in0, s.job.value.in1, s.job.value.outs, s'.v) && SortedLevels(s'.v)
    && s' == s.(v := s'.v, job := None)
  }

  ghost predicate MoveStep(s: State, level: nat, f: File, s': State)
    requires ValidLevels(s.v)
  {
    && s.job.None? && level + 1 < NUM_LEVELS && f in s.v[level]
    && Complete(s.v, level, [f]) && NextLevelInputs(s.v, level, [f], [])
    && Installed(s.v, level, [f], [], [f], s'.v) && SortedLevels(s'.v)
    && s' == s.(v := s'.v)
  }

  /** What the code may do. */
  ghost predicate MayStep(s: State, step: Step, s': State)
    requires ValidLevels(s.v)
  {
    match step
    case Write(batch) => s.last + |batch| < MAX_SEQUENCE && s' == WriteAll(s, batch)
    case Skip(n) => s.last + n < MAX_SEQUENCE && s' == s.(last := s.last + n)
    case SwitchMem => s.imm.None? && s' == s.(imm := Some(s.mem), mem := [])
    case Flush(p, f) => FlushStep(s, p, f, s')
    case DropEmpty => s.imm == Some([]) && s' == s.(imm := None, nextFile := s.nextFile + 1)
    case StartCompaction(j, input) => StartStep(s, j, input, s')
    case FinishCompaction => FinishStep(s, s')
    case AbandonCompaction => s' == s.(job := None)
    case TrivialMove(level, f) => MoveStep(s, level, f, s')
    case GetSnapshot => s' == s.(snapshots := s.snapshots + [s.last])
    case ReleaseSnapshot(i) => i < |s.snapshots| && s' == s.(snapshots := s.snapshots[..i] + s.snapshots[i + 1..])
  }

  /** What it does not check: two conditions without which a step does harm. */
  ghost predicate Guarded(s: State, step: Step)
    requires ValidLevels(s.v)
  {
    match step
    case Flush(p, f) => ClearOfOutputs(s, p, f)
    case StartCompaction(j, input) => j.level + 1 < NUM_LEVELS && NothingResurfaces(s, j, input)
    case _ => true
  }

  ghost predicate Next(s: State, step: Step, s': State)
    requires ValidLevels(s.v)
  {
    MayStep(s, step, s') && Guarded(s, step)
  }

  // ---------- the invariant ----------

  ghost predicate Numbered(v: Levels, next: nat) {
    && |v| == NUM_LEVELS
    && (forall l, f | 0 <= l < NUM_LEVELS && f in v[l] :: f.number < next)
    && forall l, m, f, g | 0 <= l < NUM_LEVELS && 0 <= m < NUM_LEVELS && f in v[l] && g in v[m] && f.number == g.number ::
         l == m && f == g
  }

  /** Every snapshot still in use reads from `stored` what it would read from all of `history`. */
  ghost predicate Faithful(stored: set<Entry>, history: set<Entry>, oldest: nat) {
    forall u, snap: nat | snap >= oldest :: Read(stored, u, snap) == Read(history, u, snap)
  }

  ghost predicate Until(s: set<Entry>, last: nat) {
    forall e | e in s :: e.key.sequence <= last
  }

  /** The layers as they are with tree `v`. */
  ghost predicate Sound(mem: seq<Entry>, imm: seq<Entry>, v: Levels, last: nat, next: nat, history: set<Entry>, oldest: nat) {
    && ValidLayers(mem, imm, v) && SortedLevels(v) && Numbered(v, next)
    && Until(Contents(mem, imm, v), last) && Faithful(Contents(mem, imm, v), history, oldest)
  }

  /** The job's inputs are still in the tree. */
  ghost predicate JobFits(v: Levels, next: nat, j: Job) {
    && |v| == NUM_LEVELS && j.level + 1 < NUM_LEVELS && |j.after| == NUM_LEVELS
    && Installed(v, j.level, j.in0, j.in1, j.outs, j.after)
    && EntriesIn(j.outs) <= EntriesIn(v[j.level]) + EntriesIn(v[j.level + 1])
    && forall f | f in j.in0 || f in j.in1 || f in j.outs :: f.number < next
  }

  ghost predicate SnapshotsInv(snapshots: seq<nat>, last: nat) {
    && (forall i, j | 0 <= i < j < |snapshots| :: snapshots[i] <= snapshots[j])
    && forall i | 0 <= i < |snapshots| :: snapshots[i] <= last
  }

  ghost predicate Inv(s: State) {
    && Sound(s.mem, Frozen(s), s.v, s.last, s.nextFile, s.history, Oldest(s))
    && s.last < MAX_SEQUENCE && SnapshotsInv(s.snapshots, s.last)
    && Unambiguous(s.history) && Until(s.history, s.last)
    && (s.job.Some? ==> && JobFits(s.v, s.nextFile, s.job.value)
                        && Sound(s.mem, Frozen(s), s.job.value.after, s.last, s.nextFile, s.history, Oldest(s)))
  }

  // ---------- writes ----------

  lemma {:induction false} MemInsertIs(es: seq<Entry>, e: Entry)
    requires Ordered(es) && forall d | d in es :: d.key.sequence < e.key.sequence
    ensures Ordered(MemInsert(es, e)) && Elements(MemInsert(es, e)) == Elements(es) + {e}
  {
    if es != [] && !Before(e, es[0]) {
      var rest := MemInsert(es[1..], e);
      MemInsertIs(es[1..], e);
      assert forall i | 0 <= i < |es| - 1 :: es[1..][i] == es[i + 1];
      forall j | 0 <= j < |rest| ensures Before(es[0], rest[j]) {
        assert rest[j] in Elements(rest);
        assert rest[j] != e ==> rest[j] in es[1..];
      }
      assert es == [es[0]] + es[1..];
      assert MemInsert(es, e) == [es[0]] + rest;
      assert forall x :: x in MemInsert(es, e) <==> x == es[0] || x in rest;
      assert forall x :: x in rest <==> x in Elements(rest);
    }
  }

  /** The newest entry of all answers for its own user key, and changes nothing else. */
  lemma {:induction false} AddNewest(s: set<Entry>, e: Entry, u: UserKey, snap: nat)
    requires Unambiguous(s) && forall d | d in s :: d.key.sequence < e.key.sequence
    ensures Unambiguous(s + {e})
    ensures Read(s + {e}, u, snap) ==
            if Visible(e, u, snap) then ValueOf(Some(e)) else Read(s, u, snap)
  {
    if Visible(e, u, snap) {
      assert IsNewest(e, s + {e}, u, snap);
      NewestIs(e, s + {e}, u, snap);
    } else {
      NewestNone(s, u, snap);
      NewestNone(s + {e}, u, snap);
      if d :| IsNewest(d, s, u, snap) {
        assert IsNewest(d, s + {e}, u, snap);
        NewestIs(d, s, u, snap);
        NewestIs(d, s + {e}, u, snap);
      }
    }
  }

  lemma {:induction false} WriteSound(s: State, e: Entry, v: Levels)
    requires Sound(s.mem, Frozen(s), v, s.last, s.nextFile, s.history, Oldest(s))
    requires Unambiguous(s.history) && Until(s.history, s.last) && e.key.sequence == s.last + 1
    ensures Sound(MemInsert(s.mem, e), Frozen(s), v, s.last + 1, s.nextFile, s.history + {e}, Oldest(s))
  {
    var was, imm := Contents(s.mem, Frozen(s), v), Frozen(s);
    assert Elements(s.mem) <= was;
    MemInsertIs(s.mem, e);
    assert Contents(MemInsert(s.mem, e), imm, v) == was + {e};
    ContentsUnambiguous(s.mem, imm, v);
    forall u, snap: nat | snap >= Oldest(s) ensures Read(was + {e}, u, snap) == Read(s.history + {e}, u, snap) {
      AddNewest(was, e, u, snap);
      AddNewest(s.history, e, u, snap);
    }
  }

  lemma {:induction false} WriteOneKeeps(s: State, op: (ValueType, UserKey, Bytes))
    requires Inv(s) && s.last + 1 < MAX_SEQUENCE
    ensures Inv(WriteOne(s, op))
  {
    var s' := WriteOne(s, op);
    var e := Entry(InternalKey(op.1, s.last + 1, op.0), op.2);
    assert Frozen(s') == Frozen(s);
    assert Oldest(s) <= Oldest(s') && SnapshotsInv(s'.snapshots, s'.last);
    WriteSound(s, e, s.v);
    SoundLater(s'.mem, Frozen(s'), s'.v, s'.last, s'.nextFile, s'.history, Oldest(s), Oldest(s'));
    AddNewest(s.history, e, 0.0, 0);
    if s.job.Some? {
      WriteSound(s, e, s.job.value.after);
      SoundLater(s'.mem, Frozen(s'), s.job.value.after, s'.last, s'.nextFile, s'.history, Oldest(s), Oldest(s'));
    }
  }

  lemma {:induction false} SoundLater(mem: seq<Entry>, imm: seq<Entry>, v: Levels, last: nat, next: nat,
                                      history: set<Entry>, oldest: nat, later: nat)
    requires Sound(mem, imm, v, last, next, history, oldest) && oldest <= later
    ensures Sound(mem, imm, v, last, next, history, later)
  {
  }

  lemma {:induction false} WriteKeeps(s: State, batch: Batch)
    requires Inv(s) && s.last + |batch| < MAX_SEQUENCE
    ensures Inv(WriteAll(s, batch)) && WriteAll(s, batch).last == s.last + |batch|
    ensures s.history <= WriteAll(s, batch).history
    ensures forall e | e in WriteAll(s, batch).history && e !in s.history :: e.key.sequence > s.last
  {
    if batch != [] {
      WriteKeeps(s, batch[..|batch| - 1]);
      WriteOneKeeps(WriteAll(s, batch[..|batch| - 1]), batch[|batch| - 1]);
    }
  }

  lemma {:induction false} MoreNumbers(mem: seq<Entry>, imm: seq<Entry>, v: Levels, last: nat, next: nat, more: nat,
                                       history: set<Entry>, oldest: nat)
    requires Sound(mem, imm, v, last, next, history, oldest) && next <= more
    ensures Sound(mem, imm, v, last, more, history, oldest)
  {
    assert Numbered(v, more);
  }

  // ---------- flushes ----------

  lemma {:induction false} SwitchSound(mem: seq<Entry>, v: Levels, last: nat, next: nat, history: set<Entry>, oldest: nat)
    requires Sound(mem, [], v, last, next, history, oldest)
    ensures Sound([], mem, v, last, next, history, oldest)
  {
    assert Contents([], mem, v) == Contents(mem, [], v);
  }

  lemma {:induction false} SwitchKeeps(s: State, s': State)
    requires Inv(s) && s.imm.None? && s' == s.(imm := Some(s.mem), mem := [])
    ensures Inv(s')
  {
    SwitchSound(s.mem, s.v, s.last, s.nextFile, s.history, Oldest(s));
    if s.job.Some? {
      SwitchSound(s.mem, s.job.value.after, s.last, s.nextFile, s.history, Oldest(s));
    }
  }

  lemma {:induction false} AddedNumbered(v: Levels, next: nat, p: nat, f: File, w: Levels)
    requires Numbered(v, next) && p < NUM_LEVELS && Added(v, p, f, w) && f.number == next
    ensures Numbered(w, next + 1)
  {
    forall l, g | 0 <= l < NUM_LEVELS && g in w[l] ensures if g == f then l == p else g in v[l] {
      assert g in w[l] <==> g in v[l] || (l == p && g == f);
    }
  }

  lemma {:induction false} FlushLayers(mem: seq<Entry>, v: Levels, p: nat, f: File, w: Levels)
    requires ValidLayers(mem, f.entries, v) && f.Valid() && p < NUM_LEVELS && forall g | g in v[0] :: g.number < f.number
    requires Added(v, p, f, w) && SortedLevels(w) && (p > 0 ==> Fits(v, p, f))
    ensures ValidLayers(mem, [], w) && Contents(mem, [], w) == Contents(mem, f.entries, v)
  {
    FlushIntoFitting(v, p, f, w);
    AddedBelow(v, p, f, w);
  }

  lemma {:induction false} FlushSound(mem: seq<Entry>, v: Levels, p: nat, f: File, w: Levels, last: nat,
                                      history: set<Entry>, oldest: nat)
    requires Sound(mem, f.entries, v, last, f.number, history, oldest)
    requires f.Valid() && p < NUM_LEVELS
    requires Added(v, p, f, w) && SortedLevels(w) && (p > 0 ==> Fits(v, p, f))
    ensures Sound(mem, [], w, last, f.number + 1, history, oldest)
  {
    FlushLayers(mem, v, p, f, w);
    AddedNumbered(v, f.number, p, f, w);
  }

  lemma {:induction false} NoKeysAbove(v: Levels, j: Job, p: nat, f: File)
    requires |v| == NUM_LEVELS && |j.after| == NUM_LEVELS && j.level + 1 < NUM_LEVELS && p < NUM_LEVELS
    requires Installed(v, j.level, j.in0, j.in1, j.outs, j.after)
    requires EntriesIn(j.outs) <= EntriesIn(v[j.level]) + EntriesIn(v[j.level + 1])
    requires forall l, x, y | 0 <= l <= p && x in EntriesIn(v[l]) && y in f.entries :: x.key.ukey != y.key.ukey
    ensures forall l, x, y | 0 <= l < p && x in EntriesIn(j.after[l]) && y in f.entries :: x.key.ukey != y.key.ukey
  {
    forall l, x, y | 0 <= l < p && x in EntriesIn(j.after[l]) && y in f.entries ensures x.key.ukey != y.key.ukey {
      var g :| g in j.after[l] && x in g.entries;
      InstalledAt(v, j.level, j.in0, j.in1, j.outs, j.after, l, g);
      if g in v[l] {
        assert x in EntriesIn(v[l]);
      } else {
        assert x in EntriesIn(j.outs);
      }
    }
  }

  lemma {:induction false} ApartAfter(v: Levels, j: Job, p: nat, f: File)
    requires |v| == NUM_LEVELS && |j.after| == NUM_LEVELS && j.level + 1 < NUM_LEVELS && p < NUM_LEVELS
    requires Installed(v, j.level, j.in0, j.in1, j.outs, j.after)
    requires forall g | g in v[p] :: Apart(g, f)
    ensures (forall g | g in j.after[p] :: Apart(g, f)) <==> (p == j.level + 1 ==> forall o | o in j.outs :: Apart(o, f))
  {
    forall g: File ensures g in j.after[p] <==> InstalledFile(v, j.level, j.in0, j.in1, j.outs, p, g) {
      InstalledAt(v, j.level, j.in0, j.in1, j.outs, j.after, p, g);
    }
  }

  /** Where the memtable goes suits the tree the running compaction will leave exactly when it is
      clear of its outputs. */
  lemma {:induction false} FitsAfter(s: State, p: nat, f: File)
    requires s.job.Some? && JobFits(s.v, s.nextFile, s.job.value)
    requires ValidLevels(s.v) && 0 < p < NUM_LEVELS && f.Valid() && NoOverlapUpTo(s.v, p, f)
    ensures forall l, x, y | 0 <= l < p && x in EntriesIn(s.job.value.after[l]) && y in f.entries :: x.key.ukey != y.key.ukey
    ensures Fits(s.job.value.after, p, f) <==> ClearOfOutputs(s, p, f)
  {
    PickedLevelFits(s.v, p, f);
    NoKeysAbove(s.v, s.job.value, p, f);
    ApartAfter(s.v, s.job.value, p, f);
  }

  lemma {:induction false} FlushKeeps(s: State, p: nat, f: File, s': State)
    requires Inv(s) && FlushStep(s, p, f, s') && ClearOfOutputs(s, p, f)
    ensures Inv(s')
  {
    if p > 0 {
      PickedLevelFits(s.v, p, f);
    }
    FlushSound(s.mem, s.v, p, f, s'.v, s.last, s.history, Oldest(s));
    if s.job.Some? {
      if p > 0 {
        FitsAfter(s, p, f);
      }
      FlushSound(s.mem, s.job.value.after, p, f, s'.job.value.after, s.last, s.history, Oldest(s));
      FlushKeepsJob(s.v, s.nextFile, p, f, s'.v, s.job.value, s'.job.value.after);
    }
  }

  lemma {:induction false} EntriesGrow(a: seq<File>, b: seq<File>)
    requires forall f | f in a :: f in b
    ensures EntriesIn(a) <= EntriesIn(b)
  {
    forall e | e in EntriesIn(a) ensures e in EntriesIn(b) {
      var f :| f in a && e in f.entries;
      assert f in b;
    }
  }

  /** The files of one level after an installation. */
  lemma {:induction false} InstalledAt(v: Levels, level: nat, in0: seq<File>, in1: seq<File>, outs: seq<File>, w: Levels,
                                       l: nat, g: File)
    requires |v| == NUM_LEVELS && level + 1 < NUM_LEVELS && Installed(v, level, in0, in1, outs, w) && l < NUM_LEVELS
    ensures g in w[l] <==> InstalledFile(v, level, in0, in1, outs, l, g)
  {
  }

  predicate InstalledFile(v: Levels, level: nat, in0: seq<File>, in1: seq<File>, outs: seq<File>, l: nat, g: File)
    requires l < |v|
  {
    if l == level then g in v[l] && g !in in0
    else if l == level + 1 then (g in v[l] && g !in in1) || g in outs
    else g in v[l]
  }

  lemma {:induction false} FlushKeepsJob(v: Levels, next: nat, p: nat, f: File, w: Levels, j: Job, after: Levels)
    requires JobFits(v, next, j) && p < NUM_LEVELS && f.number == next && Added(v, p, f, w) && Added(j.after, p, f, after)
    ensures JobFits(w, next + 1, j.(after := after))
  {
    EntriesGrow(v[j.level], w[j.level]);
    EntriesGrow(v[j.level + 1], w[j.level + 1]);
    FlushCommutes(v, p, f, w, j, after);
  }

  /** Installing after the memtable was written is writing the memtable after installing. */
  lemma {:induction false} FlushCommutes(v: Levels, p: nat, f: File, w: Levels, j: Job, after: Levels)
    requires |v| == NUM_LEVELS && |j.after| == NUM_LEVELS && p < NUM_LEVELS && j.level + 1 < NUM_LEVELS
    requires Installed(v, j.level, j.in0, j.in1, j.outs, j.after)
    requires f !in j.in0 && f !in j.in1
    requires Added(v, p, f, w) && Added(j.after, p, f, after)
    ensures Installed(w, j.level, j.in0, j.in1, j.outs, after)
  {
    forall l, g | 0 <= l < NUM_LEVELS ensures g in after[l] <==> InstalledFile(w, j.level, j.in0, j.in1, j.outs, l, g) {
      InstalledAt(v, j.level, j.in0, j.in1, j.outs, j.after, l, g);
      assert g in w[l] <==> g in v[l] || (l == p && g == f);
      assert g in after[l] <==> g in j.after[l] || (l == p && g == f);
    }
  }

  // ---------- compactions ----------

  lemma {:induction false} NumbersInstalled(v: Levels, next: nat, level: nat, in0: seq<File>, in1: seq<File>,
                                            outs: seq<File>, w: Levels)
    requires Numbered(v, next) && level + 1 < NUM_LEVELS && Installed(v, level, in0, in1, outs, w)
    requires forall i | 0 <= i < |outs| :: outs[i].number == next + i
    ensures Numbered(w, next + |outs|)
  {
    forall l, f | 0 <= l < NUM_LEVELS && f in w[l]
      ensures f.number < next + |outs| && (f.number < next ==> f in v[l])
      ensures f.number >= next ==> l == level + 1 && f == outs[f.number - next]
    {
      if l == level + 1 && f in outs {
        var i :| 0 <= i < |outs| && outs[i] == f;
      } else {
        assert f in v[l];
      }
    }
  }

  /** The tree a compaction leaves is as good to read from as the one it started on. */
  lemma {:induction false} StartSound(s: State, j: Job, input: seq<Entry>, s': State)
    requires Sound(s.mem, Frozen(s), s.v, s.last, s.nextFile, s.history, Oldest(s)) && Oldest(s) < MAX_SEQUENCE
    requires StartStep(s, j, input, s') && NothingResurfaces(s, j, input)
    ensures Sound(s.mem, Frozen(s), j.after, s.last, s.nextFile + |j.outs|, s.history, Oldest(s))
  {
    StartLayers(s.mem, Frozen(s), s.v, j, input, Oldest(s));
    NumbersInstalled(s.v, s.nextFile, j.level, j.in0, j.in1, j.outs, j.after);
    StartFaithful(s, j, input);
    assert Until(Contents(s.mem, Frozen(s), j.after), s.last);
  }

  lemma {:induction false} StartLayers(mem: seq<Entry>, imm: seq<Entry>, v: Levels, j: Job, input: seq<Entry>, oldest: nat)
    requires ValidLayers(mem, imm, v) && Ready(v, j.level, j.in0, j.in1, input) && Chosen(v, j.level, j.in0, j.in1)
    requires Written(v, j.level, input, oldest, j.outs)
    requires Installed(v, j.level, j.in0, j.in1, j.outs, j.after) && SortedLevels(j.after)
    ensures ValidLayers(mem, imm, j.after) && Contents(mem, imm, j.after) <= Contents(mem, imm, v)
  {
    WrittenIsCut(v, j.level, input, oldest, j.outs);
    InstallKeepsLevels(v, j.level, j.in0, j.in1, input, j.outs, j.after);
    RemovesDropped(v, j.level, j.in0, j.in1, input, oldest, j.outs, j.after);
    LayersShrink(mem, imm, v, j.after);
  }

  lemma {:induction false} LayersShrink(mem: seq<Entry>, imm: seq<Entry>, v: Levels, w: Levels)
    requires ValidLayers(mem, imm, v) && ValidLevels(w) && Below(w, 0) <= Below(v, 0)
    ensures ValidLayers(mem, imm, w) && Contents(mem, imm, w) <= Contents(mem, imm, v)
  {
  }

  lemma {:induction false} StartFaithful(s: State, j: Job, input: seq<Entry>)
    requires ValidLayers(s.mem, Frozen(s), s.v) && Faithful(Stored(s), s.history, Oldest(s)) && Oldest(s) < MAX_SEQUENCE
    requires Ready(s.v, j.level, j.in0, j.in1, input) && Chosen(s.v, j.level, j.in0, j.in1)
    requires Written(s.v, j.level, input, Oldest(s), j.outs)
    requires Installed(s.v, j.level, j.in0, j.in1, j.outs, j.after) && NothingResurfaces(s, j, input)
    ensures Faithful(Contents(s.mem, Frozen(s), j.after), s.history, Oldest(s))
  {
    InvisibleExactlyWhen(s.mem, Frozen(s), s.v, j.level, j.in0, j.in1, input, Oldest(s), j.outs, j.after);
  }

  lemma {:induction false} StartKeeps(s: State, j: Job, input: seq<Entry>, s': State)
    requires Inv(s) && StartStep(s, j, input, s') && NothingResurfaces(s, j, input)
    ensures Inv(s')
  {
    StartSound(s, j, input, s');
    StartJob(s, j, input);
    JobFitsIs(s.v, s'.nextFile, j);
    JobStarted(s, j, s'.nextFile);
  }

  lemma {:induction false} JobStarted(s: State, j: Job, more: nat)
    requires Inv(s) && s.job.None? && s.nextFile <= more && JobFits(s.v, more, j)
    requires Sound(s.mem, Frozen(s), j.after, s.last, more, s.history, Oldest(s))
    ensures Inv(s.(nextFile := more, job := Some(j)))
  {
    var s' := s.(nextFile := more, job := Some(j));
    assert Oldest(s') == Oldest(s) && Frozen(s') == Frozen(s);
    MoreNumbers(s.mem, Frozen(s), s.v, s.last, s.nextFile, more, s.history, Oldest(s));
  }

  lemma {:induction false} JobFitsIs(v: Levels, next: nat, j: Job)
    requires |v| == NUM_LEVELS && j.level + 1 < NUM_LEVELS && |j.after| == NUM_LEVELS
    requires Installed(v, j.level, j.in0, j.in1, j.outs, j.after)
    requires EntriesIn(j.outs) <= EntriesIn(v[j.level]) + EntriesIn(v[j.level + 1])
    requires forall f | f in j.in0 || f in j.in1 || f in j.outs :: f.number < next
    ensures JobFits(v, next, j)
  {
  }

  lemma {:induction false} StartJob(s: State, j: Job, input: seq<Entry>)
    requires Numbered(s.v, s.nextFile) && Ready(s.v, j.level, j.in0, j.in1, input)
    requires Written(s.v, j.level, input, Oldest(s), j.outs)
    requires forall i | 0 <= i < |j.outs| :: j.outs[i].number == s.nextFile + i
    ensures EntriesIn(j.outs) <= EntriesIn(s.v[j.level]) + EntriesIn(s.v[j.level + 1])
    ensures forall f | f in j.in0 || f in j.in1 || f in j.outs :: f.number < s.nextFile + |j.outs|
  {
    EntriesGrow(j.in0, s.v[j.level]);
    EntriesGrow(j.in1, s.v[j.level + 1]);
    WrittenIsCut(s.v, j.level, input, Oldest(s), j.outs);
    InputBounded(s.v, j.level, j.in0, j.in1, input);
    CutFiles(j.outs, input);
  }

  lemma {:induction false} SameFilesSameTree(v: Levels, level: nat, in0: seq<File>, in1: seq<File>, outs: seq<File>,
                                             a: Levels, b: Levels)
    requires |v| == NUM_LEVELS && level + 1 < NUM_LEVELS && SortedLevels(a) && SortedLevels(b)
    requires Installed(v, level, in0, in1, outs, a) && Installed(v, level, in0, in1, outs, b)
    ensures a == b
  {
    forall l | 0 <= l < NUM_LEVELS ensures FileSet(a[l]) == FileSet(b[l]) {
      forall f: File ensures f in a[l] <==> f in b[l] {
        InstalledAt(v, level, in0, in1, outs, a, l, f);
        InstalledAt(v, level, in0, in1, outs, b, l, f);
      }
    }
    LevelsDetermined(a, b);
  }

  lemma {:induction false} FinishKeeps(s: State, s': State)
    requires Inv(s) && FinishStep(s, s')
    ensures Inv(s')
  {
    var j := s.job.value;
    SameFilesSameTree(s.v, j.level, j.in0, j.in1, j.outs, j.after, s'.v);
  }

  lemma {:induction false} MovedBelow(v: Levels, level: nat, f: File, w: Levels)
    requires |v| == NUM_LEVELS && level + 1 < NUM_LEVELS && f in v[level] && Installed(v, level, [f], [], [f], w)
    ensures Below(w, 0) == Below(v, 0)
  {
    forall e: Entry ensures e in Below(w, 0) <==> e in Below(v, 0) {
      if e in Below(w, 0) {
        BelowAre(w, 0, e);
        var l: nat :| l < NUM_LEVELS && e in EntriesIn(w[l]);
        var g :| g in w[l] && e in g.entries;
        InstalledAt(v, level, [f], [], [f], w, l, g);
        InBelow(v, if g in v[l] then l else level, g, e);
      } else if e in Below(v, 0) {
        BelowAre(v, 0, e);
        var l: nat :| l < NUM_LEVELS && e in EntriesIn(v[l]);
        var g :| g in v[l] && e in g.entries;
        InstalledAt(v, level, [f], [], [f], w, l, g);
        InstalledAt(v, level, [f], [], [f], w, level + 1, f);
        InBelow(w, if g in w[l] then l else level + 1, g, e);
      }
    }
  }

  /** A move is the compaction of one file into itself. */
  lemma {:induction false} MoveIsCut(f: File)
    requires f.Valid()
    ensures EntriesIn([f]) == Elements(f.entries) && EntriesIn([]) == {}
    ensures CutFrom([f], f.entries)
  {
    assert Tables([f])[..0] == [] && Tables([f])[0] == f.entries;
    assert Concat(Tables([f])) == f.entries;
  }

  lemma {:induction false} MoveReady(v: Levels, level: nat, f: File)
    requires ValidLevels(v) && level + 1 < NUM_LEVELS && f in v[level] && f.Valid()
    ensures Ready(v, level, [f], [], f.entries)
  {
    MoveIsCut(f);
    assert Elements(f.entries) == EntriesIn([f]) + EntriesIn([]);
  }

  lemma {:induction false} MoveKeepsLevels(v: Levels, level: nat, f: File, w: Levels)
    requires ValidLevels(v) && level + 1 < NUM_LEVELS && f in v[level] && f.Valid()
    requires Complete(v, level, [f]) && NextLevelInputs(v, level, [f], [])
    requires Installed(v, level, [f], [], [f], w) && SortedLevels(w)
    ensures ValidLevels(w)
  {
    MoveReady(v, level, f);
    MoveIsCut(f);
    InstallKeepsLevels(v, level, [f], [], f.entries, [f], w);
  }

  lemma {:induction false} MoveSound(mem: seq<Entry>, imm: seq<Entry>, v: Levels, last: nat, next: nat,
                                     history: set<Entry>, oldest: nat, w: Levels)
    requires Sound(mem, imm, v, last, next, history, oldest)
    requires ValidLevels(w) && SortedLevels(w) && Below(w, 0) == Below(v, 0) && Numbered(w, next)
    ensures Sound(mem, imm, w, last, next, history, oldest)
  {
    LayersShrink(mem, imm, v, w);
    assert Contents(mem, imm, w) == Contents(mem, imm, v);
  }

  lemma {:induction false} MoveTree(v: Levels, next: nat, level: nat, f: File, w: Levels)
    requires ValidLevels(v) && Numbered(v, next) && level + 1 < NUM_LEVELS && f in v[level]
    requires Complete(v, level, [f]) && NextLevelInputs(v, level, [f], [])
    requires Installed(v, level, [f], [], [f], w) && SortedLevels(w)
    ensures ValidLevels(w) && Below(w, 0) == Below(v, 0) && Numbered(w, next)
  {
    assert [f][0].Valid();
    MoveKeepsLevels(v, level, f, w);
    MovedBelow(v, level, f, w);
    MoveNumbers(v, next, level, f, w);
  }

  lemma {:induction false} TreeReplaced(s: State, w: Levels)
    requires Inv(s) && s.job.None?
    requires ValidLevels(w) && SortedLevels(w) && Below(w, 0) == Below(s.v, 0) && Numbered(w, s.nextFile)
    ensures Inv(s.(v := w))
  {
    MoveSound(s.mem, Frozen(s), s.v, s.last, s.nextFile, s.history, Oldest(s), w);
  }

  lemma {:induction false} MoveKeeps(s: State, level: nat, f: File, s': State)
    requires Inv(s) && MoveStep(s, level, f, s')
    ensures Inv(s')
  {
    MoveTree(s.v, s.nextFile, level, f, s'.v);
    TreeReplaced(s, s'.v);
  }

  lemma {:induction false} MoveNumbers(v: Levels, next: nat, level: nat, f: File, w: Levels)
    requires Numbered(v, next) && level + 1 < NUM_LEVELS && f in v[level] && Installed(v, level, [f], [], [f], w)
    ensures Numbered(w, next)
  {
    forall l, g | 0 <= l < NUM_LEVELS && g in w[l]
      ensures if g == f then l == level + 1 else g in v[l]
      ensures g in v[l] || g in v[level]
    {
      InstalledAt(v, level, [f], [], [f], w, l, g);
    }
  }

  // ---------- snapshots ----------

  lemma {:induction false} SnapshotsLater(s: State, step: Step, s': State)
    requires SnapshotsInv(s.snapshots, s.last) && ValidLevels(s.v)
    requires (step.GetSnapshot? || step.ReleaseSnapshot?) && Next(s, step, s')
    ensures s' == s.(snapshots := s'.snapshots) && SnapshotsInv(s'.snapshots, s.last) && Oldest(s') >= Oldest(s)
  {
  }

  lemma {:induction false} SnapshotKeeps(s: State, step: Step, s': State)
    requires Inv(s) && (step.GetSnapshot? || step.ReleaseSnapshot?) && Next(s, step, s')
    ensures Inv(s') && Oldest(s') >= Oldest(s)
  {
    SnapshotsLater(s, step, s');
    SoundLater(s.mem, Frozen(s), s.v, s.last, s.nextFile, s.history, Oldest(s), Oldest(s'));
    if s.job.Some? {
      SoundLater(s.mem, Frozen(s), s.job.value.after, s.last, s.nextFile, s.history, Oldest(s), Oldest(s'));
    }
  }

  // ---------- every step ----------

  lemma {:induction false} DropEmptyKeeps(s: State, s': State)
    requires Inv(s) && s.imm == Some([]) && s' == s.(imm := None, nextFile := s.nextFile + 1)
    ensures Inv(s')
  {
    MoreNumbers(s.mem, [], s.v, s.last, s.nextFile, s.nextFile + 1, s.history, Oldest(s));
    if s.job.Some? {
      MoreNumbers(s.mem, [], s.job.value.after, s.last, s.nextFile, s.nextFile + 1, s.history, Oldest(s));
    }
  }

  lemma {:induction false} MoreSequences(mem: seq<Entry>, imm: seq<Entry>, v: Levels, last: nat, more: nat, next: nat,
                                         history: set<Entry>, oldest: nat, later: nat)
    requires Sound(mem, imm, v, last, next, history, oldest) && last <= more && oldest <= later
    ensures Sound(mem, imm, v, more, next, history, later)
  {
  }

  lemma {:induction false} SkipKeeps(s: State, n: nat)
    requires Inv(s) && s.last + n < MAX_SEQUENCE
    ensures Inv(s.(last := s.last + n))
  {
    var t := s.(last := s.last + n);
    MoreSequences(s.mem, Frozen(s), s.v, s.last, t.last, s.nextFile, s.history, Oldest(s), Oldest(t));
    if s.job.Some? {
      MoreSequences(s.mem, Frozen(s), s.job.value.after, s.last, t.last, s.nextFile, s.history, Oldest(s), Oldest(t));
    }
  }

  lemma {:induction false} AbandonKeeps(s: State, s': State)
    requires Inv(s) && s' == s.(job := None)
    ensures Inv(s')
  {
  }

  /** Every step keeps the invariant. */
  lemma {:induction false} StepKeeps(s: State, step: Step, s': State)
    requires Inv(s) && Next(s, step, s')
    ensures Inv(s')
  {
    if CompactionStep(step) {
      CompactionStepKeeps(s, step, s');
    } else {
      WriterStepKeeps(s, step, s');
    }
  }

  predicate CompactionStep(step: Step) {
    step.StartCompaction? || step.FinishCompaction? || step.AbandonCompaction? || step.TrivialMove?
  }

  lemma {:induction false} CompactionStepKeeps(s: State, step: Step, s': State)
    requires Inv(s) && Next(s, step, s') && CompactionStep(step)
    ensures Inv(s')
  {
    match step
    case StartCompaction(j, input) => StartKeeps(s, j, input, s');
    case FinishCompaction => FinishKeeps(s, s');
    case AbandonCompaction => AbandonKeeps(s, s');
    case TrivialMove(level, f) => MoveKeeps(s, level, f, s');
  }

  lemma {:induction false} WriterStepKeeps(s: State, step: Step, s': State)
    requires Inv(s) && Next(s, step, s') && !CompactionStep(step)
    ensures Inv(s')
  {
    match step
    case Write(batch) => WriteKeeps(s, batch);
    case Skip(n) => SkipKeeps(s, n);
    case SwitchMem => SwitchKeeps(s, s');
    case Flush(p, f) => FlushKeeps(s, p, f, s');
    case DropEmpty => DropEmptyKeeps(s, s');
    case GetSnapshot => SnapshotKeeps(s, step, s');
    case ReleaseSnapshot(i) => SnapshotKeeps(s, step, s');
  }

  /** History only grows, by newer entries. */
  lemma {:induction false} HistoryGrows(s: State, step: Step, s': State)
    requires Inv(s) && Next(s, step, s')
    ensures s.last <= s'.last && s.history <= s'.history
    ensures forall e | e in s'.history && e !in s.history :: e.key.sequence > s.last
  {
    if step.Write? {
      WriteKeeps(s, step.batch);
    }
  }

  // ---------- whole runs ----------

  function Start(): State {
    State([], None, seq(NUM_LEVELS, _ => []), 0, [], 0, None, {})
  }

  lemma {:induction false} StartInv()
    ensures Inv(Start())
  {
    var s := Start();
    EmptySound(s.mem, Frozen(s), s.v, s.last, s.nextFile, s.history, Oldest(s));
  }

  ghost predicate EmptyTree(v: Levels) {
    |v| == NUM_LEVELS && forall l | 0 <= l < |v| :: v[l] == []
  }

  lemma {:induction false} EmptyBelow(v: Levels)
    requires EmptyTree(v)
    ensures Below(v, 0) == {}
  {
    forall e: Entry ensures e !in Below(v, 0) {
      BelowAre(v, 0, e);
    }
  }

  lemma {:induction false} EmptyLevels(v: Levels)
    requires EmptyTree(v)
    ensures ValidLevels(v)
  {
  }

  lemma {:induction false} EmptySound(mem: seq<Entry>, imm: seq<Entry>, v: Levels, last: nat, next: nat, history: set<Entry>, oldest: nat)
    requires mem == [] && imm == [] && EmptyTree(v) && history == {}
    ensures Sound(mem, imm, v, last, next, history, oldest)
  {
    EmptyLevels(v);
    EmptyBelow(v);
    assert Contents(mem, imm, v) == history;
  }

  ghost predicate StepAt(states: seq<State>, steps: seq<Step>, i: nat)
    requires |states| == |steps| + 1 && i < |steps|
  {
    ValidLevels(states[i].v) && Next(states[i], steps[i], states[i + 1])
  }

  ghost predicate IsRun(states: seq<State>, steps: seq<Step>) {
    && |states| == |steps| + 1 && states[0] == Start()
    && forall i | 0 <= i < |steps| :: StepAt(states, steps, i)
  }

  lemma {:induction false} SameStepAt(states: seq<State>, steps: seq<Step>, more: seq<State>, all: seq<Step>, i: nat)
    requires |states| == |steps| + 1 && i < |steps| && StepAt(states, steps, i)
    requires |more| == |all| + 1 && i < |all| && more[i] == states[i] && more[i + 1] == states[i + 1] && all[i] == steps[i]
    ensures StepAt(more, all, i)
  {
  }

  /** A run goes on by one more step. */
  lemma {:induction false} RunOn(states: seq<State>, steps: seq<Step>, step: Step, s': State)
    requires IsRun(states, steps) && ValidLevels(states[|steps|].v) && Next(states[|steps|], step, s')
    ensures IsRun(states + [s'], steps + [step])
  {
    var more, all := states + [s'], steps + [step];
    forall i | 0 <= i < |all| ensures StepAt(more, all, i) {
      if i < |steps| {
        SameStepAt(states, steps, more, all, i);
      } else {
        assert more[i] == states[i] && more[i + 1] == s' && all[i] == step;
      }
    }
  }

  /** In every reachable state, a read at any snapshot still in use returns what it would return
      from everything ever written. */
  lemma {:induction false} RunsAreFaithful(states: seq<State>, steps: seq<Step>, i: nat)
    requires IsRun(states, steps) && i < |states|
    ensures Inv(states[i])
    ensures forall u, snap: nat | snap >= Oldest(states[i]) ::
              Read(Stored(states[i]), u, snap) == Read(states[i].history, u, snap)
    decreases i
  {
    if i == 0 {
      StartInv();
    } else {
      RunsAreFaithful(states, steps, i - 1);
      assert StepAt(states, steps, i - 1);
      StepKeeps(states[i - 1], steps[i - 1], states[i]);
    }
  }

  lemma {:induction false} NewerUnseen(s: set<Entry>, more: set<Entry>, u: UserKey, snap: nat)
    requires s <= more && Unambiguous(more) && forall e | e in more && e !in s :: e.key.sequence > snap
    ensures Read(more, u, snap) == Read(s, u, snap)
  {
    forall e ensures IsNewest(e, s, u, snap) <==> IsNewest(e, more, u, snap) {
    }
    NewestNone(s, u, snap);
    NewestNone(more, u, snap);
    if e :| IsNewest(e, more, u, snap) {
      NewestIs(e, more, u, snap);
      NewestIs(e, s, u, snap);
    }
  }

  /** Nothing is forgotten, and what was added since is newer. */
  ghost predicate Extends(s: State, s': State) {
    && s.last <= s'.last && s.history <= s'.history
    && forall e | e in s'.history && e !in s.history :: e.key.sequence > s.last
  }

  lemma {:induction false} StepExtends(states: seq<State>, steps: seq<Step>, i: nat)
    requires IsRun(states, steps) && i < |steps|
    ensures Extends(states[i], states[i + 1])
  {
    RunsAreFaithful(states, steps, i);
    assert StepAt(states, steps, i);
    HistoryGrows(states[i], steps[i], states[i + 1]);
  }

  lemma {:induction false} ExtendsTransitive(a: State, b: State, c: State)
    requires Extends(a, b) && Extends(b, c)
    ensures Extends(a, c)
  {
  }

  lemma {:induction false} HistoryOnlyGrows(states: seq<State>, steps: seq<Step>, i: nat, j: nat)
    requires IsRun(states, steps) && i <= j < |states|
    ensures Extends(states[i], states[j])
  {
    forall k | i <= k < j ensures Extends(states[k], states[k + 1]) {
      StepExtends(states, steps, k);
    }
    ExtendsAlong(states, i, j);
  }

  lemma {:induction false} ExtendsAlong(states: seq<State>, i: nat, j: nat)
    requires i <= j < |states| && forall k | i <= k < j :: Extends(states[k], states[k + 1])
    ensures Extends(states[i], states[j])
    decreases j
  {
    if i < j {
      ExtendsAlong(states, i, j - 1);
      ExtendsTransitive(states[i], states[j - 1], states[j]);
    }
  }

  /** Repeatable reads: whatever writes, flushes and compactions happen in between, a snapshot
      reads the same as long as it is in use. */
  lemma {:induction false} SnapshotStable(states: seq<State>, steps: seq<Step>, i: nat, j: nat, u: UserKey, snap: nat)
    requires IsRun(states, steps) && i <= j < |states|
    requires Oldest(states[i]) <= snap <= states[i].last && Oldest(states[j]) <= snap
    ensures |states[i].v| == NUM_LEVELS == |states[j].v|
    ensures Read(Stored(states[j]), u, snap) == Read(Stored(states[i]), u, snap)
  {
    RunsAreFaithful(states, steps, i);
    RunsAreFaithful(states, steps, j);
    HistoryOnlyGrows(states, steps, i, j);
    NewerUnseen(states[i].history, states[j].history, u, snap);
  }

  /** What a batch leaves of user key `u`: the last operation on it decides. */
  function Overlay(batch: Batch, u: UserKey, before: Option<Bytes>): Option<Bytes> {
    if batch == [] then before
    else
      var op := batch[|batch| - 1];
      if op.1 == u then if op.0.Value? then Some(op.2) else None
      else Overlay(batch[..|batch| - 1], u, before)
  }

  /** A batch is read back as a whole: later operations over earlier ones over what was there. */
  lemma {:induction false} ReadsBatch(s: State, batch: Batch, u: UserKey)
    requires Inv(s) && s.last + |batch| < MAX_SEQUENCE
    ensures var s' := WriteAll(s, batch);
            |s'.v| == NUM_LEVELS && Read(Stored(s'), u, s'.last) == Overlay(batch, u, Read(Stored(s), u, s.last))
  {
    if batch != [] {
      var init, op := batch[..|batch| - 1], batch[|batch| - 1];
      ReadsBatch(s, init, u);
      WriteKeeps(s, init);
      ReadsOne(WriteAll(s, init), op, u);
    }
  }

  lemma {:induction false} ReadsHistory(s: State, u: UserKey)
    requires Inv(s)
    ensures |s.v| == NUM_LEVELS && Read(Stored(s), u, s.last) == Read(s.history, u, s.last)
    ensures Unambiguous(s.history) && Until(s.history, s.last)
  {
  }

  lemma {:induction false} ReadsOne(s: State, op: (ValueType, UserKey, Bytes), u: UserKey)
    requires Inv(s) && s.last + 1 < MAX_SEQUENCE
    ensures var s' := WriteOne(s, op);
            |s'.v| == NUM_LEVELS && Read(Stored(s'), u, s'.last) ==
            if op.1 == u then if op.0.Value? then Some(op.2) else None else Read(Stored(s), u, s.last)
  {
    WriteOneKeeps(s, op);
    ReadsHistory(s, u);
    ReadsHistory(WriteOne(s, op), u);
    HistoryOne(s.history, s.last, op, u);
  }

  lemma {:induction false} HistoryOne(history: set<Entry>, last: nat, op: (ValueType, UserKey, Bytes), u: UserKey)
    requires Unambiguous(history) && Until(history, last)
    ensures Read(history + {Entry(InternalKey(op.1, last + 1, op.0), op.2)}, u, last + 1) ==
            if op.1 == u then if op.0.Value? then Some(op.2) else None else Read(history, u, last)
  {
    AddNewest(history, Entry(InternalKey(op.1, last + 1, op.0), op.2), u, last + 1);
    SameAtLast(history, u, last);
  }

  lemma {:induction false} SameAtLast(s: set<Entry>, u: UserKey, last: nat)
    requires Unambiguous(s) && Until(s, last)
    ensures Read(s, u, last + 1) == Read(s, u, last)
  {
    forall e ensures IsNewest(e, s, u, last) <==> IsNewest(e, s, u, last + 1) {
    }
    NewestNone(s, u, last);
    NewestNone(s, u, last + 1);
  }

  /** A memtable written out during a compaction, at the level the code picks for it, leaves the
      tree fit for lookups once the compaction is installed exactly when it is clear of the outputs. */
  lemma {:induction false} FlushDuringCompaction(s: State, p: nat, f: File, s': State)
    requires Inv(s) && s.job.Some? && FlushStep(s, p, f, s')
    ensures ValidLevels(s'.job.value.after) <==> ClearOfOutputs(s, p, f)
  {
    var after := s.job.value.after;
    if p > 0 {
      FitsAfter(s, p, f);
    }
    assert f !in after[p];
    FlushKeepsLevels(after, p, f, s'.job.value.after);
  }

  // ---------- without the two conditions ----------

  lemma {:induction false} FlushNeedsClear(s: State, p: nat, f: File, s': State)
    requires Inv(s) && FlushStep(s, p, f, s') && Inv(s')
    ensures ClearOfOutputs(s, p, f)
  {
    if s.job.Some? {
      FlushDuringCompaction(s, p, f, s');
    }
  }

  lemma {:induction false} StartNeedsNothing(s: State, j: Job, input: seq<Entry>, s': State)
    requires Inv(s) && StartStep(s, j, input, s') && Inv(s')
    ensures NothingResurfaces(s, j, input)
  {
    forall u, snap: nat | snap >= Oldest(s)
      ensures Read(Contents(s.mem, Frozen(s), j.after), u, snap) == Read(Contents(s.mem, Frozen(s), s.v), u, snap)
    {
      assert Read(Contents(s.mem, Frozen(s), j.after), u, snap) == Read(s.history, u, snap);
    }
    InvisibleExactlyWhen(s.mem, Frozen(s), s.v, j.level, j.in0, j.in1, input, Oldest(s), j.outs, j.after);
  }

  /** A step that the code may make keeps the invariant exactly when it meets its condition. */
  lemma {:induction false} StepIsExact(s: State, step: Step, s': State)
    requires Inv(s) && MayStep(s, step, s')
    ensures Inv(s') <==> Guarded(s, step)
  {
    if Guarded(s, step) {
      StepKeeps(s, step, s');
    } else if Inv(s') {
      match step {
        case Flush(p, f) => FlushNeedsClear(s, p, f, s');
        case StartCompaction(j, input) => StartNeedsNothing(s, j, input, s');
        case _ =>
      }
    }
  }

  /** A run of the code, whether or not it meets the conditions. */
  ghost predicate IsFreeRun(states: seq<State>, steps: seq<Step>) {
    && |states| == |steps| + 1
    && if steps == [] then states[0] == Start()
       else
         var n := |steps| - 1;
         IsFreeRun(states[..n + 1], steps[..n]) && ValidLevels(states[n].v) && MayStep(states[n], steps[n], states[n + 1])
  }

  /** The run meets the conditions at every step. */
  ghost predicate AllGuarded(states: seq<State>, steps: seq<Step>)
    requires IsFreeRun(states, steps)
  {
    steps == [] ||
      (var n := |steps| - 1; AllGuarded(states[..n + 1], steps[..n]) && Guarded(states[n], steps[n]))
  }

  ghost predicate AllSound(states: seq<State>) {
    states == [] || (AllSound(states[..|states| - 1]) && Inv(states[|states| - 1]))
  }

  lemma {:induction false} SoundAt(states: seq<State>, i: nat)
    requires AllSound(states) && i < |states|
    ensures Inv(states[i])
    decreases |states|
  {
    if i < |states| - 1 {
      SoundAt(states[..|states| - 1], i);
    }
  }

  lemma {:induction false} FirstSound(states: seq<State>)
    requires |states| == 1 && states[0] == Start()
    ensures AllSound(states)
  {
    StartInv();
    assert states[..0] == [];
  }

  lemma {:induction false} LastIsExact(states: seq<State>, steps: seq<Step>, n: nat)
    requires |states| == n + 2 && AllSound(states[..n + 1]) && n < |steps|
    requires ValidLevels(states[n].v) && MayStep(states[n], steps[n], states[n + 1])
    ensures Inv(states[n + 1]) <==> Guarded(states[n], steps[n])
  {
    SoundAt(states[..n + 1], n);
    StepIsExact(states[n], steps[n], states[n + 1]);
  }

  /** Every state of a run is sound exactly when every step met its condition. */
  lemma {:induction false} RunsAreExact(states: seq<State>, steps: seq<Step>)
    requires IsFreeRun(states, steps)
    ensures AllSound(states) <==> AllGuarded(states, steps)
    decreases |steps|
  {
    if steps == [] {
      FirstSound(states);
    } else {
      var n := |steps| - 1;
      RunsAreExact(states[..n + 1], steps[..n]);
      if AllSound(states[..n + 1]) {
        LastIsExact(states, steps, n);
      }
    }
  }
}
