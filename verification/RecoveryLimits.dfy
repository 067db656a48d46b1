/** Runs on which a write is lost: why Recovery.NeverLost speaks of safe writes, and not of all that
    were synced or flushed. */
module RecoveryLimits {
  import opened Dbformat
  import opened Recovery

  ghost predicate Reaches(s: State, steps: seq<Step>, t: State) {
    Runs(s, steps) && Final(s, steps) == t
  }

  lemma {:induction false} ReachOne(s: State, steps: seq<Step>, t: State, step: Step)
    requires Reaches(s, steps, t) && Enabled(t, step)
    ensures Reaches(s, steps + [step], After(t, step))
    decreases |steps|
  {
    var more := steps + [step];
    if steps == [] {
      assert more[1..] == [];
    } else {
      assert more[1..] == steps[1..] + [step];
      ReachOne(After(s, steps[0]), steps[1..], t, step);
    }
  }

  /** Opening a new database. */
  function OpenRun(): seq<Step> {
    [] + [BeginRecovery] + [CreateLog] + [SaveRecovery] + [CommitRecovery]
  }

  function Opened(): State {
    State(Disk(map[3 := Log([], 0, None, {})], map[], Manifest({}, 3, 4, 0), [], 0, {}, None),
          Up(Open({}, None, {}, None, 3, 4, 0, 3, {}, [], {}, false, NoFlush, NoCompaction, {}, {})))
  }

  lemma {:induction false} Opens()
    ensures Reaches(NewDB(), OpenRun(), Opened())
  {
    var s := NewDB();
    var m := s.disk.manifest;
    assert Seen(s.disk) == m;
    ReachOne(s, [], s, BeginRecovery);
    var a := State(s.disk, Recovering(Opening({}, None, {}, {}, 3, 0, None)));
    assert After(s, BeginRecovery).p.o.todo == {};
    ReachOne(s, [] + [BeginRecovery], a, CreateLog);
    var logs := map[3 := Log([], 0, None, {})];
    var b := State(s.disk.(logs := logs), Recovering(Opening({}, None, {}, {}, 4, 0, Some(3))));
    assert After(a, CreateLog) == b;
    ReachOne(s, [] + [BeginRecovery] + [CreateLog], b, SaveRecovery);
    var c := State(b.disk.(renewed := Some(Manifest({}, 3, 4, 0))), b.p);
    assert Seen(b.disk) == m && m.tables + {} == {};
    assert After(b, SaveRecovery) == c;
    ReachOne(s, [] + [BeginRecovery] + [CreateLog] + [SaveRecovery], c, CommitRecovery);
  }

  const FIRST := Record({Write(0, 2)}, 2)

  /** An append fails, and the next one succeeds and is synced. */
  function TornRun(): seq<Step> {
    OpenRun() + [TornAppend(1)] + [Append(FIRST)] + [SyncLog] + [Accept]
  }

  /** The states of this run: the log damaged at its first record. */
  function Torn(at: nat, records: seq<Record>, present: set<nat>, synced: nat, working: Option<Record>, mem: set<Write>, last: nat): State {
    State(Disk(map[3 := Log(records, synced, Some(at), present)], map[], Manifest({}, 3, 4, 0), [], 0, {}, None),
          Up(Open(mem, None, {}, working, 3, 4, last, 3, {}, [], {}, false, NoFlush, NoCompaction, {}, {})))
  }

  function AfterTorn(): State {
    Torn(0, [FIRST], {0}, 1, None, {Write(0, 2)}, 2)
  }

  lemma {:induction false} TornReaches()
    ensures Reaches(NewDB(), TornRun(), AfterTorn())
  {
    Opens();
    ReachOne(NewDB(), OpenRun(), Opened(), TornAppend(1));
    TornIs();
    ReachOne(NewDB(), OpenRun() + [TornAppend(1)], Torn(0, [], {}, 0, None, {}, 1), Append(FIRST));
    FirstIs();
    ReachOne(NewDB(), OpenRun() + [TornAppend(1)] + [Append(FIRST)], Torn(0, [FIRST], {0}, 0, Some(FIRST), {}, 1), SyncLog);
    SyncedIs();
    ReachOne(NewDB(), OpenRun() + [TornAppend(1)] + [Append(FIRST)] + [SyncLog], Torn(0, [FIRST], {0}, 1, Some(FIRST), {}, 1), Accept);
  }

  lemma {:induction false} TornIs()
    ensures Enabled(Opened(), TornAppend(1)) && After(Opened(), TornAppend(1)) == Torn(0, [], {}, 0, None, {}, 1)
  {
  }

  lemma {:induction false} FirstIs()
    ensures Enabled(Torn(0, [], {}, 0, None, {}, 1), Append(FIRST))
    ensures After(Torn(0, [], {}, 0, None, {}, 1), Append(FIRST)) == Torn(0, [FIRST], {0}, 0, Some(FIRST), {}, 1)
  {
    assert [] + [FIRST] == [FIRST] && {} + {0} == {0};
  }

  lemma {:induction false} SyncedIs()
    ensures var s := Torn(0, [FIRST], {0}, 0, Some(FIRST), {}, 1);
            Enabled(s, SyncLog) && After(s, SyncLog) == Torn(0, [FIRST], {0}, 1, Some(FIRST), {}, 1)
    ensures var s := Torn(0, [FIRST], {0}, 1, Some(FIRST), {}, 1); Enabled(s, Accept) && After(s, Accept) == AfterTorn()
  {
    assert {} + FIRST.writes == {Write(0, 2)};
  }

  /** A failed append leaves the log in use, and a write that is accepted and synced after it is lost
      in a crash that leaves nothing behind the torn record to be read. */
  lemma {:induction false} LostBehindTornAppend()
    ensures Runs(NewDB(), TornRun())
    ensures var s := Final(NewDB(), TornRun());
            && s.p.Up? && !s.p.u.failed && Readable(s.disk, s.p.u, Write(0, 2))
            && InRecord(s.disk.logs, 3, 0, Write(0, 2)) && s.disk.logs[3].synced == 1
            && Enabled(s, Crash(map[3 := {}], 0, {}, false))
            && !Stored(After(s, Crash(map[3 := {}], 0, {}, false)).disk, Write(0, 2))
  {
    TornReaches();
    var s := AfterTorn();
    assert InRecord(s.disk.logs, 3, 0, Write(0, 2));
    assert Seen(After(s, Crash(map[3 := {}], 0, {}, false)).disk) == s.disk.manifest;
  }

  // ---------- a flush behind a failed one ----------

  const BATCH := Record({Write(0, 1), Write(1, 2)}, 2)
  const LATER := Record({Write(2, 3)}, 3)
  const NEWEST := Write(2, 3)

  /** A memtable goes to a table, and a compaction of that table begins. */
  function CompactRun(): seq<Step> {
    OpenRun() + [Append(BATCH)] + [Accept] + [SwitchMemtable] + [StartFlush] + [BuildTable] + [SaveFlush] + [CommitFlush]
    + [StartCompaction({5})]
  }

  /** While it is at work another memtable is set aside; its flush fails to write the edit, and the
      compaction, at its next entry, flushes again. */
  function FlushTwiceRun(): seq<Step> {
    CompactRun() + [Append(LATER)] + [Accept] + [SwitchMemtable]
    + [StartFlush] + [BuildTable] + [SaveFlush] + [Fail]
    + [StartFlush] + [BuildTable] + [SaveFlush] + [CommitFlush]
  }

  /** Appending a record to an undamaged log and accepting it. */
  function Written(s: State, record: Record): State
    requires s.p.Up? && s.p.u.logFile in s.disk.logs
  {
    var l := s.disk.logs[s.p.u.logFile];
    var m := l.(records := l.records + [record], present := l.present + {|l.records|});
    State(s.disk.(logs := s.disk.logs[s.p.u.logFile := m]),
          Up(s.p.u.(mem := s.p.u.mem + record.writes, lastSequence := record.last)))
  }

  lemma {:induction false} WriteReaches(steps: seq<Step>, s: State, record: Record)
    requires Reaches(NewDB(), steps, s) && s.p.Up? && Enabled(s, Append(record))
    ensures Reaches(NewDB(), steps + [Append(record)] + [Accept], Written(s, record))
  {
    ReachOne(NewDB(), steps, s, Append(record));
    ReachOne(NewDB(), steps + [Append(record)], After(s, Append(record)), Accept);
  }

  /** A flush of the memtable set aside, up to the writing of its edit. */
  function Flushing(s: State): State
    requires s.p.Up? && s.p.u.imm.Some?
  {
    var d, u := s.disk, s.p.u;
    State(Saved(d.(tables := d.tables[u.nextFile := u.imm.value]), Edit({u.nextFile}, {}, u.logFile, u.nextFile + 1, u.lastSequence)),
          Up(u.(nextFile := u.nextFile + 1, flush := FlushSaving)))
  }

  lemma {:induction false} FlushReaches(steps: seq<Step>, s: State)
    requires Reaches(NewDB(), steps, s) && s.p.Up? && Enabled(s, StartFlush) && s.p.u.imm.value != {} && s.p.u.pending == {}
    ensures Reaches(NewDB(), steps + [StartFlush] + [BuildTable] + [SaveFlush], Flushing(s))
  {
    var n := s.p.u.nextFile;
    ReachOne(NewDB(), steps, s, StartFlush);
    var a := After(s, StartFlush);
    ReachOne(NewDB(), steps + [StartFlush], a, BuildTable);
    assert s.p.u.pending + {n} - {n} == {};
    var b := After(a, BuildTable);
    ReachOne(NewDB(), steps + [StartFlush] + [BuildTable], b, SaveFlush);
  }

  function Full(): State {
    State(Disk(map[3 := Log([BATCH], 0, None, {0})], map[], Manifest({}, 3, 4, 0), [], 0, {}, None),
          Up(Open(BATCH.writes, None, {}, None, 3, 4, 2, 3, {}, [], {}, false, NoFlush, NoCompaction, {}, {})))
  }

  lemma {:induction false} FullReaches()
    ensures Reaches(NewDB(), OpenRun() + [Append(BATCH)] + [Accept], Full())
  {
    Opens();
    WriteReaches(OpenRun(), Opened(), BATCH);
    assert [] + [BATCH] == [BATCH] && {} + {0} == {0} && {} + BATCH.writes == BATCH.writes;
    assert Written(Opened(), BATCH).disk.logs == Full().disk.logs;
  }

  function Aside(): State {
    State(Disk(map[3 := Log([BATCH], 0, None, {0}), 4 := Log([], 0, None, {})], map[], Manifest({}, 3, 4, 0), [], 0, {}, None),
          Up(Open({}, Some(BATCH.writes), BATCH.writes, None, 4, 5, 2, 3, {}, [], {}, false, NoFlush, NoCompaction, {}, {})))
  }

  lemma {:induction false} AsideReaches()
    ensures Reaches(NewDB(), OpenRun() + [Append(BATCH)] + [Accept] + [SwitchMemtable], Aside())
  {
    FullReaches();
    ReachOne(NewDB(), OpenRun() + [Append(BATCH)] + [Accept], Full(), SwitchMemtable);
    assert After(Full(), SwitchMemtable).disk.logs == Aside().disk.logs;
  }

  /** The first table is firm. */
  function Tabled(): State {
    State(Disk(map[3 := Log([BATCH], 0, None, {0}), 4 := Log([], 0, None, {})], map[5 := BATCH.writes], Manifest({5}, 4, 6, 2), [], 0, {}, None),
          Up(Open({}, None, BATCH.writes, None, 4, 6, 2, 4, {5}, [], {}, false, NoFlush, NoCompaction, {}, {})))
  }

  lemma {:induction false} TabledReaches()
    ensures Reaches(NewDB(), OpenRun() + [Append(BATCH)] + [Accept] + [SwitchMemtable] + [StartFlush] + [BuildTable] + [SaveFlush]
                             + [CommitFlush], Tabled())
  {
    AsideReaches();
    var steps := OpenRun() + [Append(BATCH)] + [Accept] + [SwitchMemtable];
    FlushReaches(steps, Aside());
    var s := Flushing(Aside());
    ReachOne(NewDB(), steps + [StartFlush] + [BuildTable] + [SaveFlush], s, CommitFlush);
    FirstCommit();
  }

  lemma {:induction false} FirstCommit()
    ensures Enabled(Flushing(Aside()), CommitFlush) && After(Flushing(Aside()), CommitFlush) == Tabled()
  {
    assert ({} - {}) + {5} == {5};
    var s := Flushing(Aside());
    assert s.disk.doubt == [Doubt(Edit({5}, {}, 4, 6, 2), false)];
    assert s.disk.tables == map[5 := BATCH.writes];
  }

  function Compacting(): State {
    Tabled().(p := Up(Tabled().p.u.(compaction := Running({5}, {}))))
  }

  lemma {:induction false} CompactingReaches()
    ensures Reaches(NewDB(), CompactRun(), Compacting())
  {
    TabledReaches();
    ReachOne(NewDB(), OpenRun() + [Append(BATCH)] + [Accept] + [SwitchMemtable] + [StartFlush] + [BuildTable] + [SaveFlush]
                      + [CommitFlush], Tabled(), StartCompaction({5}));
  }

  /** The compaction at work, and the second memtable set aside. */
  function Waiting(tables: map<nat, set<Write>>, doubt: seq<Doubt>, nextFile: nat, failed: bool, flush: Flush): State {
    State(Disk(map[3 := Log([BATCH], 0, None, {0}), 4 := Log([LATER], 0, None, {0}), 6 := Log([], 0, None, {})],
               tables, Manifest({5}, 4, 6, 2), doubt, |doubt|, {}, None),
          Up(Open({}, Some({NEWEST}), {NEWEST}, None, 6, nextFile, 3, 4, {5}, [], {}, failed, flush, Running({5}, {}), {}, {})))
  }

  lemma {:induction false} WaitingReaches()
    ensures Reaches(NewDB(), CompactRun() + [Append(LATER)] + [Accept] + [SwitchMemtable],
                    Waiting(map[5 := BATCH.writes], [], 7, false, NoFlush))
  {
    CompactingReaches();
    WriteReaches(CompactRun(), Compacting(), LATER);
    var s := Written(Compacting(), LATER);
    ReachOne(NewDB(), CompactRun() + [Append(LATER)] + [Accept], s, SwitchMemtable);
    LaterWritten();
  }

  lemma {:induction false} LaterWritten()
    ensures Enabled(Written(Compacting(), LATER), SwitchMemtable)
    ensures After(Written(Compacting(), LATER), SwitchMemtable) == Waiting(map[5 := BATCH.writes], [], 7, false, NoFlush)
  {
    assert [] + [LATER] == [LATER] && {} + {0} == {0} && {} + LATER.writes == {NEWEST};
    assert After(Written(Compacting(), LATER), SwitchMemtable).disk.logs == Waiting(map[5 := BATCH.writes], [], 7, false, NoFlush).disk.logs;
  }

  function FirstEdit(): Edit { Edit({7}, {}, 6, 8, 3) }

  function SecondEdit(): Edit { Edit({8}, {}, 6, 9, 3) }

  function Failed(): State {
    Waiting(map[5 := BATCH.writes, 7 := {NEWEST}], [Doubt(FirstEdit(), false)], 8, true, NoFlush)
  }

  lemma {:induction false} FailedReaches()
    ensures Reaches(NewDB(), CompactRun() + [Append(LATER)] + [Accept] + [SwitchMemtable]
                             + [StartFlush] + [BuildTable] + [SaveFlush] + [Fail], Failed())
  {
    WaitingReaches();
    var steps, s := CompactRun() + [Append(LATER)] + [Accept] + [SwitchMemtable], Waiting(map[5 := BATCH.writes], [], 7, false, NoFlush);
    FlushReaches(steps, s);
    ReachOne(NewDB(), steps + [StartFlush] + [BuildTable] + [SaveFlush], Flushing(s), Fail);
    assert map[5 := BATCH.writes][7 := {NEWEST}] == map[5 := BATCH.writes, 7 := {NEWEST}];
    assert [] + [Doubt(FirstEdit(), false)] == [Doubt(FirstEdit(), false)];
    assert After(Flushing(s), Fail) == Failed();
  }

  function FlushedTwice(): State {
    var doubt := [Doubt(FirstEdit(), false), Doubt(SecondEdit(), true)];
    State(Disk(Failed().disk.logs, map[5 := BATCH.writes, 7 := {NEWEST}, 8 := {NEWEST}], Manifest({5}, 4, 6, 2), doubt, 2, {}, None),
          Up(Open({}, None, {NEWEST}, None, 6, 9, 3, 6, {5, 8}, [], {}, true, NoFlush, Running({5}, {}), {}, {})))
  }

  lemma {:induction false} FlushTwiceReaches()
    ensures Reaches(NewDB(), FlushTwiceRun(), FlushedTwice())
  {
    FailedReaches();
    var steps := CompactRun() + [Append(LATER)] + [Accept] + [SwitchMemtable] + [StartFlush] + [BuildTable] + [SaveFlush] + [Fail];
    FlushReaches(steps, Failed());
    ReachOne(NewDB(), steps + [StartFlush] + [BuildTable] + [SaveFlush], Flushing(Failed()), CommitFlush);
    SecondCommit();
  }

  lemma {:induction false} SecondCommit()
    ensures Enabled(Flushing(Failed()), CommitFlush) && After(Flushing(Failed()), CommitFlush) == FlushedTwice()
  {
    var s := Flushing(Failed());
    assert s.disk.doubt == [Doubt(FirstEdit(), false), Doubt(SecondEdit(), false)];
    assert s.disk.tables == map[5 := BATCH.writes, 7 := {NEWEST}, 8 := {NEWEST}];
    assert ({5} - {}) + {8} == {5, 8};
  }

  /** The crash that takes all that is not firm. */
  function Worst(): Step {
    Crash(map[3 := {}, 4 := {}, 6 := {}], 0, {}, false)
  }

  lemma {:induction false} WorstPossible(s: State)
    requires s == FlushedTwice()
    ensures Enabled(s, Worst()) && InTables(s.disk.tables, s.p.u.current, NEWEST)
    ensures var c := After(s, Worst()).disk;
            && c.manifest == s.disk.manifest && c.upto == 0 && c.dropped == {} && c.tables == s.disk.tables
            && forall n | n in c.logs :: c.logs[n].present == {}
  {
    assert InTable(s.disk.tables, 8, NEWEST);
    assert forall n | n in s.disk.logs :: Firm(s.disk.logs[n]) == 0;
  }

  /** The manifest is read without the edits in doubt, and no log has a record. */
  lemma {:induction false} WorstLoses(c: Disk)
    requires c.manifest == Manifest({5}, 4, 6, 2) && c.upto == 0 && c.dropped == {} && c.tables == FlushedTwice().disk.tables
    requires forall n | n in c.logs :: c.logs[n].present == {}
    ensures SeenOk(c) && !Stored(c, NEWEST)
  {
    assert Seen(c) == c.manifest;
    assert c.tables[5] == BATCH.writes;
  }

  /** After a failed manifest write a second flush is written, synced and taken into use, and yet a
      crash may leave a manifest that is read only up to the failed write: what the flush saved and no
      log has on disk is lost. */
  lemma {:induction false} LostAfterFailedSave()
    ensures Runs(NewDB(), FlushTwiceRun())
    ensures var s := Final(NewDB(), FlushTwiceRun());
            && s.p.Up? && s.p.u.imm.None? && InTables(s.disk.tables, s.p.u.current, NEWEST)
            && |s.disk.doubt| == 2 && s.disk.doubt[1].ok
            && Enabled(s, Worst()) && !Stored(After(s, Worst()).disk, NEWEST)
  {
    FlushTwiceReaches();
    WorstPossible(FlushedTwice());
    WorstLoses(After(FlushedTwice(), Worst()).disk);
  }
}
