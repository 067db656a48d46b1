/** Logs, tables and the manifest over whole runs with crashes (db/db_impl.cc, db/version_set.cc).

    A write is appended to a log, maybe synced, then inserted into the memtable; a full memtable is
    set aside, written to a table and dropped together with its logs by one manifest edit; tables are
    compacted; obsolete files are deleted; appends and manifest writes fail; and at any step the
    process may die and reopen.

    A table is represented by the writes whose effect it carries, a manifest by the result of
    replaying it: VersionBuilder.dfy and Lsm.dfy are about those two. */
module Recovery {
  import opened Dbformat

  /** One operation of a write batch, distinct from every other ever written. */
  datatype Write = Write(id: nat, sequence: nat)

  /** A write batch in the log, with the last sequence number it takes. */
  datatype Record = Record(writes: set<Write>, last: nat)

  /** A log file. The first `synced` records were on disk when Sync returned; what follows the first
      failed append, at `damaged`, may be unreadable; `present` are the records a reader finds now. */
  datatype Log = Log(records: seq<Record>, synced: nat, damaged: Option<nat>, present: set<nat>)

  datatype Manifest = Manifest(tables: set<nat>, logNumber: nat, nextFile: nat, lastSequence: nat)

  datatype Edit = Edit(added: set<nat>, deleted: set<nat>, logNumber: nat, nextFile: nat, lastSequence: nat)

  /** An edit behind the firm part of the manifest; `ok` says that writing it succeeded. */
  datatype Doubt = Doubt(edit: Edit, ok: bool)

  /** `manifest` is what the firm part of the current manifest file says. Of the edits in doubt a
      reader finds the first `upto`, without those `dropped`. `renewed` is a new manifest file that
      may or may not have become the current one. */
  datatype Disk = Disk(
    logs: map<nat, Log>,
    tables: map<nat, set<Write>>,
    manifest: Manifest,
    doubt: seq<Doubt>,
    upto: nat,
    dropped: set<nat>,
    renewed: Option<Manifest>)

  datatype Flush = NoFlush | Building(number: nat) | Built(added: set<nat>) | FlushSaving

  datatype Compaction = NoCompaction | Running(inputs: set<nat>, outputs: set<nat>) | CompactionSaving(outputs: set<nat>)

  /** The state of an open database: DBImpl and its VersionSet. `aside` is the memtable last set
      aside, kept in mind after it was dropped. */
  datatype Open = Open(
    mem: set<Write>,
    imm: Option<set<Write>>,
    aside: set<Write>,
    working: Option<Record>,
    logFile: nat,
    nextFile: nat,
    lastSequence: nat,
    logNumber: nat,
    current: set<nat>,
    held: seq<set<nat>>,
    pending: set<nat>,
    failed: bool,
    flush: Flush,
    compaction: Compaction,
    doomedLogs: set<nat>,
    doomedTables: set<nat>)

  /** Opening: the logs still to read, the one being read, and what was found so far. */
  datatype Opening = Opening(
    todo: set<nat>,
    reading: Option<(nat, nat)>,
    mem: set<Write>,
    added: set<nat>,
    nextFile: nat,
    lastSequence: nat,
    newLog: Option<nat>)

  datatype Process = Down | Recovering(o: Opening) | Up(u: Open)

  datatype State = State(disk: Disk, p: Process)

  // ---------- what a crash may leave ----------

  /** The records of a log that every crash leaves readable: synced, and before any failed append. */
  function Firm(l: Log): nat {
    if l.damaged.Some? && l.damaged.value < l.synced then l.damaged.value else l.synced
  }

  function Apply(m: Manifest, e: Edit): Manifest {
    Manifest((m.tables - e.deleted) + e.added, e.logNumber, e.nextFile, e.lastSequence)
  }

  /** The manifest that a reader of the first `n` edits in doubt ends with, when it does not find
      those in `dropped`. */
  function View(m: Manifest, doubt: seq<Doubt>, n: nat, dropped: set<nat>): Manifest
    requires n <= |doubt|
  {
    if n == 0 then m
    else if n - 1 in dropped then View(m, doubt, n - 1, dropped)
    else Apply(View(m, doubt, n - 1, dropped), doubt[n - 1].edit)
  }

  /** The edits whose write failed: of such a write nothing at all may be in the file, and then the
      reader passes over it to what follows. */
  function Failures(doubt: seq<Doubt>): set<nat> {
    set i | 0 <= i < |doubt| && !doubt[i].ok
  }

  predicate SeenOk(d: Disk) {
    d.upto <= |d.doubt| && d.dropped <= Failures(d.doubt)
  }

  /** What a reader of the current manifest file finds now. */
  function Seen(d: Disk): Manifest
    requires SeenOk(d)
  {
    View(d.manifest, d.doubt, d.upto, d.dropped)
  }

  /** A crash may cut the edits a reader finds at `n`, and lose those of `dropped` whose write failed. */
  predicate MayBeCut(d: Disk, n: nat, dropped: set<nat>) {
    n <= d.upto <= |d.doubt| && d.dropped <= dropped && dropped <= Failures(d.doubt)
  }

  /** The manifests that a crash may leave. */
  ghost predicate Candidate(d: Disk, m: Manifest) {
    || d.renewed == Some(m)
    || exists n: nat, dropped {:trigger MayBeCut(d, n, dropped)} ::
         MayBeCut(d, n, dropped) && m == View(d.manifest, d.doubt, n, dropped)
  }

  // ---------- where writes are ----------

  predicate InTable(tables: map<nat, set<Write>>, n: nat, e: Write) {
    n in tables && e in tables[n]
  }

  ghost predicate InTables(tables: map<nat, set<Write>>, names: set<nat>, e: Write) {
    exists n :: n in names && InTable(tables, n, e)
  }

  ghost predicate Holds(tables: map<nat, set<Write>>, names: set<nat>, writes: set<Write>) {
    forall e | e in writes :: InTables(tables, names, e)
  }

  predicate InRecord(logs: map<nat, Log>, n: nat, i: nat, e: Write) {
    n in logs && i < |logs[n].records| && i in logs[n].present && e in logs[n].records[i].writes
  }

  ghost predicate InLogs(logs: map<nat, Log>, from: nat, e: Write) {
    exists n: nat, i: nat {:trigger InRecord(logs, n, i, e)} :: n >= from && InRecord(logs, n, i, e)
  }

  /** In a firm record of a log numbered from `from` on. */
  ghost predicate InFirm(logs: map<nat, Log>, from: nat, e: Write) {
    exists n: nat, i: nat {:trigger InRecord(logs, n, i, e)} :: n >= from && InRecord(logs, n, i, e) && i < Firm(logs[n])
  }

  /** In a firm record of a log numbered from `from` up to `to`. */
  ghost predicate InFirmRange(logs: map<nat, Log>, from: nat, to: int, e: Write) {
    exists n: nat, i: nat {:trigger InRecord(logs, n, i, e)} :: from <= n <= to && InRecord(logs, n, i, e) && i < Firm(logs[n])
  }

  /** What a recovery from this disk restores. */
  ghost predicate Stored(d: Disk, e: Write)
    requires SeenOk(d)
  {
    InTables(d.tables, Seen(d).tables, e) || InLogs(d.logs, Seen(d).logNumber, e)
  }

  predicate InMemory(u: Open, e: Write) {
    e in u.mem || (u.imm.Some? && e in u.imm.value)
  }

  /** What a reader of the open database finds. */
  ghost predicate Readable(d: Disk, u: Open, e: Write) {
    InMemory(u, e) || InTables(d.tables, u.current, e)
  }

  /** Accepted and in a firm record: in the memtable and its log, or set aside and in an older log
      that the firm part of the manifest still calls for. */
  ghost predicate SafeInMemory(d: Disk, u: Open, e: Write) {
    || (e in u.mem && InFirmRange(d.logs, u.logFile, u.logFile, e))
    || (e in u.aside && InFirmRange(d.logs, d.manifest.logNumber, u.logFile - 1, e))
  }

  /** Whatever manifest a crash leaves, the write is in a table of it or in a firm record it calls for. */
  ghost predicate SafeOnDisk(d: Disk, e: Write) {
    forall m {:trigger Candidate(d, m)} :: Candidate(d, m) ==> InTables(d.tables, m.tables, e) || InFirm(d.logs, m.logNumber, e)
  }

  /** The writes no crash may take. */
  ghost predicate Safe(s: State, e: Write) {
    match s.p
    case Up(u) => InTables(s.disk.tables, s.disk.manifest.tables, e) || SafeInMemory(s.disk, u, e)
    case _ => SafeOnDisk(s.disk, e)
  }

  // ---------- steps ----------

  datatype Step =
    // writers
    | Append(record: Record)
    | TornAppend(last: nat)
    | SyncLog
    | Accept
    | Abandon(syncError: bool)
    | SwitchMemtable
    // the memtable flush
    | StartFlush
    | BuildTable
    | SaveFlush
    | CommitFlush
    // compactions
    | StartCompaction(inputs: set<nat>)
    | OpenOutput
    | FinishOutput(n: nat, contents: set<Write>)
    | SaveCompaction
    | MoveTable(n: nat)
    | CommitCompaction
    // a flush or a compaction gives up
    | Fail
    // readers and garbage
    | Pin
    | Unpin(i: nat)
    | Collect
    | DeleteLog(n: nat)
    | DeleteTable(n: nat)
    | BackgroundError
    // restarts
    | Crash(keep: map<nat, set<nat>>, upto: nat, dropped: set<nat>, renewed: bool)
    | BeginRecovery
    | NextLog(n: nat)
    | ReadRecord
    | DumpMemtable
    | EndLog
    | CreateLog
    | SaveRecovery
    | CommitRecovery

  /** The tables of the current version and of older ones that readers still use. */
  function Live(u: Open): set<nat> {
    u.current + set i, n | 0 <= i < |u.held| && n in u.held[i] :: n
  }

  /** The tables that some manifest names, if only an edit in doubt. */
  function Named(m: Manifest, doubt: seq<Doubt>): set<nat> {
    m.tables + set i, n | 0 <= i < |doubt| && n in doubt[i].edit.added :: n
  }

  /** The background thread is not writing the manifest, flushing or deleting. */
  predicate Free(u: Open) {
    u.flush.NoFlush? && !u.compaction.CompactionSaving? && u.doomedLogs == {} && u.doomedTables == {}
  }

  /** A compaction starts, or moves a table down, only when no memtable waits; one that waits since is
      flushed from inside the compaction, and after an error only from there. */
  ghost predicate EnabledUp(d: Disk, u: Open, step: Step) {
    match step
    case Append(record) =>
      && u.working.None? && u.logFile in d.logs && u.lastSequence <= record.last
      && forall e | e in record.writes :: u.lastSequence < e.sequence <= record.last
    case TornAppend(last) => u.working.None? && u.logFile in d.logs && u.lastSequence <= last
    case SyncLog => u.working.Some? && u.logFile in d.logs
    case Accept => u.working.Some?
    case Abandon(_) => u.working.Some?
    case SwitchMemtable => u.working.None? && u.imm.None? && !u.failed
    case StartFlush => Free(u) && u.imm.Some? && (!u.failed || u.compaction.Running?)
    case BuildTable => u.flush.Building? && u.imm.Some?
    case SaveFlush => u.flush.Built?
    case CommitFlush => u.flush.FlushSaving? && d.doubt != []
    case StartCompaction(inputs) =>
      && Free(u) && u.compaction.NoCompaction? && !u.failed && u.imm.None?
      && inputs != {} && inputs <= u.current
    case OpenOutput => Free(u) && u.compaction.Running?
    case FinishOutput(n, _) => Free(u) && u.compaction.Running? && n in u.compaction.outputs
    case SaveCompaction =>
      && Free(u) && u.compaction.Running? && u.compaction.outputs <= d.tables.Keys
      && forall e :: InTables(d.tables, u.compaction.inputs, e) <==> InTables(d.tables, u.compaction.outputs, e)
    case MoveTable(n) => Free(u) && u.compaction.NoCompaction? && !u.failed && u.imm.None? && n in u.current
    case CommitCompaction => u.compaction.CompactionSaving? && d.doubt != []
    case Fail => !u.flush.NoFlush? || !u.compaction.NoCompaction?
    case Pin => true
    case Unpin(i) => i < |u.held|
    case Collect => Free(u) && !u.failed
    case DeleteLog(n) => n in u.doomedLogs
    case DeleteTable(n) => n in u.doomedTables
    case BackgroundError => true
    case Crash(keep, upto, dropped, renewed) => CanCrash(d, keep, upto, dropped, renewed)
    case _ => false
  }

  predicate EnabledRecovering(d: Disk, o: Opening, step: Step) {
    match step
    case NextLog(n) => o.reading.None? && n in o.todo && forall m | m in o.todo :: n <= m
    case ReadRecord =>
      o.reading.Some? && o.reading.value.0 in d.logs && o.reading.value.1 < |d.logs[o.reading.value.0].records|
    case DumpMemtable => o.reading.Some?
    case EndLog =>
      && o.reading.Some? && o.reading.value.0 in d.logs && o.mem == {}
      && o.reading.value.1 == |d.logs[o.reading.value.0].records|
    case CreateLog => o.reading.None? && o.todo == {} && o.newLog.None?
    case SaveRecovery => o.newLog.Some? && d.renewed.None? && SeenOk(d)
    case CommitRecovery => o.newLog.Some? && d.renewed.Some?
    case Crash(keep, upto, dropped, renewed) => CanCrash(d, keep, upto, dropped, renewed)
    case _ => false
  }

  ghost predicate Enabled(s: State, step: Step) {
    match s.p
    case Up(u) => EnabledUp(s.disk, u, step)
    case Recovering(o) => EnabledRecovering(s.disk, o, step)
    case Down => step.BeginRecovery? && SeenOk(s.disk)
  }

  /** A crash leaves of each log at least the firm records, and of the manifest what it may. */
  predicate CanCrash(d: Disk, keep: map<nat, set<nat>>, upto: nat, dropped: set<nat>, renewed: bool) {
    && keep.Keys == d.logs.Keys && (renewed ==> d.renewed.Some?) && MayBeCut(d, upto, dropped)
    && forall n | n in keep :: keep[n] <= d.logs[n].present && forall i: nat | i < Firm(d.logs[n]) :: i in keep[n]
  }

  function Crashed(d: Disk, keep: map<nat, set<nat>>, upto: nat, dropped: set<nat>, renewed: bool): Disk
    requires CanCrash(d, keep, upto, dropped, renewed)
  {
    var logs := map n | n in d.logs :: d.logs[n].(present := keep[n]);
    if renewed then Disk(logs, d.tables, d.renewed.value, [], 0, {}, None)
    else Disk(logs, d.tables, d.manifest, d.doubt, upto, dropped, None)
  }

  function Max(a: nat, b: nat): nat {
    if a < b then b else a
  }

  /** LogAndApply: the edit goes to the end of the manifest file. */
  function Saved(d: Disk, e: Edit): Disk {
    d.(doubt := d.doubt + [Doubt(e, false)], upto := |d.doubt| + 1)
  }

  /** The edits once the last was written. */
  function Kept(doubt: seq<Doubt>): seq<Doubt>
    requires doubt != []
  {
    doubt[|doubt| - 1 := Doubt(doubt[|doubt| - 1].edit, true)]
  }

  /** The last edit was written and synced. With nothing failed before it, it is firm. */
  function Settled(d: Disk): Disk
    requires d.doubt != []
  {
    if |d.doubt| == 1 then d.(manifest := Apply(d.manifest, d.doubt[0].edit), doubt := [], upto := 0)
    else d.(doubt := Kept(d.doubt))
  }

  function FlushEdit(u: Open): Edit
    requires u.flush.Built?
  {
    Edit(u.flush.added, {}, u.logFile, u.nextFile, u.lastSequence)
  }

  function CompactionEdit(u: Open): Edit
    requires u.compaction.Running?
  {
    Edit(u.compaction.outputs, u.compaction.inputs, u.logNumber, u.nextFile, u.lastSequence)
  }

  /** A trivial move: the table leaves its level and comes to the next under the same number. */
  function MoveEdit(u: Open, n: nat): Edit {
    Edit({n}, {n}, u.logNumber, u.nextFile, u.lastSequence)
  }

  function AfterUp(d: Disk, u: Open, step: Step): State
    requires EnabledUp(d, u, step)
  {
    match step
    case Append(record) =>
      var l := d.logs[u.logFile];
      var m := l.(records := l.records + [record], present := l.present + {|l.records|});
      State(d.(logs := d.logs[u.logFile := m]), Up(u.(working := Some(record))))
    case TornAppend(last) =>
      var l := d.logs[u.logFile];
      var m := if l.damaged.None? then l.(damaged := Some(|l.records|)) else l;
      State(d.(logs := d.logs[u.logFile := m]), Up(u.(lastSequence := last)))
    case SyncLog =>
      var l := d.logs[u.logFile];
      State(d.(logs := d.logs[u.logFile := l.(synced := |l.records|)]), Up(u))
    case Accept =>
      var record := u.working.value;
      State(d, Up(u.(mem := u.mem + record.writes, working := None, lastSequence := record.last)))
    case Abandon(syncError) =>
      State(d, Up(u.(working := None, lastSequence := u.working.value.last, failed := u.failed || syncError)))
    case SwitchMemtable =>
      State(d.(logs := d.logs[u.nextFile := Log([], 0, None, {})]),
            Up(u.(imm := Some(u.mem), aside := u.mem, mem := {}, logFile := u.nextFile, nextFile := u.nextFile + 1)))
    case StartFlush =>
      State(d, Up(u.(flush := Building(u.nextFile), pending := u.pending + {u.nextFile}, nextFile := u.nextFile + 1)))
    case BuildTable =>
      var n := u.flush.number;
      if u.imm.value == {} then State(d, Up(u.(flush := Built({}), pending := u.pending - {n})))
      else State(d.(tables := d.tables[n := u.imm.value]), Up(u.(flush := Built({n}), pending := u.pending - {n})))
    case SaveFlush => State(Saved(d, FlushEdit(u)), Up(u.(flush := FlushSaving)))
    case CommitFlush =>
      var e := d.doubt[|d.doubt| - 1].edit;
      State(Settled(d), Up(u.(flush := NoFlush, imm := None, current := (u.current - e.deleted) + e.added, logNumber := e.logNumber)))
    case StartCompaction(inputs) => State(d, Up(u.(compaction := Running(inputs, {}))))
    case OpenOutput =>
      State(d, Up(u.(compaction := Running(u.compaction.inputs, u.compaction.outputs + {u.nextFile}),
                     pending := u.pending + {u.nextFile}, nextFile := u.nextFile + 1)))
    case FinishOutput(n, contents) => State(d.(tables := d.tables[n := contents]), Up(u))
    case SaveCompaction =>
      State(Saved(d, CompactionEdit(u)), Up(u.(compaction := CompactionSaving(u.compaction.outputs))))
    case MoveTable(n) => State(Saved(d, MoveEdit(u, n)), Up(u.(compaction := CompactionSaving({}))))
    case CommitCompaction =>
      var e := d.doubt[|d.doubt| - 1].edit;
      State(Settled(d), Up(u.(compaction := NoCompaction, current := (u.current - e.deleted) + e.added, logNumber := e.logNumber,
                              pending := u.pending - u.compaction.outputs)))
    case Fail =>
      if u.flush.Building? then State(d, Up(u.(flush := NoFlush, pending := u.pending - {u.flush.number}, failed := true)))
      else if !u.flush.NoFlush? then State(d, Up(u.(flush := NoFlush, failed := true)))
      else State(d, Up(u.(compaction := NoCompaction, pending := u.pending - u.compaction.outputs, failed := true)))
    case Pin => State(d, Up(u.(held := u.held + [u.current])))
    case Unpin(i) => State(d, Up(u.(held := u.held[..i] + u.held[i + 1..])))
    case Collect =>
      State(d, Up(u.(doomedLogs := (set n | n in d.logs && n < u.logNumber),
                     doomedTables := (set n | n in d.tables && n !in Live(u) && n !in u.pending))))
    case DeleteLog(n) => State(d.(logs := d.logs - {n}), Up(u.(doomedLogs := u.doomedLogs - {n})))
    case DeleteTable(n) => State(d.(tables := d.tables - {n}), Up(u.(doomedTables := u.doomedTables - {n})))
    case BackgroundError => State(d, Up(u.(failed := true)))
    case Crash(keep, upto, dropped, renewed) => State(Crashed(d, keep, upto, dropped, renewed), Down)
  }

  function AfterRecovering(d: Disk, o: Opening, step: Step): State
    requires EnabledRecovering(d, o, step)
  {
    match step
    case NextLog(n) => State(d, Recovering(o.(reading := Some((n, 0)))))
    case ReadRecord =>
      var (n, at) := o.reading.value;
      var record := d.logs[n].records[at];
      if at in d.logs[n].present then
        State(d, Recovering(o.(reading := Some((n, at + 1)), mem := o.mem + record.writes,
                               lastSequence := Max(o.lastSequence, record.last))))
      else State(d, Recovering(o.(reading := Some((n, at + 1)))))
    case DumpMemtable =>
      if o.mem == {} then State(d, Recovering(o.(nextFile := o.nextFile + 1)))
      else
        State(d.(tables := d.tables[o.nextFile := o.mem]),
              Recovering(o.(mem := {}, added := o.added + {o.nextFile}, nextFile := o.nextFile + 1)))
    case EndLog =>
      var n := o.reading.value.0;
      State(d, Recovering(o.(reading := None, todo := o.todo - {n}, nextFile := Max(o.nextFile, n + 1))))
    case CreateLog =>
      State(d.(logs := d.logs[o.nextFile := Log([], 0, None, {})]),
            Recovering(o.(newLog := Some(o.nextFile), nextFile := o.nextFile + 1)))
    case SaveRecovery =>
      State(d.(renewed := Some(Manifest(Seen(d).tables + o.added, o.newLog.value, o.nextFile, o.lastSequence))),
            Recovering(o))
    case CommitRecovery =>
      var m := d.renewed.value;
      State(Disk(d.logs, d.tables, m, [], 0, {}, None),
            Up(Open({}, None, {}, None, o.newLog.value, o.nextFile, o.lastSequence, o.newLog.value, m.tables, [], {},
                    false, NoFlush, NoCompaction, {}, {})))
    case Crash(keep, upto, dropped, renewed) => State(Crashed(d, keep, upto, dropped, renewed), Down)
  }

  function After(s: State, step: Step): State
    requires Enabled(s, step)
  {
    match s.p
    case Up(u) => AfterUp(s.disk, u, step)
    case Recovering(o) => AfterRecovering(s.disk, o, step)
    case Down =>
      var m := Seen(s.disk);
      State(s.disk, Recovering(Opening((set n | n in s.disk.logs && n >= m.logNumber), None, {}, {}, m.nextFile + 1,
                                       m.lastSequence, None)))
  }

  // ---------- the invariant ----------

  ghost predicate ManifestOk(tables: map<nat, set<Write>>, m: Manifest) {
    && m.tables <= tables.Keys && m.logNumber < m.nextFile
    && (forall n | n in m.tables :: n < m.nextFile)
    && (forall n, e | n in m.tables && InTable(tables, n, e) :: e.sequence <= m.lastSequence)
  }

  ghost predicate LogOk(l: Log) {
    && l.synced <= |l.records| && (l.damaged.Some? ==> l.damaged.value <= |l.records|)
    && (forall i: nat | i < Firm(l) :: i in l.present)
    && forall i, e | 0 <= i < |l.records| && e in l.records[i].writes :: e.sequence <= l.records[i].last
  }

  ghost predicate LogsOk(logs: map<nat, Log>) {
    forall n | n in logs :: LogOk(logs[n])
  }

  /** In a record of a log numbered from `from` to `to`. */
  ghost predicate InRange(logs: map<nat, Log>, from: nat, to: int, e: Write) {
    exists n: nat, i: nat {:trigger InRecord(logs, n, i, e)} :: from <= n <= to && InRecord(logs, n, i, e)
  }

  /** What is in memory is in the logs a recovery would read, and so is what was set aside while the
      firm part of the manifest does not have it. */
  ghost predicate MemoryLogged(logs: map<nat, Log>, mem: set<Write>, older: bool, aside: set<Write>, logNumber: nat, logFile: nat) {
    && (forall e | e in mem :: InRange(logs, logFile, logFile, e))
    && (older ==> logNumber < logFile && forall e | e in aside :: InRange(logs, logNumber, logFile - 1, e))
  }

  /** The memtable set aside is not in the firm part of the manifest. */
  predicate Older(u: Open, logNumber: nat) {
    u.imm.Some? || u.logNumber != logNumber
  }

  ghost predicate FilesOk(logs: map<nat, Log>, u: Open) {
    && u.logNumber <= u.logFile < u.nextFile && u.logFile in logs && (u.imm.None? ==> u.logNumber == u.logFile)
    && (forall n | n in logs :: n <= u.logFile)
    && forall i: nat | i < |logs[u.logFile].records| :: i in logs[u.logFile].present
  }

  ghost predicate Counted(u: Open) {
    && (forall e | InMemory(u, e) || e in u.aside :: e.sequence <= u.lastSequence)
    && (u.working.Some? ==>
          u.lastSequence <= u.working.value.last && forall e | e in u.working.value.writes :: e.sequence <= u.working.value.last)
  }

  predicate WorkingLogged(logs: map<nat, Log>, u: Open) {
    u.working.Some? ==>
      && u.logFile in logs && logs[u.logFile].records != []
      && logs[u.logFile].records[|logs[u.logFile].records| - 1] == u.working.value
  }

  ghost predicate FlushOk(tables: map<nat, set<Write>>, u: Open, named: set<nat>) {
    match u.flush
    case NoFlush => true
    case Building(n) =>
      && n in u.pending && n !in Live(u) && n !in named && u.imm.Some?
      && (u.compaction.Running? ==> n !in u.compaction.outputs)
    case Built(added) =>
      && u.imm.Some? && added <= tables.Keys
      && (forall n | n in added :: n < u.nextFile && (u.compaction.Running? ==> n !in u.compaction.outputs))
      && forall e :: InTables(tables, added, e) <==> e in u.imm.value
    case FlushSaving => u.imm.Some?
  }

  ghost predicate CompactionOk(u: Open, named: set<nat>) {
    u.compaction.Running? ==>
      && u.compaction.inputs <= u.current && u.compaction.outputs <= u.pending
      && u.compaction.outputs !! Live(u) && u.compaction.outputs !! named
  }

  /** A manifest that some crash may leave carries the data of the firm one, maybe with the memtable
      set aside, and calls for older logs unless it carries that. */
  ghost predicate ViewOk(tables: map<nat, set<Write>>, base: Manifest, aside: set<Write>, logFile: nat, nextFile: nat,
                         lastSequence: nat, v: Manifest) {
    && ManifestOk(tables, v) && v.nextFile <= nextFile && v.lastSequence <= lastSequence
    && (v.logNumber == base.logNumber || (v.logNumber == logFile && Holds(tables, v.tables, aside)))
    && (forall e :: InTables(tables, base.tables, e) ==> InTables(tables, v.tables, e))
    && (forall e :: InTables(tables, v.tables, e) ==> InTables(tables, base.tables, e) || e in aside)
  }

  ghost predicate ViewsOk(tables: map<nat, set<Write>>, base: Manifest, doubt: seq<Doubt>, aside: set<Write>, logFile: nat,
                          nextFile: nat, lastSequence: nat) {
    forall n: nat, dropped {:trigger View(base, doubt, n, dropped)} :: n <= |doubt| && dropped <= Failures(doubt) ==>
      ViewOk(tables, base, aside, logFile, nextFile, lastSequence, View(base, doubt, n, dropped))
  }

  /** Once a version with another log number is in use, every uncut manifest carries the memtable set
      aside. */
  ghost predicate MovedOn(tables: map<nat, set<Write>>, base: Manifest, doubt: seq<Doubt>, u: Open) {
    u.logNumber != base.logNumber ==>
      u.logNumber == u.logFile && u.imm.None? && u.failed && AlwaysAside(tables, base, doubt, u.aside)
  }

  ghost predicate AlwaysAside(tables: map<nat, set<Write>>, base: Manifest, doubt: seq<Doubt>, aside: set<Write>) {
    forall dropped {:trigger View(base, doubt, |doubt|, dropped)} ::
      dropped <= Failures(doubt) ==> Holds(tables, View(base, doubt, |doubt|, dropped).tables, aside)
  }

  predicate NoneOk(doubt: seq<Doubt>) {
    forall i | 0 <= i < |doubt| :: !doubt[i].ok
  }

  /** What the version in use carries. */
  ghost predicate CurrentOk(tables: map<nat, set<Write>>, base: Manifest, doubt: seq<Doubt>, u: Open) {
    && (forall e :: InTables(tables, u.current, e)
          <==> InTables(tables, base.tables, e) || (u.logNumber != base.logNumber && e in u.aside))
    && (NoneOk(doubt) ==> u.current == base.tables && u.logNumber == base.logNumber)
    && (u.imm.Some? ==> u.aside == u.imm.value && u.logNumber == base.logNumber)
  }

  /** File numbers of the edits in doubt. */
  predicate NumbersOk(tables: map<nat, set<Write>>, base: Manifest, doubt: seq<Doubt>, nextFile: nat) {
    && Named(base, doubt) <= tables.Keys && (forall n | n in Named(base, doubt) :: n < nextFile)
    && base.nextFile <= nextFile && Ascending(base, doubt)
    && (forall i | 0 <= i < |doubt| :: doubt[i].edit.nextFile <= nextFile)
  }

  /** Later edits have larger next file numbers. */
  predicate Ascending(base: Manifest, doubt: seq<Doubt>) {
    && (forall i | 0 <= i < |doubt| :: base.nextFile <= doubt[i].edit.nextFile)
    && (forall i, j | 0 <= i < j < |doubt| :: doubt[i].edit.nextFile <= doubt[j].edit.nextFile)
  }

  predicate Saving(u: Open) {
    u.flush.FlushSaving? || u.compaction.CompactionSaving?
  }

  /** The edit being written is the last; none is left in doubt but after an error. */
  ghost predicate SavingOk(tables: map<nat, set<Write>>, doubt: seq<Doubt>, u: Open) {
    && (doubt != [] ==> u.failed || (Saving(u) && |doubt| == 1))
    && (Saving(u) ==>
          && doubt != [] && !doubt[|doubt| - 1].ok
          && var e := doubt[|doubt| - 1].edit;
             && (u.flush.FlushSaving? ==>
                   && e.deleted == {} && e.logNumber == u.logFile
                   && (u.compaction.Running? ==> e.added !! u.compaction.outputs)
                   && forall w :: InTables(tables, e.added, w) <==> w in u.aside)
             && (u.compaction.CompactionSaving? ==>
                   && e.deleted <= u.current && e.logNumber == u.logNumber
                   && forall w :: InTables(tables, e.deleted, w) <==> InTables(tables, e.added, w)))
  }

  ghost predicate GarbageOk(u: Open) {
    && (forall n | n in u.doomedLogs :: n < u.logNumber)
    && u.doomedTables !! Live(u) && u.doomedTables !! u.pending
    && (u.doomedTables != {} || u.doomedLogs != {} ==> u.flush.NoFlush? && !u.compaction.CompactionSaving?)
    && (u.compaction.CompactionSaving? ==> u.flush.NoFlush?)
    && (forall n | n in Live(u) || n in u.pending :: n < u.nextFile)
  }

  /** What an open process has of the manifest: every edit in doubt can be read, until a crash. */
  predicate Whole(d: Disk, u: Open) {
    && d.upto == |d.doubt| && d.dropped == {} && d.renewed.None?
    && (u.doomedTables != {} || u.doomedLogs != {} ==> d.doubt == [])
  }

  /** What the logs hold for the memory. */
  ghost predicate LogPart(logs: map<nat, Log>, base: nat, u: Open) {
    && LogsOk(logs) && base <= u.logNumber && FilesOk(logs, u)
    && MemoryLogged(logs, u.mem, Older(u, base), u.aside, base, u.logFile)
    && WorkingLogged(logs, u) && Counted(u)
  }

  /** What the tables hold, and the manifests that name them. */
  ghost predicate TablePart(tables: map<nat, set<Write>>, base: Manifest, doubt: seq<Doubt>, u: Open) {
    && Live(u) <= tables.Keys
    && FlushOk(tables, u, Named(base, doubt))
    && CompactionOk(u, Named(base, doubt))
    && ViewsOk(tables, base, doubt, u.aside, u.logFile, u.nextFile, u.lastSequence)
    && MovedOn(tables, base, doubt, u)
    && CurrentOk(tables, base, doubt, u)
    && NumbersOk(tables, base, doubt, u.nextFile)
    && SavingOk(tables, doubt, u)
    && GarbageOk(u)
  }

  ghost predicate UpOk(d: Disk, u: Open) {
    && LogPart(d.logs, d.manifest.logNumber, u)
    && Whole(d, u)
    && TablePart(d.tables, d.manifest, d.doubt, u)
  }

  /** The records read so far. */
  ghost predicate Read(logs: map<nat, Log>, from: nat, o: Opening, e: Write) {
    exists n: nat, i: nat {:trigger InRecord(logs, n, i, e)} ::
      && n >= from && InRecord(logs, n, i, e)
      && (n !in o.todo || (o.reading.Some? && o.reading.value.0 == n && i < o.reading.value.1))
  }

  /** Every manifest that a further crash may leave is in order. */
  ghost predicate CutsOk(d: Disk) {
    && SeenOk(d) && Ascending(d.manifest, d.doubt)
    && forall n: nat, dropped {:trigger MayBeCut(d, n, dropped)} ::
         MayBeCut(d, n, dropped) ==> ManifestOk(d.tables, View(d.manifest, d.doubt, n, dropped))
  }

  ghost predicate RecoveringOk(d: Disk, o: Opening) {
    && CutsOk(d) && LogsOk(d.logs)
    && OpeningOk(d, Seen(d), o)
  }

  ghost predicate OpeningOk(d: Disk, m: Manifest, o: Opening) {
    && m.nextFile < o.nextFile && m.lastSequence <= o.lastSequence
    && (forall n | n in o.todo :: n in d.logs && n >= m.logNumber)
    && (o.reading.Some? ==> o.reading.value.0 in o.todo)
    && (forall e :: InTables(d.tables, o.added, e) || e in o.mem <==> Read(d.logs, m.logNumber, o, e))
    && o.added <= d.tables.Keys
    && (forall n | n in o.added :: m.nextFile < n < o.nextFile)
    && (forall n, e | n in o.added && InTable(d.tables, n, e) :: e.sequence <= o.lastSequence)
    && (forall e | e in o.mem :: e.sequence <= o.lastSequence)
    && (o.reading.None? ==> o.mem == {})
    && (forall n | n in d.logs && n !in o.todo :: n < o.nextFile)
    && (o.newLog.Some? ==>
          && o.todo == {} && o.reading.None? && o.newLog.value in d.logs && d.logs[o.newLog.value] == Log([], 0, None, {})
          && m.nextFile < o.newLog.value < o.nextFile
          && forall n | n in d.logs :: n <= o.newLog.value)
    && (d.renewed.Some? ==>
          && o.newLog.Some?
          && d.renewed.value == Manifest(m.tables + o.added, o.newLog.value, o.nextFile, o.lastSequence))
  }

  ghost predicate Inv(s: State) {
    match s.p
    case Up(u) => UpOk(s.disk, u)
    case Recovering(o) => RecoveringOk(s.disk, o)
    case Down => CutsOk(s.disk) && LogsOk(s.disk.logs) && s.disk.renewed.None?
  }

  // ---------- views of the manifest ----------

  /** A view depends on the edits read and on which of them are dropped. */
  lemma {:induction false} SameView(m: Manifest, a: seq<Doubt>, b: seq<Doubt>, n: nat, x: set<nat>, y: set<nat>)
    requires n <= |a| && n <= |b| && forall i: nat | i < n :: a[i].edit == b[i].edit && (i in x <==> i in y)
    ensures View(m, a, n, x) == View(m, b, n, y)
  {
    if n > 0 {
      SameView(m, a, b, n - 1, x, y);
    }
  }

  lemma {:induction false} ViewNamed(m: Manifest, doubt: seq<Doubt>, n: nat, dropped: set<nat>)
    requires n <= |doubt|
    ensures View(m, doubt, n, dropped).tables <= Named(m, doubt)
  {
    if n > 0 {
      ViewNamed(m, doubt, n - 1, dropped);
      forall k | k in doubt[n - 1].edit.added ensures k in Named(m, doubt) {
      }
    }
  }

  /** A view that saw less has a smaller next file number. */
  lemma {:induction false} LessSeen(m: Manifest, doubt: seq<Doubt>, n: nat, x: set<nat>, k: nat, y: set<nat>, bound: nat)
    requires k <= n <= |doubt| && x <= y && m.nextFile <= bound
    requires Ascending(m, doubt) && forall i | 0 <= i < n :: doubt[i].edit.nextFile <= bound
    ensures View(m, doubt, k, y).nextFile <= View(m, doubt, n, x).nextFile <= bound
  {
    if n > 0 {
      if n - 1 in x {
        LessSeen(m, doubt, n - 1, x, if k == n then k - 1 else k, y, bound);
      } else {
        LessSeen(m, doubt, n - 1, x, if k == n then k - 1 else k, y, doubt[n - 1].edit.nextFile);
      }
    }
  }

  lemma {:induction false} NamedMore(m: Manifest, doubt: seq<Doubt>, x: Doubt)
    ensures Named(m, doubt + [x]) == Named(m, doubt) + x.edit.added
  {
    var more := doubt + [x];
    forall n | n in Named(m, doubt) + x.edit.added ensures n in Named(m, more) {
      if n in x.edit.added {
        assert more[|doubt|] == x;
      } else if n !in m.tables {
        var i :| 0 <= i < |doubt| && n in doubt[i].edit.added;
        assert more[i] == doubt[i];
      }
    }
  }

  lemma {:induction false} NamedSettled(m: Manifest, doubt: seq<Doubt>, last: nat)
    requires last < |doubt|
    ensures Named(m, doubt[last := Doubt(doubt[last].edit, true)]) == Named(m, doubt)
  {
    var b := doubt[last := Doubt(doubt[last].edit, true)];
    forall n | n in Named(m, doubt) ensures n in Named(m, b) {
      if n !in m.tables {
        var i :| 0 <= i < |doubt| && n in doubt[i].edit.added;
        assert n in b[i].edit.added;
      }
    }
    forall n | n in Named(m, b) ensures n in Named(m, doubt) {
      if n !in m.tables {
        var i :| 0 <= i < |b| && n in b[i].edit.added;
        assert n in doubt[i].edit.added;
      }
    }
  }

  // ---------- what changes of the disk keep ----------

  /** Every record stays, and stays firm. */
  ghost predicate LogsGrow(a: map<nat, Log>, b: map<nat, Log>) {
    && (forall n: nat, i: nat, e {:trigger InRecord(b, n, i, e)} {:trigger InRecord(a, n, i, e)} ::
          InRecord(a, n, i, e) ==> InRecord(b, n, i, e))
    && (forall n | n in a :: n in b && Firm(a[n]) <= Firm(b[n]))
  }

  lemma {:induction false} RangeGrows(a: map<nat, Log>, b: map<nat, Log>, from: nat, to: int, e: Write)
    requires LogsGrow(a, b)
    ensures InRange(a, from, to, e) ==> InRange(b, from, to, e)
    ensures InFirmRange(a, from, to, e) ==> InFirmRange(b, from, to, e)
  {
    if InFirmRange(a, from, to, e) {
      var n: nat, i: nat :| from <= n <= to && InRecord(a, n, i, e) && i < Firm(a[n]);
      assert InRecord(b, n, i, e);
    }
    if InRange(a, from, to, e) {
      var n: nat, i: nat :| from <= n <= to && InRecord(a, n, i, e);
      assert InRecord(b, n, i, e);
    }
  }

  lemma {:induction false} MemoryGrows(a: map<nat, Log>, b: map<nat, Log>, mem: set<Write>, older: bool, aside: set<Write>,
                    logNumber: nat, logFile: nat)
    requires LogsGrow(a, b) && MemoryLogged(a, mem, older, aside, logNumber, logFile)
    ensures MemoryLogged(b, mem, older, aside, logNumber, logFile)
  {
    forall e | e in mem ensures InRange(b, logFile, logFile, e) {
      RangeGrows(a, b, logFile, logFile, e);
    }
    if older {
      forall e | e in aside ensures InRange(b, logNumber, logFile - 1, e) {
        RangeGrows(a, b, logNumber, logFile - 1, e);
      }
    }
  }

  /** A table that is not among `names` may come, change or go. */
  lemma {:induction false} OtherTable(a: map<nat, set<Write>>, b: map<nat, set<Write>>, names: set<nat>, e: Write)
    requires forall n | n in names :: (n in a <==> n in b) && (n in a ==> a[n] == b[n])
    ensures InTables(a, names, e) <==> InTables(b, names, e)
  {
    if InTables(a, names, e) {
      var n :| n in names && InTable(a, n, e);
      assert InTable(b, n, e);
    }
    if InTables(b, names, e) {
      var n :| n in names && InTable(b, n, e);
      assert InTable(a, n, e);
    }
  }

  lemma {:induction false} OtherTables(a: map<nat, set<Write>>, b: map<nat, set<Write>>, names: set<nat>)
    requires forall n | n in names :: (n in a <==> n in b) && (n in a ==> a[n] == b[n])
    ensures forall e {:trigger InTables(a, names, e)} {:trigger InTables(b, names, e)} :: InTables(a, names, e) <==> InTables(b, names, e)
  {
    forall e ensures InTables(a, names, e) <==> InTables(b, names, e) {
      OtherTable(a, b, names, e);
    }
  }

  lemma {:induction false} ManifestFrame(a: map<nat, set<Write>>, b: map<nat, set<Write>>, m: Manifest)
    requires ManifestOk(a, m) && forall n | n in m.tables :: n in b && a[n] == b[n]
    ensures ManifestOk(b, m)
  {
    forall n, e | n in m.tables && InTable(b, n, e) ensures e.sequence <= m.lastSequence {
      assert InTable(a, n, e);
    }
  }

  lemma {:induction false} UnionTables(tables: map<nat, set<Write>>, a: set<nat>, b: set<nat>, e: Write)
    ensures InTables(tables, a + b, e) <==> InTables(tables, a, e) || InTables(tables, b, e)
  {
    if InTables(tables, a, e) {
      var n :| n in a && InTable(tables, n, e);
      assert n in a + b;
    }
    if InTables(tables, b, e) {
      var n :| n in b && InTable(tables, n, e);
      assert n in a + b;
    }
  }

  /** An edit that deletes no more data than it adds, and adds only that or the memtable set aside. */
  lemma {:induction false} EditData(tables: map<nat, set<Write>>, names: set<nat>, e: Edit, w: Write)
    requires InTables(tables, e.deleted, w) ==> InTables(tables, e.added, w)
    ensures InTables(tables, (names - e.deleted) + e.added, w) <==> InTables(tables, names, w) || InTables(tables, e.added, w)
  {
    UnionTables(tables, names - e.deleted, e.added, w);
    if InTables(tables, names, w) {
      var n :| n in names && InTable(tables, n, w);
      if n in e.deleted {
        assert InTables(tables, e.deleted, w);
      } else {
        assert n in names - e.deleted;
      }
    }
  }

  // ---------- edits in doubt ----------

  /** What makes an edit harmless wherever a crash cuts: it keeps the data, but for the memtable set
      aside, and calls for a newer log only with that. */
  ghost predicate Harmless(tables: map<nat, set<Write>>, base: Manifest, aside: set<Write>, logFile: nat, e: Edit) {
    && (forall w :: InTables(tables, e.deleted, w) ==> InTables(tables, e.added, w))
    && (forall w :: InTables(tables, e.added, w) ==> InTables(tables, base.tables, w) || w in aside)
    && (e.logNumber == base.logNumber || e.logNumber == logFile)
  }

  lemma {:induction false} AppliedData(tables: map<nat, set<Write>>, e: Edit, v: Manifest)
    requires forall w :: InTables(tables, e.deleted, w) ==> InTables(tables, e.added, w)
    ensures forall w {:trigger InTables(tables, Apply(v, e).tables, w)} ::
              InTables(tables, Apply(v, e).tables, w) <==> InTables(tables, v.tables, w) || InTables(tables, e.added, w)
  {
    forall w ensures InTables(tables, Apply(v, e).tables, w) <==> InTables(tables, v.tables, w) || InTables(tables, e.added, w) {
      EditData(tables, v.tables, e, w);
    }
  }

  lemma {:induction false} ApplyOk(tables: map<nat, set<Write>>, base: Manifest, aside: set<Write>, logFile: nat, nextFile: nat,
                   lastSequence: nat, v: Manifest, e: Edit)
    requires ViewOk(tables, base, aside, logFile, nextFile, lastSequence, v) && Harmless(tables, base, aside, logFile, e)
    requires base.logNumber < nextFile && logFile < nextFile && base.lastSequence <= lastSequence && ManifestOk(tables, base)
    requires forall w | w in aside :: w.sequence <= lastSequence
    requires e.nextFile == nextFile && e.lastSequence == lastSequence && e.added <= tables.Keys
    requires forall n | n in e.added :: n < nextFile
    requires e.logNumber == base.logNumber || Holds(tables, e.added, aside) || Holds(tables, v.tables, aside)
    ensures ViewOk(tables, base, aside, logFile, nextFile, lastSequence, Apply(v, e))
  {
    var m := Apply(v, e);
    AppliedData(tables, e, v);
    forall n, w | n in m.tables && InTable(tables, n, w) ensures w.sequence <= m.lastSequence {
      assert InTables(tables, m.tables, w);
      if InTables(tables, base.tables, w) {
        var k :| k in base.tables && InTable(tables, k, w);
      }
    }
  }

  /** The edits of a list, without what concerns the one behind it. */
  function Below(dropped: set<nat>, n: nat): set<nat> {
    set i | i in dropped && i < n
  }

  lemma {:induction false} SavedView(base: Manifest, doubt: seq<Doubt>, e: Edit, n: nat, dropped: set<nat>)
    requires n <= |doubt| + 1 && dropped <= Failures(doubt + [Doubt(e, false)])
    ensures Below(dropped, |doubt|) <= Failures(doubt)
    ensures n <= |doubt| ==>
              View(base, doubt + [Doubt(e, false)], n, dropped) == View(base, doubt, n, Below(dropped, |doubt|))
    ensures n == |doubt| + 1 ==>
              var p := View(base, doubt, |doubt|, Below(dropped, |doubt|));
              View(base, doubt + [Doubt(e, false)], n, dropped) == if |doubt| in dropped then p else Apply(p, e)
  {
    var more := doubt + [Doubt(e, false)];
    forall i | i in Below(dropped, |doubt|) ensures i in Failures(doubt) {
      assert more[i] == doubt[i];
    }
    SameView(base, more, doubt, if n <= |doubt| then n else |doubt|, dropped, Below(dropped, |doubt|));
  }

  lemma {:induction false} SavedViews(tables: map<nat, set<Write>>, base: Manifest, doubt: seq<Doubt>, aside: set<Write>, logFile: nat,
                      nextFile: nat, lastSequence: nat, e: Edit)
    requires ViewsOk(tables, base, doubt, aside, logFile, nextFile, lastSequence) && Harmless(tables, base, aside, logFile, e)
    requires logFile < nextFile && forall w | w in aside :: w.sequence <= lastSequence
    requires e.nextFile == nextFile && e.lastSequence == lastSequence && e.added <= tables.Keys
    requires forall n | n in e.added :: n < nextFile
    requires e.logNumber == base.logNumber || Holds(tables, e.added, aside) || AlwaysAside(tables, base, doubt, aside)
    ensures ViewsOk(tables, base, doubt + [Doubt(e, false)], aside, logFile, nextFile, lastSequence)
  {
    var more := doubt + [Doubt(e, false)];
    assert View(base, doubt, 0, {}) == base;
    forall n: nat, dropped | n <= |more| && dropped <= Failures(more)
      ensures ViewOk(tables, base, aside, logFile, nextFile, lastSequence, View(base, more, n, dropped))
    {
      SavedView(base, doubt, e, n, dropped);
      if n == |more| {
        var p := View(base, doubt, |doubt|, Below(dropped, |doubt|));
        if |doubt| !in dropped {
          ApplyOk(tables, base, aside, logFile, nextFile, lastSequence, p, e);
        }
      }
    }
  }

  lemma {:induction false} SavedAside(tables: map<nat, set<Write>>, base: Manifest, doubt: seq<Doubt>, aside: set<Write>, e: Edit)
    requires AlwaysAside(tables, base, doubt, aside)
    requires forall w :: InTables(tables, e.deleted, w) ==> InTables(tables, e.added, w)
    ensures AlwaysAside(tables, base, doubt + [Doubt(e, false)], aside)
  {
    var more := doubt + [Doubt(e, false)];
    forall dropped | dropped <= Failures(more) ensures Holds(tables, View(base, more, |more|, dropped).tables, aside) {
      SavedView(base, doubt, e, |more|, dropped);
      AppliedData(tables, e, View(base, doubt, |doubt|, Below(dropped, |doubt|)));
    }
  }

  lemma {:induction false} KeptView(base: Manifest, doubt: seq<Doubt>, n: nat, dropped: set<nat>)
    requires doubt != [] && n <= |doubt| && dropped <= Failures(Kept(doubt))
    ensures dropped <= Failures(doubt) && View(base, Kept(doubt), n, dropped) == View(base, doubt, n, dropped)
    ensures n == |doubt| ==>
              View(base, Kept(doubt), n, dropped) == Apply(View(base, doubt, n - 1, dropped), doubt[n - 1].edit)
  {
    forall i | i in dropped ensures i in Failures(doubt) {
      assert i in Failures(Kept(doubt));
    }
    SameView(base, Kept(doubt), doubt, n, dropped, dropped);
  }

  lemma {:induction false} KeptViews(tables: map<nat, set<Write>>, base: Manifest, doubt: seq<Doubt>, aside: set<Write>, logFile: nat,
                     nextFile: nat, lastSequence: nat)
    requires ViewsOk(tables, base, doubt, aside, logFile, nextFile, lastSequence) && doubt != []
    ensures ViewsOk(tables, base, Kept(doubt), aside, logFile, nextFile, lastSequence)
  {
    forall n: nat, dropped | n <= |doubt| && dropped <= Failures(Kept(doubt))
      ensures ViewOk(tables, base, aside, logFile, nextFile, lastSequence, View(base, Kept(doubt), n, dropped))
    {
      KeptView(base, doubt, n, dropped);
    }
  }

  /** A flush that was written carries the memtable set aside into every uncut manifest. */
  lemma {:induction false} KeptFlush(tables: map<nat, set<Write>>, base: Manifest, doubt: seq<Doubt>, aside: set<Write>)
    requires doubt != [] && Holds(tables, doubt[|doubt| - 1].edit.added, aside) && doubt[|doubt| - 1].edit.deleted == {}
    ensures AlwaysAside(tables, base, Kept(doubt), aside)
  {
    var e := doubt[|doubt| - 1].edit;
    forall dropped | dropped <= Failures(Kept(doubt))
      ensures Holds(tables, View(base, Kept(doubt), |Kept(doubt)|, dropped).tables, aside)
    {
      KeptView(base, doubt, |doubt|, dropped);
      AppliedData(tables, e, View(base, doubt, |doubt| - 1, dropped));
    }
  }

  lemma {:induction false} KeptAside(tables: map<nat, set<Write>>, base: Manifest, doubt: seq<Doubt>, aside: set<Write>)
    requires doubt != [] && AlwaysAside(tables, base, doubt, aside)
    ensures AlwaysAside(tables, base, Kept(doubt), aside)
  {
    forall dropped | dropped <= Failures(Kept(doubt))
      ensures Holds(tables, View(base, Kept(doubt), |Kept(doubt)|, dropped).tables, aside)
    {
      KeptView(base, doubt, |doubt|, dropped);
    }
  }

  // ---------- the writers ----------

  /** A log that keeps its records and stays readable and firm as far as it was. */
  ghost predicate LogGrows(a: Log, b: Log) {
    && a.records <= b.records && a.present <= b.present && Firm(a) <= Firm(b) && LogOk(b)
    && forall i: nat | i < |b.records| :: i in b.present
  }

  lemma {:induction false} OneLogGrows(logs: map<nat, Log>, n: nat, l: Log, more: map<nat, Log>)
    requires LogsOk(logs) && n in logs && LogGrows(logs[n], l) && more == logs[n := l]
    ensures LogsOk(more) && LogsGrow(logs, more)
  {
    forall k | k in more ensures LogOk(more[k]) {
      assert k != n ==> LogOk(logs[k]);
    }
    forall k: nat, i: nat, e | InRecord(logs, k, i, e) ensures InRecord(more, k, i, e) {
      assert k == n ==> l.records[i] == logs[n].records[i];
    }
  }

  /** The log in use grows; the memory stays logged. */
  lemma {:induction false} LogReplaced(logs: map<nat, Log>, base: nat, u: Open, l: Log, more: map<nat, Log>)
    requires LogPart(logs, base, u) && LogGrows(logs[u.logFile], l) && more == logs[u.logFile := l]
    ensures LogsOk(more) && LogsGrow(logs, more) && FilesOk(more, u)
    ensures MemoryLogged(more, u.mem, Older(u, base), u.aside, base, u.logFile)
  {
    OneLogGrows(logs, u.logFile, l, more);
    MemoryGrows(logs, more, u.mem, Older(u, base), u.aside, base, u.logFile);
  }

  lemma {:induction false} AppendLogs(logs: map<nat, Log>, base: nat, u: Open, record: Record, l: Log, more: map<nat, Log>)
    requires LogPart(logs, base, u) && u.lastSequence <= record.last && forall e | e in record.writes :: e.sequence <= record.last
    requires var k := logs[u.logFile]; l == k.(records := k.records + [record], present := k.present + {|k.records|})
    requires more == logs[u.logFile := l]
    ensures LogPart(more, base, u.(working := Some(record))) && LogsGrow(logs, more)
  {
    assert LogOk(logs[u.logFile]) && LogOk(l);
    LogReplaced(logs, base, u, l, more);
  }

  lemma {:induction false} TornLogs(logs: map<nat, Log>, base: nat, u: Open, last: nat, l: Log, more: map<nat, Log>)
    requires LogPart(logs, base, u) && u.working.None? && u.lastSequence <= last
    requires var k := logs[u.logFile]; l == if k.damaged.None? then k.(damaged := Some(|k.records|)) else k
    requires more == logs[u.logFile := l]
    ensures LogPart(more, base, u.(lastSequence := last)) && LogsGrow(logs, more)
  {
    assert LogOk(logs[u.logFile]) && LogOk(l);
    LogReplaced(logs, base, u, l, more);
  }

  lemma {:induction false} SyncLogs(logs: map<nat, Log>, base: nat, u: Open, l: Log, more: map<nat, Log>)
    requires LogPart(logs, base, u)
    requires var k := logs[u.logFile]; l == k.(synced := |k.records|)
    requires more == logs[u.logFile := l]
    ensures LogPart(more, base, u) && LogsGrow(logs, more)
  {
    assert LogOk(logs[u.logFile]) && LogOk(l);
    LogReplaced(logs, base, u, l, more);
  }

  /** Sequence numbers grow, and errors stay: nothing about tables changes. */
  lemma {:induction false} TableLater(d: Disk, u: Open, v: Open)
    requires TablePart(d.tables, d.manifest, d.doubt, u) && u.lastSequence <= v.lastSequence && (u.failed ==> v.failed)
    requires v == u.(mem := v.mem, working := v.working, lastSequence := v.lastSequence, failed := v.failed)
    ensures TablePart(d.tables, d.manifest, d.doubt, v)
  {
    LaterViews(d, u, u.nextFile, v.lastSequence);
    assert Live(v) == Live(u);
  }

  lemma {:induction false} AppendKeeps(d: Disk, u: Open, record: Record)
    requires UpOk(d, u) && EnabledUp(d, u, Append(record))
    ensures Inv(AfterUp(d, u, Append(record)))
    ensures LogsGrow(d.logs, AfterUp(d, u, Append(record)).disk.logs)
  {
    var t := AfterUp(d, u, Append(record));
    AppendLogs(d.logs, d.manifest.logNumber, u, record, t.disk.logs[u.logFile], t.disk.logs);
    TableLater(d, u, t.p.u);
  }

  lemma {:induction false} TornKeeps(d: Disk, u: Open, last: nat)
    requires UpOk(d, u) && EnabledUp(d, u, TornAppend(last))
    ensures Inv(AfterUp(d, u, TornAppend(last)))
    ensures LogsGrow(d.logs, AfterUp(d, u, TornAppend(last)).disk.logs)
  {
    var t := AfterUp(d, u, TornAppend(last));
    TornLogs(d.logs, d.manifest.logNumber, u, last, t.disk.logs[u.logFile], t.disk.logs);
    TableLater(d, u, t.p.u);
  }

  lemma {:induction false} SyncKeeps(d: Disk, u: Open)
    requires UpOk(d, u) && EnabledUp(d, u, SyncLog)
    ensures Inv(AfterUp(d, u, SyncLog))
    ensures LogsGrow(d.logs, AfterUp(d, u, SyncLog).disk.logs)
  {
    var t := AfterUp(d, u, SyncLog);
    SyncLogs(d.logs, d.manifest.logNumber, u, t.disk.logs[u.logFile], t.disk.logs);
  }

  /** File and sequence numbers grow. */
  lemma {:induction false} LaterViews(d: Disk, u: Open, nextFile: nat, lastSequence: nat)
    requires ViewsOk(d.tables, d.manifest, d.doubt, u.aside, u.logFile, u.nextFile, u.lastSequence)
    requires u.nextFile <= nextFile && u.lastSequence <= lastSequence
    ensures ViewsOk(d.tables, d.manifest, d.doubt, u.aside, u.logFile, nextFile, lastSequence)
  {
  }

  lemma {:induction false} AcceptLogs(logs: map<nat, Log>, base: nat, u: Open, record: Record)
    requires LogPart(logs, base, u) && u.working == Some(record)
    ensures LogPart(logs, base, u.(mem := u.mem + record.writes, working := None, lastSequence := record.last))
  {
    forall e | e in u.mem + record.writes ensures InRange(logs, u.logFile, u.logFile, e) {
      if e in record.writes {
        assert InRecord(logs, u.logFile, |logs[u.logFile].records| - 1, e);
      }
    }
  }

  lemma {:induction false} AcceptKeeps(d: Disk, u: Open)
    requires UpOk(d, u) && EnabledUp(d, u, Accept)
    ensures Inv(AfterUp(d, u, Accept))
  {
    AcceptLogs(d.logs, d.manifest.logNumber, u, u.working.value);
    TableLater(d, u, AfterUp(d, u, Accept).p.u);
  }

  lemma {:induction false} AbandonLogs(logs: map<nat, Log>, base: nat, u: Open, last: nat, failed: bool)
    requires LogPart(logs, base, u) && u.lastSequence <= last
    ensures LogPart(logs, base, u.(working := None, lastSequence := last, failed := failed))
  {
  }

  lemma {:induction false} AbandonKeeps(d: Disk, u: Open, syncError: bool)
    requires UpOk(d, u) && EnabledUp(d, u, Abandon(syncError))
    ensures Inv(AfterUp(d, u, Abandon(syncError)))
  {
    AbandonLogs(d.logs, d.manifest.logNumber, u, u.working.value.last, u.failed || syncError);
    TableLater(d, u, AfterUp(d, u, Abandon(syncError)).p.u);
  }

  lemma {:induction false} SwitchLogs(logs: map<nat, Log>, base: nat, u: Open, more: map<nat, Log>, v: Open)
    requires LogPart(logs, base, u) && u.working.None? && u.imm.None?
    requires more == logs[u.nextFile := Log([], 0, None, {})]
    requires v == u.(imm := Some(u.mem), aside := u.mem, mem := {}, logFile := u.nextFile, nextFile := u.nextFile + 1)
    ensures LogPart(more, base, v) && LogsGrow(logs, more)
  {
    assert LogsGrow(logs, more);
    forall e | e in u.mem ensures InRange(more, base, u.nextFile - 1, e) {
      RangeGrows(logs, more, u.logFile, u.logFile, e);
    }
  }

  lemma {:induction false} SwitchTables(d: Disk, u: Open, v: Open)
    requires UpOk(d, u) && EnabledUp(d, u, SwitchMemtable)
    requires v == u.(imm := Some(u.mem), aside := u.mem, mem := {}, logFile := u.nextFile, nextFile := u.nextFile + 1)
    ensures TablePart(d.tables, d.manifest, d.doubt, v)
  {
    SwitchViews(d, u);
    assert Live(v) == Live(u);
  }

  lemma {:induction false} SwitchKeeps(d: Disk, u: Open)
    requires UpOk(d, u) && EnabledUp(d, u, SwitchMemtable)
    ensures Inv(AfterUp(d, u, SwitchMemtable))
    ensures LogsGrow(d.logs, AfterUp(d, u, SwitchMemtable).disk.logs)
  {
    var t := AfterUp(d, u, SwitchMemtable);
    SwitchLogs(d.logs, d.manifest.logNumber, u, t.disk.logs, t.p.u);
    SwitchTables(d, u, t.p.u);
  }

  /** A memtable is set aside only while the manifest is firm or one compaction edit is being written. */
  lemma {:induction false} SwitchViews(d: Disk, u: Open)
    requires UpOk(d, u) && EnabledUp(d, u, SwitchMemtable)
    ensures ViewsOk(d.tables, d.manifest, d.doubt, u.mem, u.nextFile, u.nextFile + 1, u.lastSequence)
  {
    var base := d.manifest;
    forall n: nat, dropped | n <= |d.doubt| && dropped <= Failures(d.doubt)
      ensures ViewOk(d.tables, base, u.mem, u.nextFile, u.nextFile + 1, u.lastSequence, View(base, d.doubt, n, dropped))
    {
      var v := View(base, d.doubt, n, dropped);
      assert ViewOk(d.tables, base, u.aside, u.logFile, u.nextFile, u.lastSequence, v);
      if n != 0 {
        assert View(base, d.doubt, 0, dropped) == base;
        if 0 !in dropped {
          SwitchView(d, u, v);
        }
      }
    }
  }

  lemma {:induction false} SwitchView(d: Disk, u: Open, v: Manifest)
    requires SavingOk(d.tables, d.doubt, u) && CurrentOk(d.tables, d.manifest, d.doubt, u)
    requires |d.doubt| == 1 && u.compaction.CompactionSaving?
    requires v == Apply(d.manifest, d.doubt[0].edit)
    ensures forall e :: InTables(d.tables, v.tables, e) ==> InTables(d.tables, d.manifest.tables, e)
    ensures v.logNumber == d.manifest.logNumber
  {
    var c := d.doubt[0].edit;
    AppliedData(d.tables, c, d.manifest);
    forall e | InTables(d.tables, c.added, e) ensures InTables(d.tables, d.manifest.tables, e) {
      var n :| n in c.deleted && InTable(d.tables, n, e);
      assert n in u.current;
    }
  }

  // ---------- the flush ----------

  /** The logs do not notice what happens to tables. */
  lemma {:induction false} LogSame(logs: map<nat, Log>, base: nat, u: Open, v: Open)
    requires LogPart(logs, base, u) && u.nextFile <= v.nextFile
    requires v == u.(nextFile := v.nextFile, flush := v.flush, compaction := v.compaction, pending := v.pending, held := v.held,
                     failed := v.failed, doomedLogs := v.doomedLogs, doomedTables := v.doomedTables)
    ensures LogPart(logs, base, v)
  {
  }

  lemma {:induction false} StartFlushTables(d: Disk, u: Open, v: Open)
    requires TablePart(d.tables, d.manifest, d.doubt, u) && EnabledUp(d, u, StartFlush)
    requires v == u.(flush := Building(u.nextFile), pending := u.pending + {u.nextFile}, nextFile := u.nextFile + 1)
    ensures TablePart(d.tables, d.manifest, d.doubt, v)
  {
    LaterViews(d, u, u.nextFile + 1, u.lastSequence);
    assert Live(v) == Live(u);
  }

  lemma {:induction false} StartFlushKeeps(d: Disk, u: Open)
    requires UpOk(d, u) && EnabledUp(d, u, StartFlush)
    ensures Inv(AfterUp(d, u, StartFlush))
  {
    var v := AfterUp(d, u, StartFlush).p.u;
    LogSame(d.logs, d.manifest.logNumber, u, v);
    StartFlushTables(d, u, v);
  }

  /** Putting a table at a number that no live version and no manifest names. */
  lemma {:induction false} PutTable(d: Disk, u: Open, n: nat, contents: set<Write>)
    requires n !in Live(u) && n !in Named(d.manifest, d.doubt)
    requires ViewsOk(d.tables, d.manifest, d.doubt, u.aside, u.logFile, u.nextFile, u.lastSequence)
    requires MovedOn(d.tables, d.manifest, d.doubt, u) && CurrentOk(d.tables, d.manifest, d.doubt, u)
    ensures ViewsOk(d.tables[n := contents], d.manifest, d.doubt, u.aside, u.logFile, u.nextFile, u.lastSequence)
    ensures MovedOn(d.tables[n := contents], d.manifest, d.doubt, u) && CurrentOk(d.tables[n := contents], d.manifest, d.doubt, u)
    ensures forall e {:trigger InTables(d.tables, u.current, e)} :: InTables(d.tables, u.current, e) <==> InTables(d.tables[n := contents], u.current, e)
    ensures forall e {:trigger InTables(d.tables, d.manifest.tables, e)} ::
              InTables(d.tables, d.manifest.tables, e) <==> InTables(d.tables[n := contents], d.manifest.tables, e)
  {
    var tables := d.tables[n := contents];
    OtherTables(d.tables, tables, u.current);
    OtherTables(d.tables, tables, d.manifest.tables);
    forall k: nat, dropped | k <= |d.doubt| && dropped <= Failures(d.doubt)
      ensures ViewOk(tables, d.manifest, u.aside, u.logFile, u.nextFile, u.lastSequence, View(d.manifest, d.doubt, k, dropped))
    {
      PutView(d.tables, d.manifest, d.doubt, u, n, contents, k, dropped);
    }
    if u.logNumber != d.manifest.logNumber {
      forall dropped | dropped <= Failures(d.doubt)
        ensures Holds(tables, View(d.manifest, d.doubt, |d.doubt|, dropped).tables, u.aside)
      {
        ViewNamed(d.manifest, d.doubt, |d.doubt|, dropped);
        OtherTables(d.tables, tables, View(d.manifest, d.doubt, |d.doubt|, dropped).tables);
      }
    }
  }

  lemma {:induction false} PutView(tables: map<nat, set<Write>>, base: Manifest, doubt: seq<Doubt>, u: Open, n: nat, contents: set<Write>,
                   k: nat, dropped: set<nat>)
    requires n !in Named(base, doubt) && k <= |doubt| && dropped <= Failures(doubt)
    requires ViewOk(tables, base, u.aside, u.logFile, u.nextFile, u.lastSequence, View(base, doubt, k, dropped))
    ensures ViewOk(tables[n := contents], base, u.aside, u.logFile, u.nextFile, u.lastSequence, View(base, doubt, k, dropped))
  {
    var v := View(base, doubt, k, dropped);
    ViewNamed(base, doubt, k, dropped);
    ManifestFrame(tables, tables[n := contents], v);
    OtherTables(tables, tables[n := contents], v.tables);
    OtherTables(tables, tables[n := contents], base.tables);
  }

  lemma {:induction false} OneTable(tables: map<nat, set<Write>>, n: nat, contents: set<Write>, e: Write)
    ensures InTables(tables[n := contents], {n}, e) <==> e in contents
  {
    if e in contents {
      assert InTable(tables[n := contents], n, e);
    }
  }

  lemma {:induction false} BuildNothing(d: Disk, u: Open, v: Open)
    requires TablePart(d.tables, d.manifest, d.doubt, u) && u.flush.Building? && u.imm == Some({})
    requires v == u.(flush := Built({}), pending := u.pending - {u.flush.number})
    ensures TablePart(d.tables, d.manifest, d.doubt, v)
  {
    assert Live(v) == Live(u);
  }

  lemma {:induction false} BuildTables(d: Disk, u: Open, tables: map<nat, set<Write>>, v: Open)
    requires TablePart(d.tables, d.manifest, d.doubt, u) && u.flush.Building? && u.imm.Some?
    requires tables == d.tables[u.flush.number := u.imm.value]
    requires v == u.(flush := Built({u.flush.number}), pending := u.pending - {u.flush.number})
    ensures TablePart(tables, d.manifest, d.doubt, v)
  {
    var n := u.flush.number;
    PutTable(d, u, n, u.imm.value);
    forall e ensures InTables(tables, {n}, e) <==> e in u.imm.value {
      OneTable(d.tables, n, u.imm.value, e);
    }
    assert Live(v) == Live(u);
  }

  lemma {:induction false} BuildKeeps(d: Disk, u: Open)
    requires UpOk(d, u) && EnabledUp(d, u, BuildTable)
    ensures Inv(AfterUp(d, u, BuildTable))
  {
    var t := AfterUp(d, u, BuildTable);
    LogSame(d.logs, d.manifest.logNumber, u, t.p.u);
    if u.imm.value == {} {
      BuildNothing(d, u, t.p.u);
    } else {
      BuildTables(d, u, t.disk.tables, t.p.u);
    }
  }

  lemma {:induction false} NumbersMore(tables: map<nat, set<Write>>, base: Manifest, doubt: seq<Doubt>, e: Edit, nextFile: nat)
    requires NumbersOk(tables, base, doubt, nextFile) && e.nextFile == nextFile
    requires e.added <= tables.Keys && forall n | n in e.added :: n < nextFile
    ensures NumbersOk(tables, base, doubt + [Doubt(e, false)], nextFile)
  {
    NamedMore(base, doubt, Doubt(e, false));
  }

  lemma {:induction false} SaveFlushEdit(d: Disk, u: Open)
    requires UpOk(d, u) && EnabledUp(d, u, SaveFlush)
    ensures Harmless(d.tables, d.manifest, u.aside, u.logFile, FlushEdit(u)) && Holds(d.tables, FlushEdit(u).added, u.aside)
  {
  }

  lemma {:induction false} SaveFlushTables(d: Disk, u: Open, e: Edit)
    requires TablePart(d.tables, d.manifest, d.doubt, u) && EnabledUp(d, u, SaveFlush) && e == FlushEdit(u)
    requires Harmless(d.tables, d.manifest, u.aside, u.logFile, e) && Holds(d.tables, e.added, u.aside)
    requires u.logFile < u.nextFile && forall w | w in u.aside :: w.sequence <= u.lastSequence
    ensures TablePart(d.tables, d.manifest, d.doubt + [Doubt(e, false)], u.(flush := FlushSaving))
  {
    SavedViews(d.tables, d.manifest, d.doubt, u.aside, u.logFile, u.nextFile, u.lastSequence, e);
    NumbersMore(d.tables, d.manifest, d.doubt, e, u.nextFile);
    NamedMore(d.manifest, d.doubt, Doubt(e, false));
    SavedNoneOk(d.doubt, e);
    assert Live(u.(flush := FlushSaving)) == Live(u);
  }

  lemma {:induction false} SaveFlushKeeps(d: Disk, u: Open)
    requires UpOk(d, u) && EnabledUp(d, u, SaveFlush)
    ensures Inv(AfterUp(d, u, SaveFlush))
  {
    SaveFlushEdit(d, u);
    LogSame(d.logs, d.manifest.logNumber, u, u.(flush := FlushSaving));
    SaveFlushTables(d, u, FlushEdit(u));
  }

  lemma {:induction false} SavedNoneOk(doubt: seq<Doubt>, e: Edit)
    ensures NoneOk(doubt + [Doubt(e, false)]) <==> NoneOk(doubt)
  {
    var more := doubt + [Doubt(e, false)];
    if NoneOk(more) {
      forall i | 0 <= i < |doubt| ensures !doubt[i].ok {
        assert more[i] == doubt[i];
      }
    }
  }

  /** The one edit in doubt was written: the manifest is firm again. */
  lemma {:induction false} FirmAgain(tables: map<nat, set<Write>>, base: Manifest, doubt: seq<Doubt>, aside: set<Write>, logFile: nat,
                     nextFile: nat, lastSequence: nat)
    requires ViewsOk(tables, base, doubt, aside, logFile, nextFile, lastSequence) && NumbersOk(tables, base, doubt, nextFile)
    requires |doubt| == 1
    ensures ViewsOk(tables, Apply(base, doubt[0].edit), [], aside, logFile, nextFile, lastSequence)
    ensures NumbersOk(tables, Apply(base, doubt[0].edit), [], nextFile)
    ensures Named(Apply(base, doubt[0].edit), []) <= Named(base, doubt)
  {
    var m := Apply(base, doubt[0].edit);
    assert View(base, doubt, 1, {}) == m && ViewOk(tables, base, aside, logFile, nextFile, lastSequence, View(base, doubt, 1, {}));
    assert Failures([]) == {};
    forall n: nat, dropped | n <= 0 && dropped <= Failures([])
      ensures ViewOk(tables, m, aside, logFile, nextFile, lastSequence, View(m, [], n, dropped))
    {
    }
  }

  /** What the version in use carries once an edit was written. */
  lemma {:induction false} CurrentData(tables: map<nat, set<Write>>, current: set<nat>, e: Edit)
    requires forall w :: InTables(tables, e.deleted, w) ==> InTables(tables, e.added, w)
    ensures forall w {:trigger InTables(tables, (current - e.deleted) + e.added, w)} ::
              InTables(tables, (current - e.deleted) + e.added, w) <==> InTables(tables, current, w) || InTables(tables, e.added, w)
  {
    forall w ensures InTables(tables, (current - e.deleted) + e.added, w) <==> InTables(tables, current, w) || InTables(tables, e.added, w) {
      EditData(tables, current, e, w);
    }
  }

  lemma {:induction false} NumbersKept(tables: map<nat, set<Write>>, base: Manifest, doubt: seq<Doubt>, nextFile: nat)
    requires NumbersOk(tables, base, doubt, nextFile) && doubt != []
    ensures NumbersOk(tables, base, Kept(doubt), nextFile) && Named(base, Kept(doubt)) == Named(base, doubt)
  {
    NamedSettled(base, doubt, |doubt| - 1);
  }

  lemma {:induction false} LastNamed(m: Manifest, doubt: seq<Doubt>)
    requires doubt != []
    ensures doubt[|doubt| - 1].edit.added <= Named(m, doubt)
  {
  }

  lemma {:induction false} CommitFlushLogs(logs: map<nat, Log>, base: nat, after: nat, u: Open, current: set<nat>)
    requires LogPart(logs, base, u) && u.imm.Some? && (after == base || after == u.logFile)
    ensures LogPart(logs, after, u.(flush := NoFlush, imm := None, current := current, logNumber := u.logFile))
  {
  }

  /** The edit in doubt with the memtable set aside was the only one. */
  lemma {:induction false} CommitFlushFirm(d: Disk, u: Open, e: Edit, v: Open)
    requires TablePart(d.tables, d.manifest, d.doubt, u) && u.flush.FlushSaving? && |d.doubt| == 1 && e == d.doubt[0].edit
    requires v == u.(flush := NoFlush, imm := None, current := (u.current - e.deleted) + e.added, logNumber := u.logFile)
    ensures TablePart(d.tables, Apply(d.manifest, e), [], v)
  {
    CurrentData(d.tables, u.current, e);
    LastNamed(d.manifest, d.doubt);
    FirmAgain(d.tables, d.manifest, d.doubt, u.aside, u.logFile, u.nextFile, u.lastSequence);
  }

  lemma {:induction false} CommitFlushDoubt(d: Disk, u: Open, e: Edit, v: Open)
    requires TablePart(d.tables, d.manifest, d.doubt, u) && u.flush.FlushSaving? && |d.doubt| > 1 && e == d.doubt[|d.doubt| - 1].edit
    requires d.manifest.logNumber < u.logFile
    requires v == u.(flush := NoFlush, imm := None, current := (u.current - e.deleted) + e.added, logNumber := u.logFile)
    ensures TablePart(d.tables, d.manifest, Kept(d.doubt), v)
  {
    CurrentData(d.tables, u.current, e);
    LastNamed(d.manifest, d.doubt);
    KeptViews(d.tables, d.manifest, d.doubt, u.aside, u.logFile, u.nextFile, u.lastSequence);
    KeptFlush(d.tables, d.manifest, d.doubt, u.aside);
    NumbersKept(d.tables, d.manifest, d.doubt, u.nextFile);
    assert Kept(d.doubt)[|d.doubt| - 1].ok;
  }

  lemma {:induction false} CommitFlushKeeps(d: Disk, u: Open)
    requires UpOk(d, u) && EnabledUp(d, u, CommitFlush)
    ensures Inv(AfterUp(d, u, CommitFlush))
  {
    var e, t := d.doubt[|d.doubt| - 1].edit, AfterUp(d, u, CommitFlush);
    CommitFlushLogs(d.logs, d.manifest.logNumber, t.disk.manifest.logNumber, u, t.p.u.current);
    if |d.doubt| == 1 {
      CommitFlushFirm(d, u, e, t.p.u);
    } else {
      CommitFlushDoubt(d, u, e, t.p.u);
    }
  }

  // ---------- compactions ----------

  lemma {:induction false} OpenOutputTables(d: Disk, u: Open, v: Open)
    requires TablePart(d.tables, d.manifest, d.doubt, u) && EnabledUp(d, u, OpenOutput)
    requires v == u.(compaction := Running(u.compaction.inputs, u.compaction.outputs + {u.nextFile}),
                     pending := u.pending + {u.nextFile}, nextFile := u.nextFile + 1)
    ensures TablePart(d.tables, d.manifest, d.doubt, v)
  {
    LaterViews(d, u, u.nextFile + 1, u.lastSequence);
    assert Live(v) == Live(u);
  }

  lemma {:induction false} OpenOutputKeeps(d: Disk, u: Open)
    requires UpOk(d, u) && EnabledUp(d, u, OpenOutput)
    ensures Inv(AfterUp(d, u, OpenOutput))
  {
    var v := AfterUp(d, u, OpenOutput).p.u;
    LogSame(d.logs, d.manifest.logNumber, u, v);
    OpenOutputTables(d, u, v);
  }

  lemma {:induction false} FinishOutputTables(d: Disk, u: Open, n: nat, contents: set<Write>)
    requires TablePart(d.tables, d.manifest, d.doubt, u) && EnabledUp(d, u, FinishOutput(n, contents))
    ensures TablePart(d.tables[n := contents], d.manifest, d.doubt, u)
  {
    PutTable(d, u, n, contents);
  }

  lemma {:induction false} FinishOutputKeeps(d: Disk, u: Open, n: nat, contents: set<Write>)
    requires UpOk(d, u) && EnabledUp(d, u, FinishOutput(n, contents))
    ensures Inv(AfterUp(d, u, FinishOutput(n, contents)))
  {
    FinishOutputTables(d, u, n, contents);
  }

  /** The edit of a compaction is harmless: its outputs carry the data of its inputs, and its inputs
      that of the version in use. */
  lemma {:induction false} SaveCompactionEdit(d: Disk, u: Open)
    requires EnabledUp(d, u, SaveCompaction) && CompactionOk(u, Named(d.manifest, d.doubt))
    requires CurrentOk(d.tables, d.manifest, d.doubt, u) && MovedOn(d.tables, d.manifest, d.doubt, u)
    ensures Harmless(d.tables, d.manifest, u.aside, u.logFile, CompactionEdit(u))
    ensures forall e :: InTables(d.tables, Apply(Manifest(u.current, 0, 0, 0), CompactionEdit(u)).tables, e)
                   <==> InTables(d.tables, u.current, e)
  {
    var c := CompactionEdit(u);
    CurrentData(d.tables, u.current, c);
    forall e | InTables(d.tables, c.added, e) ensures InTables(d.tables, u.current, e) {
      var n :| n in c.deleted && InTable(d.tables, n, e);
      assert n in u.current;
    }
  }

  /** A harmless edit that keeps the log number goes to the end of the manifest file. */
  lemma {:induction false} SavedTables(d: Disk, u: Open, e: Edit, v: Open)
    requires TablePart(d.tables, d.manifest, d.doubt, u) && Free(u)
    requires u.logFile < u.nextFile && forall w | w in u.aside :: w.sequence <= u.lastSequence
    requires Harmless(d.tables, d.manifest, u.aside, u.logFile, e) && e.logNumber == u.logNumber && e.nextFile == u.nextFile
    requires e.lastSequence == u.lastSequence && e.added <= d.tables.Keys && (forall n | n in e.added :: n < u.nextFile)
    requires e.deleted <= u.current && forall w :: InTables(d.tables, e.deleted, w) <==> InTables(d.tables, e.added, w)
    requires v.compaction.CompactionSaving? && v == u.(compaction := v.compaction)
    ensures TablePart(d.tables, d.manifest, d.doubt + [Doubt(e, false)], v)
  {
    SavedViews(d.tables, d.manifest, d.doubt, u.aside, u.logFile, u.nextFile, u.lastSequence, e);
    NumbersMore(d.tables, d.manifest, d.doubt, e, u.nextFile);
    NamedMore(d.manifest, d.doubt, Doubt(e, false));
    SavedNoneOk(d.doubt, e);
    if u.logNumber != d.manifest.logNumber {
      SavedAside(d.tables, d.manifest, d.doubt, u.aside, e);
    }
    assert Live(v) == Live(u);
  }

  lemma {:induction false} SaveCompactionKeeps(d: Disk, u: Open)
    requires UpOk(d, u) && EnabledUp(d, u, SaveCompaction)
    ensures Inv(AfterUp(d, u, SaveCompaction))
  {
    var v := AfterUp(d, u, SaveCompaction).p.u;
    SaveCompactionEdit(d, u);
    LogSame(d.logs, d.manifest.logNumber, u, v);
    SavedTables(d, u, CompactionEdit(u), v);
  }

  lemma {:induction false} MoveIsHarmless(d: Disk, u: Open, n: nat)
    requires TablePart(d.tables, d.manifest, d.doubt, u) && EnabledUp(d, u, MoveTable(n))
    ensures Harmless(d.tables, d.manifest, u.aside, u.logFile, MoveEdit(u, n))
  {
    forall w | InTables(d.tables, {n}, w) ensures InTables(d.tables, u.current, w) {
      assert InTable(d.tables, n, w);
    }
  }

  lemma {:induction false} MoveTableKeeps(d: Disk, u: Open, n: nat)
    requires UpOk(d, u) && EnabledUp(d, u, MoveTable(n))
    ensures Inv(AfterUp(d, u, MoveTable(n)))
  {
    var v := AfterUp(d, u, MoveTable(n)).p.u;
    MoveIsHarmless(d, u, n);
    LogSame(d.logs, d.manifest.logNumber, u, v);
    SavedTables(d, u, MoveEdit(u, n), v);
  }

  lemma {:induction false} CommitCompactionLogs(logs: map<nat, Log>, base: nat, after: nat, u: Open, v: Open)
    requires LogPart(logs, base, u) && (after == base || after == u.logNumber) && (u.imm.Some? ==> u.logNumber == base)
    requires v == u.(compaction := v.compaction, current := v.current, pending := v.pending)
    ensures LogPart(logs, after, v)
  {
  }

  /** What a compaction adds, the version in use had. */
  lemma {:induction false} CommittedData(d: Disk, u: Open, w: Write)
    requires SavingOk(d.tables, d.doubt, u) && u.compaction.CompactionSaving?
    ensures var e := d.doubt[|d.doubt| - 1].edit;
            InTables(d.tables, (u.current - e.deleted) + e.added, w) <==> InTables(d.tables, u.current, w)
  {
    var e := d.doubt[|d.doubt| - 1].edit;
    EditData(d.tables, u.current, e, w);
    if InTables(d.tables, e.added, w) {
      var n :| n in e.deleted && InTable(d.tables, n, w);
      assert n in u.current;
    }
  }

  lemma {:induction false} CompactionData(d: Disk, u: Open, e: Edit)
    requires SavingOk(d.tables, d.doubt, u) && u.compaction.CompactionSaving? && d.doubt != [] && e == d.doubt[|d.doubt| - 1].edit
    ensures forall w {:trigger InTables(d.tables, (u.current - e.deleted) + e.added, w)} ::
              InTables(d.tables, (u.current - e.deleted) + e.added, w) <==> InTables(d.tables, u.current, w)
  {
    forall w ensures InTables(d.tables, (u.current - e.deleted) + e.added, w) <==> InTables(d.tables, u.current, w) {
      CommittedData(d, u, w);
    }
  }

  lemma {:induction false} CommitCompactionFirm(d: Disk, u: Open, e: Edit, v: Open)
    requires TablePart(d.tables, d.manifest, d.doubt, u) && u.compaction.CompactionSaving? && |d.doubt| == 1 && e == d.doubt[0].edit
    requires v == u.(compaction := NoCompaction, current := (u.current - e.deleted) + e.added, pending := u.pending - u.compaction.outputs)
    ensures TablePart(d.tables, Apply(d.manifest, e), [], v)
  {
    CompactionData(d, u, e);
    LastNamed(d.manifest, d.doubt);
    FirmAgain(d.tables, d.manifest, d.doubt, u.aside, u.logFile, u.nextFile, u.lastSequence);
  }

  lemma {:induction false} CommitCompactionDoubt(d: Disk, u: Open, e: Edit, v: Open)
    requires TablePart(d.tables, d.manifest, d.doubt, u) && u.compaction.CompactionSaving? && |d.doubt| > 1
    requires e == d.doubt[|d.doubt| - 1].edit
    requires v == u.(compaction := NoCompaction, current := (u.current - e.deleted) + e.added, pending := u.pending - u.compaction.outputs)
    ensures TablePart(d.tables, d.manifest, Kept(d.doubt), v)
  {
    CompactionData(d, u, e);
    LastNamed(d.manifest, d.doubt);
    KeptViews(d.tables, d.manifest, d.doubt, u.aside, u.logFile, u.nextFile, u.lastSequence);
    NumbersKept(d.tables, d.manifest, d.doubt, u.nextFile);
    assert Kept(d.doubt)[|d.doubt| - 1].ok;
    if u.logNumber != d.manifest.logNumber {
      KeptAside(d.tables, d.manifest, d.doubt, u.aside);
    }
  }

  lemma {:induction false} CommitCompactionKeeps(d: Disk, u: Open)
    requires UpOk(d, u) && EnabledUp(d, u, CommitCompaction)
    ensures Inv(AfterUp(d, u, CommitCompaction))
  {
    var e, t := d.doubt[|d.doubt| - 1].edit, AfterUp(d, u, CommitCompaction);
    CommitCompactionLogs(d.logs, d.manifest.logNumber, t.disk.manifest.logNumber, u, t.p.u);
    if |d.doubt| == 1 {
      CommitCompactionFirm(d, u, e, t.p.u);
    } else {
      CommitCompactionDoubt(d, u, e, t.p.u);
    }
  }

  lemma {:induction false} FailTables(d: Disk, u: Open, v: Open)
    requires TablePart(d.tables, d.manifest, d.doubt, u) && EnabledUp(d, u, Fail) && v == AfterUp(d, u, Fail).p.u
    ensures TablePart(d.tables, d.manifest, d.doubt, v)
  {
    assert Live(v) == Live(u);
  }

  lemma {:induction false} FailKeeps(d: Disk, u: Open)
    requires UpOk(d, u) && EnabledUp(d, u, Fail)
    ensures Inv(AfterUp(d, u, Fail))
  {
    var v := AfterUp(d, u, Fail).p.u;
    LogSame(d.logs, d.manifest.logNumber, u, v);
    FailTables(d, u, v);
  }

  // ---------- readers and garbage ----------

  lemma {:induction false} PinKeeps(d: Disk, u: Open)
    requires UpOk(d, u)
    ensures Inv(AfterUp(d, u, Pin)) && Live(AfterUp(d, u, Pin).p.u) == Live(u)
  {
    var v := AfterUp(d, u, Pin).p.u;
    forall n | n in Live(u) ensures n in Live(v) {
      if n !in u.current {
        var i :| 0 <= i < |u.held| && n in u.held[i];
        assert v.held[i] == u.held[i];
      }
    }
    assert Live(v) == Live(u);
  }

  lemma {:induction false} UnpinKeeps(d: Disk, u: Open, i: nat)
    requires UpOk(d, u) && EnabledUp(d, u, Unpin(i))
    ensures Inv(AfterUp(d, u, Unpin(i))) && Live(AfterUp(d, u, Unpin(i)).p.u) <= Live(u)
  {
    UnpinLive(u, AfterUp(d, u, Unpin(i)).p.u, i);
  }

  lemma {:induction false} UnpinLive(u: Open, v: Open, i: nat)
    requires i < |u.held| && v.current == u.current && v.held == u.held[..i] + u.held[i + 1..]
    ensures Live(v) <= Live(u)
  {
    forall n | n in Live(v) ensures n in Live(u) {
      if n !in v.current {
        var k :| 0 <= k < |v.held| && n in v.held[k];
        assert v.held[k] == u.held[if k < i then k else k + 1];
      }
    }
  }

  lemma {:induction false} CollectKeeps(d: Disk, u: Open)
    requires UpOk(d, u) && EnabledUp(d, u, Collect)
    ensures Inv(AfterUp(d, u, Collect))
  {
  }

  lemma {:induction false} DeleteLogKeeps(d: Disk, u: Open, n: nat)
    requires UpOk(d, u) && EnabledUp(d, u, DeleteLog(n))
    ensures Inv(AfterUp(d, u, DeleteLog(n)))
  {
    forall e | e in u.mem ensures InRange(d.logs - {n}, u.logFile, u.logFile, e) {
      RangeKept(d.logs, n, u.logFile, u.logFile, e);
    }
    if Older(u, d.manifest.logNumber) {
      forall e | e in u.aside ensures InRange(d.logs - {n}, d.manifest.logNumber, u.logFile - 1, e) {
        RangeKept(d.logs, n, d.manifest.logNumber, u.logFile - 1, e);
      }
    }
  }

  /** Deleting a log with a smaller number. */
  lemma {:induction false} RangeKept(logs: map<nat, Log>, n: nat, from: nat, to: int, e: Write)
    requires n < from
    ensures InRange(logs, from, to, e) ==> InRange(logs - {n}, from, to, e)
    ensures InFirmRange(logs, from, to, e) ==> InFirmRange(logs - {n}, from, to, e)
  {
    if InFirmRange(logs, from, to, e) {
      var k: nat, i: nat :| from <= k <= to && InRecord(logs, k, i, e) && i < Firm(logs[k]);
      assert InRecord(logs - {n}, k, i, e);
    }
    if InRange(logs, from, to, e) {
      var k: nat, i: nat :| from <= k <= to && InRecord(logs, k, i, e);
      assert InRecord(logs - {n}, k, i, e);
    }
  }

  lemma {:induction false} DeleteTableKeeps(d: Disk, u: Open, n: nat)
    requires UpOk(d, u) && EnabledUp(d, u, DeleteTable(n))
    ensures Inv(AfterUp(d, u, DeleteTable(n)))
  {
    var tables := d.tables - {n};
    assert View(d.manifest, d.doubt, 0, {}) == d.manifest;
    ManifestFrame(d.tables, tables, d.manifest);
    OtherTables(d.tables, tables, u.current);
    forall k: nat, dropped | k <= |d.doubt| && dropped <= Failures(d.doubt)
      ensures ViewOk(tables, d.manifest, u.aside, u.logFile, u.nextFile, u.lastSequence, View(d.manifest, d.doubt, k, dropped))
    {
    }
  }

  // ---------- crash and recovery ----------

  lemma {:induction false} CutLogs(d: Disk, keep: map<nat, set<nat>>, upto: nat, dropped: set<nat>, renewed: bool)
    requires CanCrash(d, keep, upto, dropped, renewed) && LogsOk(d.logs)
    ensures LogsOk(Crashed(d, keep, upto, dropped, renewed).logs)
  {
    var c := Crashed(d, keep, upto, dropped, renewed);
    forall n | n in d.logs ensures LogOk(c.logs[n]) {
      assert LogOk(d.logs[n]);
    }
  }

  lemma {:induction false} CrashUpKeeps(d: Disk, u: Open, keep: map<nat, set<nat>>, upto: nat, dropped: set<nat>, renewed: bool)
    requires UpOk(d, u) && CanCrash(d, keep, upto, dropped, renewed)
    ensures Inv(State(Crashed(d, keep, upto, dropped, renewed), Down))
  {
    CutLogs(d, keep, upto, dropped, renewed);
    var c := Crashed(d, keep, upto, dropped, renewed);
    forall n: nat, more {:trigger MayBeCut(c, n, more)} | MayBeCut(c, n, more)
      ensures ManifestOk(c.tables, View(c.manifest, c.doubt, n, more))
    {
      assert ViewOk(d.tables, d.manifest, u.aside, u.logFile, u.nextFile, u.lastSequence, View(d.manifest, d.doubt, n, more));
    }
  }

  lemma {:induction false} BeginKeeps(d: Disk)
    requires Inv(State(d, Down)) && Enabled(State(d, Down), BeginRecovery)
    ensures Inv(After(State(d, Down), BeginRecovery))
  {
    assert MayBeCut(d, d.upto, d.dropped);
  }

  lemma {:induction false} ReadKeeps(d: Disk, o: Opening)
    requires RecoveringOk(d, o) && EnabledRecovering(d, o, ReadRecord)
    ensures Inv(AfterRecovering(d, o, ReadRecord))
  {
    var (n, at) := o.reading.value;
    var o' := AfterRecovering(d, o, ReadRecord).p.o;
    assert LogOk(d.logs[n]);
    forall e ensures InTables(d.tables, o'.added, e) || e in o'.mem <==> Read(d.logs, Seen(d).logNumber, o', e) {
      ReadOneMore(d.logs, Seen(d).logNumber, o, o', e);
    }
  }

  lemma {:induction false} ReadOneMore(logs: map<nat, Log>, from: nat, o: Opening, o': Opening, e: Write)
    requires o.reading.Some? && o.reading.value.0 in o.todo && o.reading.value.0 in logs && o.reading.value.0 >= from
    requires o.reading.value.1 < |logs[o.reading.value.0].records|
    requires o' == o.(reading := Some((o.reading.value.0, o.reading.value.1 + 1)), mem := o'.mem, lastSequence := o'.lastSequence)
    ensures Read(logs, from, o', e) <==> Read(logs, from, o, e) || InRecord(logs, o.reading.value.0, o.reading.value.1, e)
  {
    var (n, at) := o.reading.value;
    if InRecord(logs, n, at, e) {
      assert Read(logs, from, o', e);
    }
    if Read(logs, from, o, e) {
      var k: nat, i: nat :| k >= from && InRecord(logs, k, i, e) && (k !in o.todo || (n == k && i < at));
      assert InRecord(logs, k, i, e);
    }
  }

  lemma {:induction false} DumpKeeps(d: Disk, o: Opening)
    requires RecoveringOk(d, o) && EnabledRecovering(d, o, DumpMemtable)
    ensures Inv(AfterRecovering(d, o, DumpMemtable))
  {
    if o.mem != {} {
      var n := o.nextFile;
      var tables := d.tables[n := o.mem];
      DumpCuts(d, o);
      forall e ensures InTables(tables, o.added + {n}, e) <==> InTables(d.tables, o.added, e) || e in o.mem {
        UnionTables(tables, o.added, {n}, e);
        OtherTable(d.tables, tables, o.added, e);
        OneTable(d.tables, n, o.mem, e);
      }
    }
  }

  /** The number of the new table is in no manifest that a further crash may leave. */
  lemma {:induction false} DumpCuts(d: Disk, o: Opening)
    requires CutsOk(d) && Seen(d).nextFile < o.nextFile
    ensures CutsOk(d.(tables := d.tables[o.nextFile := o.mem]))
  {
    var c := d.(tables := d.tables[o.nextFile := o.mem]);
    var bound := if d.upto == 0 then d.manifest.nextFile else d.doubt[d.upto - 1].edit.nextFile;
    forall n: nat, dropped {:trigger MayBeCut(c, n, dropped)} | MayBeCut(c, n, dropped)
      ensures ManifestOk(c.tables, View(c.manifest, c.doubt, n, dropped))
    {
      assert MayBeCut(d, n, dropped);
      LessSeen(d.manifest, d.doubt, d.upto, d.dropped, n, dropped, bound);
      ManifestFrame(d.tables, c.tables, View(d.manifest, d.doubt, n, dropped));
    }
  }

  lemma {:induction false} EndLogKeeps(d: Disk, o: Opening)
    requires RecoveringOk(d, o) && EnabledRecovering(d, o, EndLog)
    ensures Inv(AfterRecovering(d, o, EndLog))
  {
    var o' := AfterRecovering(d, o, EndLog).p.o;
    forall e ensures Read(d.logs, Seen(d).logNumber, o, e) <==> Read(d.logs, Seen(d).logNumber, o', e) {
      ReadWholeLog(d.logs, Seen(d).logNumber, o, o', e);
    }
  }

  lemma {:induction false} ReadWholeLog(logs: map<nat, Log>, from: nat, o: Opening, o': Opening, e: Write)
    requires o.reading.Some? && o.reading.value.0 in o.todo && o.reading.value.0 in logs
    requires o.reading.value.1 == |logs[o.reading.value.0].records|
    requires o' == o.(reading := None, todo := o.todo - {o.reading.value.0}, nextFile := o'.nextFile)
    ensures Read(logs, from, o, e) <==> Read(logs, from, o', e)
  {
    if Read(logs, from, o, e) {
      var k: nat, i: nat :| k >= from && InRecord(logs, k, i, e)
        && (k !in o.todo || (o.reading.value.0 == k && i < o.reading.value.1));
      assert k !in o'.todo;
    }
    if Read(logs, from, o', e) {
      var k: nat, i: nat :| k >= from && InRecord(logs, k, i, e) && k !in o'.todo;
      assert k !in o.todo || (o.reading.value.0 == k && i < o.reading.value.1);
    }
  }

  lemma {:induction false} CreateLogKeeps(d: Disk, o: Opening)
    requires RecoveringOk(d, o) && EnabledRecovering(d, o, CreateLog)
    ensures Inv(AfterRecovering(d, o, CreateLog))
    ensures LogsGrow(d.logs, AfterRecovering(d, o, CreateLog).disk.logs)
  {
    var t := AfterRecovering(d, o, CreateLog);
    assert LogsGrow(d.logs, t.disk.logs) && LogsGrow(t.disk.logs - {o.nextFile}, d.logs);
    forall e ensures Read(d.logs, Seen(d).logNumber, o, e) <==> Read(t.disk.logs, Seen(d).logNumber, t.p.o, e) {
      if Read(d.logs, Seen(d).logNumber, o, e) {
        var k: nat, i: nat :| k >= Seen(d).logNumber && InRecord(d.logs, k, i, e);
        assert InRecord(t.disk.logs, k, i, e);
      }
      if Read(t.disk.logs, Seen(d).logNumber, t.p.o, e) {
        var k: nat, i: nat :| k >= Seen(d).logNumber && InRecord(t.disk.logs, k, i, e);
        assert InRecord(d.logs, k, i, e);
      }
    }
    SameCuts(d, t.disk);
  }

  lemma {:induction false} SameCuts(d: Disk, c: Disk)
    requires CutsOk(d) && c == d.(logs := c.logs, renewed := c.renewed)
    ensures CutsOk(c)
  {
    forall n: nat, dropped {:trigger MayBeCut(c, n, dropped)} | MayBeCut(c, n, dropped)
      ensures ManifestOk(c.tables, View(c.manifest, c.doubt, n, dropped))
    {
      assert MayBeCut(d, n, dropped);
    }
  }

  /** Once every log is read the tables hold exactly what was stored. */
  lemma {:induction false} AllRead(d: Disk, o: Opening, e: Write)
    requires RecoveringOk(d, o) && o.newLog.Some?
    ensures InTables(d.tables, Seen(d).tables + o.added, e) <==> Stored(d, e)
  {
    UnionTables(d.tables, Seen(d).tables, o.added, e);
    if InLogs(d.logs, Seen(d).logNumber, e) {
      var k: nat, i: nat :| k >= Seen(d).logNumber && InRecord(d.logs, k, i, e);
      assert Read(d.logs, Seen(d).logNumber, o, e);
    }
    if Read(d.logs, Seen(d).logNumber, o, e) {
      var k: nat, i: nat :| k >= Seen(d).logNumber && InRecord(d.logs, k, i, e);
      assert InLogs(d.logs, Seen(d).logNumber, e);
    }
  }

  lemma {:induction false} RenewedManifest(d: Disk, o: Opening)
    requires RecoveringOk(d, o) && d.renewed.Some?
    ensures ManifestOk(d.tables, d.renewed.value)
  {
    assert MayBeCut(d, d.upto, d.dropped);
  }

  lemma {:induction false} SaveRecoveryKeeps(d: Disk, o: Opening)
    requires RecoveringOk(d, o) && EnabledRecovering(d, o, SaveRecovery)
    ensures Inv(AfterRecovering(d, o, SaveRecovery))
  {
    SameCuts(d, AfterRecovering(d, o, SaveRecovery).disk);
  }

  /** A manifest without edits in doubt. */
  lemma {:induction false} NoCuts(d: Disk)
    requires d.doubt == [] && d.upto == 0 && d.dropped == {} && ManifestOk(d.tables, d.manifest)
    ensures CutsOk(d)
  {
  }

  lemma {:induction false} CrashRecoveringKeeps(d: Disk, o: Opening, keep: map<nat, set<nat>>, upto: nat, dropped: set<nat>, renewed: bool)
    requires RecoveringOk(d, o) && CanCrash(d, keep, upto, dropped, renewed)
    ensures Inv(State(Crashed(d, keep, upto, dropped, renewed), Down))
  {
    CutLogs(d, keep, upto, dropped, renewed);
    var c := Crashed(d, keep, upto, dropped, renewed);
    if renewed {
      RenewedManifest(d, o);
      NoCuts(c);
    } else {
      forall n: nat, more {:trigger MayBeCut(c, n, more)} | MayBeCut(c, n, more)
        ensures ManifestOk(c.tables, View(c.manifest, c.doubt, n, more))
      {
        assert MayBeCut(d, n, more);
      }
    }
  }

  lemma {:induction false} CommitRecoveryKeeps(d: Disk, o: Opening)
    requires RecoveringOk(d, o) && EnabledRecovering(d, o, CommitRecovery)
    ensures Inv(AfterRecovering(d, o, CommitRecovery))
  {
    RenewedManifest(d, o);
    var t := AfterRecovering(d, o, CommitRecovery);
    assert Failures([]) == {};
    forall n: nat, dropped | n <= 0 && dropped <= Failures([])
      ensures ViewOk(d.tables, t.disk.manifest, {}, t.p.u.logFile, o.nextFile, o.lastSequence, View(t.disk.manifest, [], n, dropped))
    {
    }
    RenewedBound(d, o);
  }

  lemma {:induction false} RenewedBound(d: Disk, o: Opening)
    requires RecoveringOk(d, o) && o.newLog.Some? && d.renewed.Some?
    ensures d.renewed.value.logNumber == o.newLog.value && d.renewed.value.nextFile == o.nextFile
    ensures d.renewed.value.lastSequence == o.lastSequence
  {
  }

  lemma {:induction false} StartCompactionKeeps(d: Disk, u: Open, inputs: set<nat>)
    requires UpOk(d, u) && EnabledUp(d, u, StartCompaction(inputs))
    ensures Inv(AfterUp(d, u, StartCompaction(inputs)))
  {
  }

  lemma {:induction false} ErrorKeeps(d: Disk, u: Open)
    requires UpOk(d, u)
    ensures Inv(AfterUp(d, u, BackgroundError))
  {
  }

  predicate WriterStep(step: Step) {
    step.Append? || step.TornAppend? || step.SyncLog? || step.Accept? || step.Abandon? || step.SwitchMemtable?
  }

  predicate FlushStep(step: Step) {
    step.StartFlush? || step.BuildTable? || step.SaveFlush? || step.CommitFlush? || step.Fail?
  }

  predicate CompactionStep(step: Step) {
    || step.StartCompaction? || step.OpenOutput? || step.FinishOutput? || step.SaveCompaction? || step.MoveTable?
    || step.CommitCompaction?
  }

  lemma {:induction false} WriterStepKeeps(d: Disk, u: Open, step: Step)
    requires UpOk(d, u) && EnabledUp(d, u, step) && WriterStep(step)
    ensures Inv(AfterUp(d, u, step))
  {
    match step
    case Append(record) => AppendKeeps(d, u, record);
    case TornAppend(last) => TornKeeps(d, u, last);
    case SyncLog => SyncKeeps(d, u);
    case Accept => AcceptKeeps(d, u);
    case Abandon(syncError) => AbandonKeeps(d, u, syncError);
    case SwitchMemtable => SwitchKeeps(d, u);
  }

  lemma {:induction false} FlushStepKeeps(d: Disk, u: Open, step: Step)
    requires UpOk(d, u) && EnabledUp(d, u, step) && FlushStep(step)
    ensures Inv(AfterUp(d, u, step))
  {
    match step
    case StartFlush => StartFlushKeeps(d, u);
    case BuildTable => BuildKeeps(d, u);
    case SaveFlush => SaveFlushKeeps(d, u);
    case CommitFlush => CommitFlushKeeps(d, u);
    case Fail => FailKeeps(d, u);
  }

  lemma {:induction false} CompactionStepKeeps(d: Disk, u: Open, step: Step)
    requires UpOk(d, u) && EnabledUp(d, u, step) && CompactionStep(step)
    ensures Inv(AfterUp(d, u, step))
  {
    match step
    case StartCompaction(inputs) => StartCompactionKeeps(d, u, inputs);
    case OpenOutput => OpenOutputKeeps(d, u);
    case FinishOutput(n, contents) => FinishOutputKeeps(d, u, n, contents);
    case SaveCompaction => SaveCompactionKeeps(d, u);
    case MoveTable(n) => MoveTableKeeps(d, u, n);
    case CommitCompaction => CommitCompactionKeeps(d, u);
  }

  lemma {:induction false} OtherStepKeeps(d: Disk, u: Open, step: Step)
    requires UpOk(d, u) && EnabledUp(d, u, step) && !WriterStep(step) && !FlushStep(step) && !CompactionStep(step)
    ensures Inv(AfterUp(d, u, step))
  {
    match step
    case Pin => PinKeeps(d, u);
    case Unpin(i) => UnpinKeeps(d, u, i);
    case Collect => CollectKeeps(d, u);
    case DeleteLog(n) => DeleteLogKeeps(d, u, n);
    case DeleteTable(n) => DeleteTableKeeps(d, u, n);
    case BackgroundError => ErrorKeeps(d, u);
    case Crash(keep, upto, dropped, renewed) => CrashUpKeeps(d, u, keep, upto, dropped, renewed);
  }

  lemma {:induction false} UpStepKeeps(d: Disk, u: Open, step: Step)
    requires UpOk(d, u) && EnabledUp(d, u, step)
    ensures Inv(AfterUp(d, u, step))
  {
    if WriterStep(step) {
      WriterStepKeeps(d, u, step);
    } else if FlushStep(step) {
      FlushStepKeeps(d, u, step);
    } else if CompactionStep(step) {
      CompactionStepKeeps(d, u, step);
    } else {
      OtherStepKeeps(d, u, step);
    }
  }

  lemma {:induction false} RecoveryStepKeeps(d: Disk, o: Opening, step: Step)
    requires RecoveringOk(d, o) && EnabledRecovering(d, o, step)
    ensures Inv(AfterRecovering(d, o, step))
  {
    match step
    case NextLog(n) => NextLogKeeps(d, o, n);
    case ReadRecord => ReadKeeps(d, o);
    case DumpMemtable => DumpKeeps(d, o);
    case EndLog => EndLogKeeps(d, o);
    case CreateLog => CreateLogKeeps(d, o);
    case SaveRecovery => SaveRecoveryKeeps(d, o);
    case CommitRecovery => CommitRecoveryKeeps(d, o);
    case Crash(keep, upto, dropped, renewed) => CrashRecoveringKeeps(d, o, keep, upto, dropped, renewed);
  }

  lemma {:induction false} NextLogKeeps(d: Disk, o: Opening, n: nat)
    requires RecoveringOk(d, o) && EnabledRecovering(d, o, NextLog(n))
    ensures Inv(AfterRecovering(d, o, NextLog(n)))
  {
    var o' := o.(reading := Some((n, 0)));
    forall e ensures Read(d.logs, Seen(d).logNumber, o, e) <==> Read(d.logs, Seen(d).logNumber, o', e) {
    }
  }

  lemma {:induction false} StepKeeps(s: State, step: Step)
    requires Inv(s) && Enabled(s, step)
    ensures Inv(After(s, step))
  {
    match s.p
    case Up(u) => UpStepKeeps(s.disk, u, step);
    case Recovering(o) => RecoveryStepKeeps(s.disk, o, step);
    case Down => BeginKeeps(s.disk);
  }

  // ---------- no safe write is ever lost ----------

  lemma {:induction false} SwitchSafe(d: Disk, u: Open, e: Write)
    requires UpOk(d, u) && EnabledUp(d, u, SwitchMemtable) && Safe(State(d, Up(u)), e)
    ensures Safe(AfterUp(d, u, SwitchMemtable), e)
  {
    var t := AfterUp(d, u, SwitchMemtable);
    SwitchKeeps(d, u);
    if e in u.mem && InFirmRange(d.logs, u.logFile, u.logFile, e) {
      RangeGrows(d.logs, t.disk.logs, u.logFile, u.logFile, e);
      var n: nat, i: nat :| u.logFile <= n <= u.logFile && InRecord(t.disk.logs, n, i, e) && i < Firm(t.disk.logs[n]);
      assert InFirmRange(t.disk.logs, d.manifest.logNumber, u.nextFile - 1, e);
    }
  }

  lemma {:induction false} AppendSafe(d: Disk, u: Open, step: Step, e: Write)
    requires UpOk(d, u) && EnabledUp(d, u, step) && Safe(State(d, Up(u)), e)
    requires step.Append? || step.SyncLog? || step.TornAppend?
    ensures Safe(AfterUp(d, u, step), e)
  {
    if step.Append? {
      AppendKeeps(d, u, step.record);
    } else if step.SyncLog? {
      SyncKeeps(d, u);
    } else {
      TornKeeps(d, u, step.last);
    }
    RangeGrows(d.logs, AfterUp(d, u, step).disk.logs, u.logFile, u.logFile, e);
    RangeGrows(d.logs, AfterUp(d, u, step).disk.logs, d.manifest.logNumber, u.logFile - 1, e);
  }

  lemma {:induction false} CommitSafe(d: Disk, u: Open, step: Step, e: Write)
    requires UpOk(d, u) && EnabledUp(d, u, step) && Safe(State(d, Up(u)), e)
    requires step.CommitFlush? || step.CommitCompaction?
    ensures Safe(AfterUp(d, u, step), e)
  {
    if |d.doubt| == 1 {
      AppliedData(d.tables, d.doubt[0].edit, d.manifest);
    }
  }

  lemma {:induction false} DeleteTableSafe(d: Disk, u: Open, n: nat, e: Write)
    requires UpOk(d, u) && EnabledUp(d, u, DeleteTable(n)) && Safe(State(d, Up(u)), e)
    ensures Safe(AfterUp(d, u, DeleteTable(n)), e)
  {
    OtherTable(d.tables, d.tables - {n}, u.current, e);
  }

  lemma {:induction false} DeleteLogSafe(d: Disk, u: Open, n: nat, e: Write)
    requires UpOk(d, u) && EnabledUp(d, u, DeleteLog(n)) && Safe(State(d, Up(u)), e)
    ensures Safe(AfterUp(d, u, DeleteLog(n)), e)
  {
    RangeKept(d.logs, n, u.logFile, u.logFile, e);
    RangeKept(d.logs, n, d.manifest.logNumber, u.logFile - 1, e);
  }

  /** Whatever manifest a crash of an open database leaves has the write or calls for its log. */
  lemma {:induction false} SafeSurvives(d: Disk, u: Open, e: Write)
    requires UpOk(d, u) && Safe(State(d, Up(u)), e)
    ensures SafeOnDisk(d, e)
  {
    forall m {:trigger Candidate(d, m)} | Candidate(d, m) ensures InTables(d.tables, m.tables, e) || InFirm(d.logs, m.logNumber, e) {
      var n: nat, dropped :| MayBeCut(d, n, dropped) && m == View(d.manifest, d.doubt, n, dropped);
      assert ViewOk(d.tables, d.manifest, u.aside, u.logFile, u.nextFile, u.lastSequence, m);
      if !InTables(d.tables, m.tables, e) {
        var to := if e in u.mem && InFirmRange(d.logs, u.logFile, u.logFile, e) then u.logFile else u.logFile - 1;
        var from := if to == u.logFile then u.logFile else d.manifest.logNumber;
        var k: nat, i: nat :| from <= k <= to && InRecord(d.logs, k, i, e) && i < Firm(d.logs[k]);
        assert k >= m.logNumber;
      }
    }
  }

  lemma {:induction false} CrashSafe(d: Disk, keep: map<nat, set<nat>>, upto: nat, dropped: set<nat>, renewed: bool, e: Write)
    requires CanCrash(d, keep, upto, dropped, renewed) && SafeOnDisk(d, e)
    ensures SafeOnDisk(Crashed(d, keep, upto, dropped, renewed), e)
  {
    var c := Crashed(d, keep, upto, dropped, renewed);
    forall m {:trigger Candidate(c, m)} | Candidate(c, m) ensures InTables(c.tables, m.tables, e) || InFirm(c.logs, m.logNumber, e) {
      CrashedCandidate(d, keep, upto, dropped, renewed, m);
      if InFirm(d.logs, m.logNumber, e) {
        var n: nat, i: nat :| n >= m.logNumber && InRecord(d.logs, n, i, e) && i < Firm(d.logs[n]);
        assert InRecord(c.logs, n, i, e);
      }
    }
  }

  /** What a second crash may leave a first one may. */
  lemma {:induction false} CrashedCandidate(d: Disk, keep: map<nat, set<nat>>, upto: nat, dropped: set<nat>, renewed: bool, m: Manifest)
    requires CanCrash(d, keep, upto, dropped, renewed) && Candidate(Crashed(d, keep, upto, dropped, renewed), m)
    ensures Candidate(d, m)
  {
    var c := Crashed(d, keep, upto, dropped, renewed);
    var n: nat, more :| MayBeCut(c, n, more) && m == View(c.manifest, c.doubt, n, more);
    if !renewed {
      assert MayBeCut(d, n, more);
    }
  }

  lemma {:induction false} PutSafe(d: Disk, u: Open, step: Step, e: Write)
    requires UpOk(d, u) && EnabledUp(d, u, step) && Safe(State(d, Up(u)), e) && (step.BuildTable? || step.FinishOutput?)
    ensures Safe(AfterUp(d, u, step), e)
  {
    if step.FinishOutput? {
      PutTable(d, u, step.n, step.contents);
    } else if u.imm.value != {} {
      PutTable(d, u, u.flush.number, u.imm.value);
    }
  }

  /** Steps that leave the tables of the firm manifest, the firm records and the memory as they are. */
  predicate QuietStep(step: Step) {
    || step.Abandon? || step.StartFlush? || step.SaveFlush? || step.StartCompaction? || step.OpenOutput? || step.SaveCompaction?
    || step.MoveTable? || step.Fail? || step.Pin? || step.Unpin? || step.Collect? || step.BackgroundError?
  }

  lemma {:induction false} QuietLeaves(d: Disk, u: Open, step: Step)
    requires EnabledUp(d, u, step) && (QuietStep(step) || step.Accept?)
    ensures var t := AfterUp(d, u, step);
            && t.p.Up? && t.disk.tables == d.tables && t.disk.manifest == d.manifest && t.disk.logs == d.logs
            && t.p.u.logFile == u.logFile && t.p.u.aside == u.aside && u.mem <= t.p.u.mem
  {
  }

  lemma {:induction false} SameSafe(d: Disk, u: Open, c: Disk, v: Open, e: Write)
    requires Safe(State(d, Up(u)), e) && c.tables == d.tables && c.manifest == d.manifest && c.logs == d.logs
    requires v.logFile == u.logFile && v.aside == u.aside && u.mem <= v.mem
    ensures Safe(State(c, Up(v)), e)
  {
  }

  lemma {:induction false} QuietSafe(d: Disk, u: Open, step: Step, e: Write)
    requires EnabledUp(d, u, step) && Safe(State(d, Up(u)), e) && (QuietStep(step) || step.Accept?)
    ensures Safe(AfterUp(d, u, step), e)
  {
    var t := AfterUp(d, u, step);
    QuietLeaves(d, u, step);
    SameSafe(d, u, t.disk, t.p.u, e);
  }

  lemma {:induction false} UpStepSafe(d: Disk, u: Open, step: Step, e: Write)
    requires UpOk(d, u) && EnabledUp(d, u, step) && Safe(State(d, Up(u)), e)
    ensures Safe(AfterUp(d, u, step), e)
  {
    if QuietStep(step) || step.Accept? {
      QuietSafe(d, u, step, e);
    } else {
      match step
      case Append(record) => AppendSafe(d, u, step, e);
      case TornAppend(last) => AppendSafe(d, u, step, e);
      case SyncLog => AppendSafe(d, u, step, e);
      case SwitchMemtable => SwitchSafe(d, u, e);
      case BuildTable => PutSafe(d, u, step, e);
      case FinishOutput(n, contents) => PutSafe(d, u, step, e);
      case DeleteLog(n) => DeleteLogSafe(d, u, n, e);
      case DeleteTable(n) => DeleteTableSafe(d, u, n, e);
      case Crash(keep, upto, dropped, renewed) =>
        SafeSurvives(d, u, e);
        CrashSafe(d, keep, upto, dropped, renewed, e);
      case CommitFlush => CommitSafe(d, u, step, e);
      case CommitCompaction => CommitSafe(d, u, step, e);
    }
  }

  lemma {:induction false} RecoveryStepSafe(d: Disk, o: Opening, step: Step, e: Write)
    requires RecoveringOk(d, o) && EnabledRecovering(d, o, step) && SafeOnDisk(d, e)
    ensures Safe(AfterRecovering(d, o, step), e)
  {
    match step
    case DumpMemtable => DumpSafe(d, o, e);
    case CreateLog => CreateLogSafe(d, o, e);
    case SaveRecovery => SaveRecoverySafe(d, o, e);
    case CommitRecovery => CommitRecoverySafe(d, o, e);
    case Crash(keep, upto, dropped, renewed) => CrashSafe(d, keep, upto, dropped, renewed, e);
    case _ =>
  }

  lemma {:induction false} DumpSafe(d: Disk, o: Opening, e: Write)
    requires RecoveringOk(d, o) && EnabledRecovering(d, o, DumpMemtable) && SafeOnDisk(d, e)
    ensures SafeOnDisk(AfterRecovering(d, o, DumpMemtable).disk, e)
  {
    var c := AfterRecovering(d, o, DumpMemtable).disk;
    if o.mem != {} {
      forall m {:trigger Candidate(c, m)} | Candidate(c, m) ensures InTables(c.tables, m.tables, e) || InFirm(c.logs, m.logNumber, e) {
        var n: nat, dropped :| MayBeCut(c, n, dropped) && m == View(c.manifest, c.doubt, n, dropped);
        assert MayBeCut(d, n, dropped) && Candidate(d, m);
        var bound := if d.upto == 0 then d.manifest.nextFile else d.doubt[d.upto - 1].edit.nextFile;
        LessSeen(d.manifest, d.doubt, d.upto, d.dropped, n, dropped, bound);
        OtherTable(d.tables, c.tables, m.tables, e);
      }
    }
  }

  lemma {:induction false} CreateLogSafe(d: Disk, o: Opening, e: Write)
    requires RecoveringOk(d, o) && EnabledRecovering(d, o, CreateLog) && SafeOnDisk(d, e)
    ensures SafeOnDisk(AfterRecovering(d, o, CreateLog).disk, e)
  {
    var c := AfterRecovering(d, o, CreateLog).disk;
    forall m {:trigger Candidate(c, m)} | Candidate(c, m) ensures InTables(c.tables, m.tables, e) || InFirm(c.logs, m.logNumber, e) {
      SameCandidate(d, c, m);
      if InFirm(d.logs, m.logNumber, e) {
        var n: nat, i: nat :| n >= m.logNumber && InRecord(d.logs, n, i, e) && i < Firm(d.logs[n]);
        assert InRecord(c.logs, n, i, e);
      }
    }
  }

  lemma {:induction false} SameCandidate(d: Disk, c: Disk, m: Manifest)
    requires c == d.(logs := c.logs, renewed := c.renewed) && Candidate(c, m) && c.renewed != Some(m)
    ensures Candidate(d, m)
  {
    var n: nat, dropped :| MayBeCut(c, n, dropped) && m == View(c.manifest, c.doubt, n, dropped);
    assert MayBeCut(d, n, dropped);
  }

  /** What is safe is found by a recovery from what is seen now. */
  lemma {:induction false} SafeIsStored(d: Disk, e: Write)
    requires SeenOk(d) && SafeOnDisk(d, e)
    ensures Stored(d, e)
  {
    assert MayBeCut(d, d.upto, d.dropped) && Candidate(d, Seen(d));
    if InFirm(d.logs, Seen(d).logNumber, e) {
      var n: nat, i: nat :| n >= Seen(d).logNumber && InRecord(d.logs, n, i, e) && i < Firm(d.logs[n]);
      assert InLogs(d.logs, Seen(d).logNumber, e);
    }
  }

  lemma {:induction false} SaveRecoverySafe(d: Disk, o: Opening, e: Write)
    requires RecoveringOk(d, o) && EnabledRecovering(d, o, SaveRecovery) && SafeOnDisk(d, e)
    ensures SafeOnDisk(AfterRecovering(d, o, SaveRecovery).disk, e)
  {
    var c := AfterRecovering(d, o, SaveRecovery).disk;
    SafeIsStored(d, e);
    AllRead(d, o, e);
    forall m {:trigger Candidate(c, m)} | Candidate(c, m) ensures InTables(c.tables, m.tables, e) || InFirm(c.logs, m.logNumber, e) {
      if c.renewed != Some(m) {
        SameCandidate(d, c, m);
      }
    }
  }

  lemma {:induction false} CommitRecoverySafe(d: Disk, o: Opening, e: Write)
    requires RecoveringOk(d, o) && EnabledRecovering(d, o, CommitRecovery) && SafeOnDisk(d, e)
    ensures Safe(AfterRecovering(d, o, CommitRecovery), e)
  {
    SafeIsStored(d, e);
    AllRead(d, o, e);
  }

  lemma {:induction false} StepSafe(s: State, step: Step, e: Write)
    requires Inv(s) && Enabled(s, step) && Safe(s, e)
    ensures Safe(After(s, step), e)
  {
    match s.p
    case Up(u) => UpStepSafe(s.disk, u, step, e);
    case Recovering(o) => RecoveryStepSafe(s.disk, o, step, e);
    case Down =>
  }

  // ---------- which writes are safe ----------

  /** The write is in one record at most: each takes a sequence number of its own. */
  ghost predicate LoggedOnce(logs: map<nat, Log>, e: Write) {
    forall n: nat, i: nat, m: nat, j: nat {:trigger InRecord(logs, n, i, e), InRecord(logs, m, j, e)} ::
      InRecord(logs, n, i, e) && InRecord(logs, m, j, e) ==> n == m && i == j
  }

  /** What is safe on disk is exactly what every crash leaves to the recovery after it. */
  lemma {:induction false} CrashDecides(d: Disk, e: Write)
    requires LogsOk(d.logs) && SeenOk(d)
    ensures SafeOnDisk(d, e) <==> forall keep, upto, dropped, renewed {:trigger CanCrash(d, keep, upto, dropped, renewed)} ::
                                    CanCrash(d, keep, upto, dropped, renewed) ==> Stored(Crashed(d, keep, upto, dropped, renewed), e)
  {
    if SafeOnDisk(d, e) {
      forall keep, upto, dropped, renewed {:trigger CanCrash(d, keep, upto, dropped, renewed)} | CanCrash(d, keep, upto, dropped, renewed)
        ensures Stored(Crashed(d, keep, upto, dropped, renewed), e)
      {
        CrashSafe(d, keep, upto, dropped, renewed, e);
        SafeIsStored(Crashed(d, keep, upto, dropped, renewed), e);
      }
    } else {
      var m :| Candidate(d, m) && !InTables(d.tables, m.tables, e) && !InFirm(d.logs, m.logNumber, e);
      WorstCrash(d, m, e);
    }
  }

  function FirmRecords(l: Log): set<nat> {
    set i | i in l.present && i < Firm(l)
  }

  /** The crash that leaves a given manifest and of each log only the firm records. */
  lemma {:induction false} WorstCrash(d: Disk, m: Manifest, e: Write)
    requires LogsOk(d.logs) && SeenOk(d)
    requires Candidate(d, m) && !InTables(d.tables, m.tables, e) && !InFirm(d.logs, m.logNumber, e)
    ensures exists keep, upto, dropped, renewed {:trigger CanCrash(d, keep, upto, dropped, renewed)} ::
              CanCrash(d, keep, upto, dropped, renewed) && !Stored(Crashed(d, keep, upto, dropped, renewed), e)
  {
    var keep := map n | n in d.logs :: FirmRecords(d.logs[n]);
    forall n | n in d.logs ensures keep[n] <= d.logs[n].present {
      assert LogOk(d.logs[n]);
    }
    var renewed := d.renewed == Some(m);
    var n: nat, dropped := d.upto, d.dropped;
    if !renewed {
      n, dropped :| MayBeCut(d, n, dropped) && m == View(d.manifest, d.doubt, n, dropped);
    }
    assert MayBeCut(d, n, dropped);
    assert CanCrash(d, keep, n, dropped, renewed);
    var c := Crashed(d, keep, n, dropped, renewed);
    if InLogs(c.logs, m.logNumber, e) {
      var k: nat, i: nat :| k >= m.logNumber && InRecord(c.logs, k, i, e);
      assert InRecord(d.logs, k, i, e);
      assert false;
    }
  }

  /** The writes that no crash takes: a write that readers find survives every crash exactly if it is
      in a table of the firm part of the manifest, or in a firm record of the log of its memtable. */
  lemma {:induction false} SafeIsExact(d: Disk, u: Open, e: Write)
    requires UpOk(d, u) && Readable(d, u, e) && LoggedOnce(d.logs, e)
    ensures Safe(State(d, Up(u)), e) <==>
              forall keep, upto, dropped, renewed {:trigger CanCrash(d, keep, upto, dropped, renewed)} ::
                CanCrash(d, keep, upto, dropped, renewed) ==> Stored(Crashed(d, keep, upto, dropped, renewed), e)
  {
    CrashDecides(d, e);
    if Safe(State(d, Up(u)), e) {
      SafeSurvives(d, u, e);
    }
    if SafeOnDisk(d, e) {
      assert MayBeCut(d, 0, {}) && View(d.manifest, d.doubt, 0, {}) == d.manifest && Candidate(d, d.manifest);
      if InFirm(d.logs, d.manifest.logNumber, e) {
        FirmInMemory(d, u, e);
      }
    }
  }

  lemma {:induction false} FirmInMemory(d: Disk, u: Open, e: Write)
    requires UpOk(d, u) && Readable(d, u, e) && LoggedOnce(d.logs, e) && InFirm(d.logs, d.manifest.logNumber, e)
    ensures Safe(State(d, Up(u)), e)
  {
    var n: nat, i: nat :| n >= d.manifest.logNumber && InRecord(d.logs, n, i, e) && i < Firm(d.logs[n]);
    if e in u.mem {
      var k: nat, j: nat :| u.logFile <= k <= u.logFile && InRecord(d.logs, k, j, e);
      assert InFirmRange(d.logs, u.logFile, u.logFile, e);
    } else if !InTables(d.tables, d.manifest.tables, e) {
      var k: nat, j: nat :| d.manifest.logNumber <= k <= u.logFile - 1 && InRecord(d.logs, k, j, e);
      assert InFirmRange(d.logs, d.manifest.logNumber, u.logFile - 1, e);
    }
  }

  /** A batch that was appended, synced and then accepted is safe exactly if no append failed before it
      in its log. */
  lemma {:induction false} SyncedIsSafe(d: Disk, u: Open, e: Write)
    requires UpOk(d, u) && EnabledUp(d, u, Accept) && e in u.working.value.writes
    requires d.logs[u.logFile].synced == |d.logs[u.logFile].records|
    requires LoggedOnce(d.logs, e) && !InTables(d.tables, u.current, e)
    ensures var l := d.logs[u.logFile];
            Safe(AfterUp(d, u, Accept), e) <==> l.damaged.None? || l.damaged.value == |l.records|
  {
    var l := d.logs[u.logFile];
    assert LogOk(l);
    assert InRecord(d.logs, u.logFile, |l.records| - 1, e);
    if l.damaged.None? || l.damaged.value == |l.records| {
      assert InFirmRange(d.logs, u.logFile, u.logFile, e);
    }
    if exists n: nat, i: nat {:trigger InRecord(d.logs, n, i, e)} :: InRecord(d.logs, n, i, e) && i < Firm(d.logs[n]) {
      var n: nat, i: nat :| InRecord(d.logs, n, i, e) && i < Firm(d.logs[n]);
      assert n == u.logFile && i == |l.records| - 1;
    }
  }

  /** With no error but of appends there is no edit in doubt, and what was flushed is in the firm part
      of the manifest. */
  lemma {:induction false} FlushedIsSafe(d: Disk, u: Open, e: Write)
    requires UpOk(d, u) && InTables(d.tables, u.current, e)
    ensures NoneOk(d.doubt) ==> Safe(State(d, Up(u)), e)
    ensures !u.failed ==> NoneOk(d.doubt)
  {
  }

  // ---------- whole runs ----------

  ghost predicate Runs(s: State, steps: seq<Step>)
    decreases |steps|
  {
    steps == [] || (Enabled(s, steps[0]) && Runs(After(s, steps[0]), steps[1..]))
  }

  ghost function Final(s: State, steps: seq<Step>): State
    requires Runs(s, steps)
    decreases |steps|
  {
    if steps == [] then s else Final(After(s, steps[0]), steps[1..])
  }

  /** A new database, before it is opened for the first time. */
  function NewDB(): State {
    State(Disk(map[], map[], Manifest({}, 0, 2, 0), [], 0, {}, None), Down)
  }

  lemma {:induction false} NewInv()
    ensures Inv(NewDB())
  {
    NoCuts(NewDB().disk);
  }

  lemma {:induction false} RunKeeps(s: State, steps: seq<Step>)
    requires Inv(s) && Runs(s, steps)
    ensures Inv(Final(s, steps))
    decreases |steps|
  {
    if steps != [] {
      StepKeeps(s, steps[0]);
      RunKeeps(After(s, steps[0]), steps[1..]);
    }
  }

  lemma {:induction false} RunSafe(s: State, steps: seq<Step>, e: Write)
    requires Inv(s) && Runs(s, steps) && Safe(s, e)
    ensures Safe(Final(s, steps), e)
    decreases |steps|
  {
    if steps != [] {
      StepKeeps(s, steps[0]);
      StepSafe(s, steps[0], e);
      RunSafe(After(s, steps[0]), steps[1..], e);
    }
  }

  /** Crash safety: a write that is safe at some point of a run is readable whenever the database is
      open from then on, through any number of flushes, compactions, deletions, failed appends, failed
      manifest writes, crashes and recoveries, crashes during recovery included. */
  lemma {:induction false} NeverLost(steps: seq<Step>, later: seq<Step>, e: Write)
    requires Runs(NewDB(), steps) && Runs(Final(NewDB(), steps), later) && Safe(Final(NewDB(), steps), e)
    ensures var t := Final(Final(NewDB(), steps), later);
            && Safe(t, e)
            && (t.p.Up? ==> Readable(t.disk, t.p.u, e) && e.sequence <= t.p.u.lastSequence)
  {
    NewInv();
    RunKeeps(NewDB(), steps);
    var s := Final(NewDB(), steps);
    RunSafe(s, later, e);
    RunKeeps(s, later);
    var t := Final(s, later);
    if t.p.Up? {
      SafeIsReadable(t.disk, t.p.u, e);
      SequenceCovers(t.disk, t.p.u, e);
    }
  }

  lemma {:induction false} SafeIsReadable(d: Disk, u: Open, e: Write)
    requires UpOk(d, u) && Safe(State(d, Up(u)), e)
    ensures Readable(d, u, e)
  {
  }

  /** The last sequence number covers everything readable: no new write shadows or repeats an old one. */
  lemma {:induction false} SequenceCovers(d: Disk, u: Open, e: Write)
    requires UpOk(d, u) && Readable(d, u, e)
    ensures e.sequence <= u.lastSequence
  {
    assert View(d.manifest, d.doubt, 0, {}) == d.manifest;
    if InTables(d.tables, d.manifest.tables, e) {
      var n :| n in d.manifest.tables && InTable(d.tables, n, e);
    }
  }

  /** Opening restores exactly what the crash left: the tables of the manifest and every record of the
      logs it still needs. */
  lemma {:induction false} RecoversExactly(d: Disk, o: Opening, e: Write)
    requires RecoveringOk(d, o) && EnabledRecovering(d, o, CommitRecovery)
    ensures var t := AfterRecovering(d, o, CommitRecovery);
            && t.p.Up?
            && (Readable(t.disk, t.p.u, e) <==> Stored(d, e))
            && (Stored(d, e) ==> e.sequence <= t.p.u.lastSequence)
  {
    AllRead(d, o, e);
    CommitRecoveryKeeps(d, o);
    var t := AfterRecovering(d, o, CommitRecovery);
    if Stored(d, e) {
      SequenceCovers(t.disk, t.p.u, e);
    }
  }

  /** RemoveObsoleteFiles: a file is deleted only when no edit is in doubt and neither a live version,
      nor a table being built, nor a recovery from the manifest needs it. */
  lemma {:induction false} OnlyGarbageIsDeleted(steps: seq<Step>, step: Step)
    requires Runs(NewDB(), steps) && Enabled(Final(NewDB(), steps), step) && (step.DeleteLog? || step.DeleteTable?)
    ensures var s := Final(NewDB(), steps);
            && s.p.Up? && s.disk.doubt == []
            && (step.DeleteLog? ==> step.n < s.disk.manifest.logNumber)
            && (step.DeleteTable? ==>
                  && step.n !in Live(s.p.u) && step.n !in s.p.u.pending && step.n !in s.disk.manifest.tables
                  && s.p.u.flush.NoFlush?
                  && (s.p.u.compaction.Running? ==>
                        step.n !in s.p.u.compaction.inputs && step.n !in s.p.u.compaction.outputs))
  {
    NewInv();
    RunKeeps(NewDB(), steps);
  }

  /** The background thread deletes files: until the run ends some are left to delete. */
  ghost predicate Sweeps(s: State, steps: seq<Step>)
    requires Runs(s, steps)
    decreases |steps|
  {
    steps == [] ||
    (&& s.p.Up? && (s.p.u.doomedLogs != {} || s.p.u.doomedTables != {}) && !steps[0].Crash?
     && Sweeps(After(s, steps[0]), steps[1..]))
  }

  /** On disk are these tables and, of the logs numbered below `first`, these, besides those to delete. */
  ghost predicate Left(s: State, tables: set<nat>, logs: set<nat>, first: nat) {
    && s.p.Up? && first <= s.p.u.nextFile
    && s.disk.tables.Keys == tables + s.p.u.doomedTables && tables !! s.p.u.doomedTables
    && logs !! s.p.u.doomedLogs
    && forall n | n < first :: n in s.disk.logs <==> n in logs || n in s.p.u.doomedLogs
  }

  function NeededTables(d: Disk, u: Open): set<nat> {
    d.tables.Keys * (Live(u) + u.pending)
  }

  function NeededLogs(d: Disk, u: Open): set<nat> {
    set n | n in d.logs && u.logNumber <= n
  }

  lemma {:induction false} CollectLeaves(d: Disk, u: Open)
    requires UpOk(d, u) && EnabledUp(d, u, Collect)
    ensures Left(AfterUp(d, u, Collect), NeededTables(d, u), NeededLogs(d, u), u.nextFile)
    ensures u.imm.None? ==> NeededLogs(d, u) == {u.logFile}
  {
  }

  lemma {:induction false} StepLeaves(d: Disk, u: Open, step: Step, tables: set<nat>, logs: set<nat>, first: nat)
    requires UpOk(d, u) && EnabledUp(d, u, step) && !step.Crash? && (u.doomedLogs != {} || u.doomedTables != {})
    requires Left(State(d, Up(u)), tables, logs, first)
    ensures Left(AfterUp(d, u, step), tables, logs, first)
  {
    assert u.flush.NoFlush? && !u.compaction.CompactionSaving? && !Free(u);
  }

  lemma {:induction false} SweepLeaves(s: State, steps: seq<Step>, tables: set<nat>, logs: set<nat>, first: nat)
    requires Inv(s) && Runs(s, steps) && Sweeps(s, steps) && Left(s, tables, logs, first)
    ensures Left(Final(s, steps), tables, logs, first)
    decreases |steps|
  {
    if steps != [] {
      StepKeeps(s, steps[0]);
      StepLeaves(s.disk, s.p.u, steps[0], tables, logs, first);
      SweepLeaves(After(s, steps[0]), steps[1..], tables, logs, first);
    }
  }

  /** Files are chosen at `s`, and with the `later` steps all of them are deleted. */
  ghost predicate SweptClean(s: State, later: seq<Step>) {
    && Enabled(s, Collect) && Runs(After(s, Collect), later) && Sweeps(After(s, Collect), later)
    && var p := Final(After(s, Collect), later).p;
       p.Up? && p.u.doomedLogs == {} && p.u.doomedTables == {}
  }

  lemma {:induction false} SweepCleans(s: State, later: seq<Step>)
    requires Inv(s) && SweptClean(s, later)
    ensures Left(Final(After(s, Collect), later), NeededTables(s.disk, s.p.u), NeededLogs(s.disk, s.p.u), s.p.u.nextFile)
    ensures s.p.u.imm.None? ==> NeededLogs(s.disk, s.p.u) == {s.p.u.logFile}
  {
    StepKeeps(s, Collect);
    CollectLeaves(s.disk, s.p.u);
    SweepLeaves(After(s, Collect), later, NeededTables(s.disk, s.p.u), NeededLogs(s.disk, s.p.u), s.p.u.nextFile);
  }

  /** RemoveObsoleteFiles: once the files chosen are deleted, whatever writers and readers do meanwhile,
      the tables on disk are exactly those a live version names or that were being built, and no log
      older than LogNumber is left: with no memtable waiting, only the one in use. No file that was
      needed is gone. */
  lemma {:induction false} GarbageGoes(steps: seq<Step>, later: seq<Step>)
    requires Runs(NewDB(), steps) && SweptClean(Final(NewDB(), steps), later)
    ensures var s := Final(NewDB(), steps);
            var t := Final(After(s, Collect), later);
            && t.disk.tables.Keys == NeededTables(s.disk, s.p.u)
            && (forall n | n < s.p.u.nextFile :: n in t.disk.logs <==> n in NeededLogs(s.disk, s.p.u))
            && (s.p.u.imm.None? ==> NeededLogs(s.disk, s.p.u) == {s.p.u.logFile})
  {
    NewInv();
    RunKeeps(NewDB(), steps);
    SweepCleans(Final(NewDB(), steps), later);
  }

  /** Every table that a reader, a compaction or a recovery from whatever manifest a crash leaves may
      open is on disk, and what is in memory is in the logs that the firm part of the manifest calls
      for. */
  lemma {:induction false} NeededFilesExist(steps: seq<Step>, m: Manifest)
    requires Runs(NewDB(), steps) && Final(NewDB(), steps).p.Up? && Candidate(Final(NewDB(), steps).disk, m)
    ensures var s := Final(NewDB(), steps);
            var u := s.p.u;
            && Live(u) <= s.disk.tables.Keys && m.tables <= s.disk.tables.Keys
            && (u.compaction.Running? ==> u.compaction.inputs <= s.disk.tables.Keys)
            && forall e | InMemory(u, e) :: InLogs(s.disk.logs, s.disk.manifest.logNumber, e)
  {
    NewInv();
    RunKeeps(NewDB(), steps);
    var s := Final(NewDB(), steps);
    var u := s.p.u;
    var n: nat, dropped :| MayBeCut(s.disk, n, dropped) && m == View(s.disk.manifest, s.disk.doubt, n, dropped);
    assert ViewOk(s.disk.tables, s.disk.manifest, u.aside, u.logFile, u.nextFile, u.lastSequence, m);
    forall e | InMemory(u, e) ensures InLogs(s.disk.logs, s.disk.manifest.logNumber, e) {
      var k: nat, i: nat :| s.disk.manifest.logNumber <= k && InRecord(s.disk.logs, k, i, e);
    }
  }

  /** Flushes, compactions, deletions and the rest change nothing a reader finds: only an accepted
      write does. */
  lemma {:induction false} ReadersUndisturbed(d: Disk, u: Open, step: Step, e: Write)
    requires UpOk(d, u) && EnabledUp(d, u, step) && !step.Accept? && !step.Crash?
    ensures var t := AfterUp(d, u, step); t.p.Up? && (Readable(t.disk, t.p.u, e) <==> Readable(d, u, e))
  {
    if QuietStep(step) || step.Append? || step.TornAppend? || step.SyncLog? || step.DeleteLog? {
      QuietReaders(d, u, step, e);
    } else {
      match step
      case SwitchMemtable => SwitchReaders(d, u, e);
      case BuildTable => PutReaders(d, u, step, e);
      case FinishOutput(n, contents) => PutReaders(d, u, step, e);
      case DeleteTable(n) => OtherTable(d.tables, d.tables - {n}, u.current, e);
      case CommitFlush => CommitReaders(d, u, e);
      case CommitCompaction => CommittedData(d, u, e);
    }
  }

  lemma {:induction false} QuietReaders(d: Disk, u: Open, step: Step, e: Write)
    requires EnabledUp(d, u, step)
    requires QuietStep(step) || step.Append? || step.TornAppend? || step.SyncLog? || step.DeleteLog?
    ensures var t := AfterUp(d, u, step); t.p.Up? && (Readable(t.disk, t.p.u, e) <==> Readable(d, u, e))
  {
  }

  lemma {:induction false} SwitchReaders(d: Disk, u: Open, e: Write)
    requires EnabledUp(d, u, SwitchMemtable)
    ensures var t := AfterUp(d, u, SwitchMemtable); t.p.Up? && (Readable(t.disk, t.p.u, e) <==> Readable(d, u, e))
  {
  }

  lemma {:induction false} PutReaders(d: Disk, u: Open, step: Step, e: Write)
    requires UpOk(d, u) && EnabledUp(d, u, step) && (step.BuildTable? || step.FinishOutput?)
    ensures var t := AfterUp(d, u, step); t.p.Up? && (Readable(t.disk, t.p.u, e) <==> Readable(d, u, e))
  {
    if step.FinishOutput? {
      PutTable(d, u, step.n, step.contents);
    } else if u.imm.value != {} {
      PutTable(d, u, u.flush.number, u.imm.value);
    }
  }

  /** The memtable set aside is in the tables its edit adds. */
  lemma {:induction false} CommitReaders(d: Disk, u: Open, e: Write)
    requires UpOk(d, u) && EnabledUp(d, u, CommitFlush)
    ensures var t := AfterUp(d, u, CommitFlush); t.p.Up? && (Readable(t.disk, t.p.u, e) <==> Readable(d, u, e))
  {
    CurrentData(d.tables, u.current, d.doubt[|d.doubt| - 1].edit);
  }
}
