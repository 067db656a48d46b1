/** One store of three parts: the queue of writers, the files on disk and the tree of tables
    (db/db_impl.cc). WriteQueue.dfy, Recovery.dfy and Lsm.dfy each follow one of them; here every step
    of a writer is a few steps on the files and at most one of the tree, and all three agree on what
    was written. */
module WritePath {
  import opened Dbformat
  import opened Version
  import Comparator
  import opened WriteBatch
  import Queue = WriteQueue
  import Files = Recovery
  import Limits = RecoveryLimits
  import Tree = Lsm
  import Trees = CompactionLimits

  // ---------- the same writes ----------

  /** The writes of numbered operations, as the files know them. */
  function Ids(entries: seq<(nat, Op)>): set<Files.Write> {
    set i | 0 <= i < |entries| :: Files.Write(entries[i].0, entries[i].0)
  }

  lemma {:induction false} IdsConcat(a: seq<(nat, Op)>, b: seq<(nat, Op)>, both: seq<(nat, Op)>)
    requires both == a + b
    ensures Ids(both) == Ids(a) + Ids(b)
  {
    forall e | e in Ids(a) + Ids(b) ensures e in Ids(both) {
      if e in Ids(a) {
        var i :| 0 <= i < |a| && e == Files.Write(a[i].0, a[i].0);
        assert both[i] == a[i];
      } else {
        var i :| 0 <= i < |b| && e == Files.Write(b[i].0, b[i].0);
        assert both[|a| + i] == b[i];
      }
    }
  }

  /** The log record of a group. */
  function RecordOf(first: nat, ops: seq<Op>): Files.Record
    requires first > 0
  {
    Files.Record(Ids(Numbered(first, ops)), first + |ops| - 1)
  }

  lemma {:induction false} IdsWithin(first: nat, ops: seq<Op>)
    requires first > 0
    ensures forall e | e in RecordOf(first, ops).writes :: first <= e.sequence <= RecordOf(first, ops).last
  {
  }

  predicate SameRecord(r: Queue.Record, s: Files.Record) {
    r.first > 0 && s == RecordOf(r.first, Queue.AllOps(r.members))
  }

  predicate SameLog(f: Queue.LogFile, l: Files.Log) {
    && |f.records| == |l.records| && f.synced == l.synced && f.damaged == l.damaged
    && forall i | 0 <= i < |f.records| :: SameRecord(f.records[i], l.records[i])
  }

  /** The log files of the queue, as far as they still are on disk, under these numbers. */
  predicate SameLogs(files: seq<Queue.LogFile>, logs: map<nat, Files.Log>, numbers: seq<nat>) {
    && |numbers| == |files| && (forall n | n in logs :: n in numbers) && (forall i, j | 0 <= i < j < |numbers| :: numbers[i] < numbers[j])
    && forall f | 0 <= f < |numbers| && numbers[f] in logs :: SameLog(files[f], logs[numbers[f]])
  }

  /** The record of the group at work, once it is in the log. */
  function InHand(w: Queue.Work, last: nat): Option<Files.Record> {
    match w
    case Busy(members, Some(_), _) => Some(RecordOf(last + 1, Queue.AllOps(members)))
    case _ => None
  }

  /** A sync only fails on a record that is in the log. */
  predicate SyncedPlace(w: Queue.Work) {
    w.Busy? && w.phase == Queue.Broken(true) ==> w.place.Some?
  }

  /** The log files are those of the queue, and readers of the open database find these writes. */
  ghost predicate Ties(files: seq<Queue.LogFile>, working: Option<Files.Record>, last: nat, failed: bool, found: set<Files.Write>,
                       d: Files.Disk, u: Files.Open, numbers: seq<nat>) {
    && files != [] && SameLogs(files, d.logs, numbers) && numbers[|numbers| - 1] == u.logFile
    && last == u.lastSequence && failed == u.failed && u.working == working
    && forall e :: Files.Readable(d, u, e) <==> e in found
  }

  /** The files hold what the queue wrote, and their readers find what it accepted. */
  ghost predicate Linked(q: Queue.State, d: Files.Disk, u: Files.Open, numbers: seq<nat>) {
    && Ties(q.files, InHand(q.work, q.lastSequence), q.lastSequence, q.failed, Ids(Queue.Applied(q.answers)), d, u, numbers)
    && SyncedPlace(q.work)
  }

  // ---------- the logs ----------

  lemma {:induction false} LastReplaced(files: seq<Queue.LogFile>, logs: map<nat, Files.Log>, numbers: seq<nat>,
                                        f: Queue.LogFile, n: nat, l: Files.Log)
    requires files != [] && SameLogs(files, logs, numbers) && n == numbers[|numbers| - 1] && SameLog(f, l)
    ensures SameLogs(files[|files| - 1 := f], logs[n := l], numbers)
  {
  }

  lemma {:induction false} LogsAppended(files: seq<Queue.LogFile>, logs: map<nat, Files.Log>, numbers: seq<nat>, record: Queue.Record,
                                        n: nat, l: Files.Log)
    requires files != [] && SameLogs(files, logs, numbers) && n == numbers[|numbers| - 1] && n in logs && record.first > 0
    requires var k := logs[n];
             l == k.(records := k.records + [RecordOf(record.first, Queue.AllOps(record.members))], present := k.present + {|k.records|})
    ensures SameLogs(Queue.Appended(files, record), logs[n := l], numbers)
  {
    var last := files[|files| - 1];
    assert SameLog(last, logs[n]);
    var f := last.(records := last.records + [record]);
    forall i | 0 <= i < |f.records| ensures SameRecord(f.records[i], l.records[i]) {
      assert i < |last.records| ==> SameRecord(last.records[i], logs[n].records[i]);
    }
    LastReplaced(files, logs, numbers, f, n, l);
  }

  lemma {:induction false} LogsTorn(files: seq<Queue.LogFile>, logs: map<nat, Files.Log>, numbers: seq<nat>, n: nat, l: Files.Log)
    requires files != [] && SameLogs(files, logs, numbers) && n == numbers[|numbers| - 1] && n in logs
    requires var k := logs[n]; l == if k.damaged.None? then k.(damaged := Some(|k.records|)) else k
    ensures SameLogs(Queue.Damaged(files, |files[|files| - 1].records|), logs[n := l], numbers)
  {
    var last := files[|files| - 1];
    assert SameLog(last, logs[n]);
    var f := if last.damaged.None? then last.(damaged := Some(|last.records|)) else last;
    LastReplaced(files, logs, numbers, f, n, l);
  }

  lemma {:induction false} LogsSynced(files: seq<Queue.LogFile>, logs: map<nat, Files.Log>, numbers: seq<nat>, n: nat, l: Files.Log)
    requires files != [] && SameLogs(files, logs, numbers) && n == numbers[|numbers| - 1] && n in logs
    requires l == logs[n].(synced := |logs[n].records|)
    ensures SameLogs(Queue.Synced(files), logs[n := l], numbers)
  {
    var last := files[|files| - 1];
    assert SameLog(last, logs[n]);
    LastReplaced(files, logs, numbers, last.(synced := |last.records|), n, l);
  }

  lemma {:induction false} LogsSwitched(files: seq<Queue.LogFile>, logs: map<nat, Files.Log>, numbers: seq<nat>, n: nat)
    requires SameLogs(files, logs, numbers) && forall i | 0 <= i < |numbers| :: numbers[i] < n
    ensures SameLogs(files + [Queue.LogFile([], 0, None)], logs[n := Files.Log([], 0, None, {})], numbers + [n])
  {
  }

  // ---------- a writer's step on the files ----------

  /** What a step of the queue does to the files. A group whose append failed takes its sequence numbers
      when it is answered. */
  function Mirror(q: Queue.State, step: Queue.Step): seq<Files.Step>
    requires Queue.Enabled(q, step)
  {
    match step
    case BackgroundError => [Files.BackgroundError]
    case SwitchLog => [Files.SwitchMemtable]
    case AppendRecord(ok, landed) =>
      (if ok then [] else [Files.TornAppend(q.lastSequence)])
      + (if landed then [Files.Append(RecordOf(q.lastSequence + 1, Queue.AllOps(q.work.members)))] else [])
    case Sync(ok) => if ok then [Files.SyncLog] else []
    case Finish =>
      if q.work.place.None? then [Files.TornAppend(q.lastSequence + |Queue.AllOps(q.work.members)|)]
      else if q.work.phase.Broken? then [Files.Abandon(q.work.phase.syncError)]
      else [Files.Accept]
    case _ => []
  }

  function NumbersAfter(step: Queue.Step, u: Files.Open, numbers: seq<nat>): seq<nat> {
    if step.SwitchLog? then numbers + [u.nextFile] else numbers
  }

  /** The open database after these steps from a new one. */
  ghost predicate Reached(trace: seq<Files.Step>, d: Files.Disk, u: Files.Open) {
    Limits.Reaches(Files.NewDB(), trace, Files.State(d, Files.Up(u)))
  }

  lemma {:induction false} ReachedOk(trace: seq<Files.Step>, d: Files.Disk, u: Files.Open)
    requires Reached(trace, d, u)
    ensures Files.UpOk(d, u)
  {
    Files.NewInv();
    Files.RunKeeps(Files.NewDB(), trace);
  }

  lemma {:induction false} OneStep(trace: seq<Files.Step>, d: Files.Disk, u: Files.Open, step: Files.Step)
    returns (c: Files.Disk, v: Files.Open)
    requires Reached(trace, d, u) && Files.EnabledUp(d, u, step) && !step.Crash?
    ensures Files.AfterUp(d, u, step) == Files.State(c, Files.Up(v)) && Reached(trace + [step], c, v)
  {
    StaysUp(d, u, step);
    Limits.ReachOne(Files.NewDB(), trace, Files.State(d, Files.Up(u)), step);
    var t := Files.AfterUp(d, u, step);
    c, v := t.disk, t.p.u;
  }

  lemma {:induction false} StaysUp(d: Files.Disk, u: Files.Open, step: Files.Step)
    requires Files.EnabledUp(d, u, step) && !step.Crash?
    ensures Files.AfterUp(d, u, step).p.Up?
  {
  }

  // ---------- steps of the files ----------

  /** A step that no reader notices. */
  lemma {:induction false} SameReaders(trace: seq<Files.Step>, d: Files.Disk, u: Files.Open, step: Files.Step, c: Files.Disk, v: Files.Open, found: set<Files.Write>)
    requires Reached(trace, d, u) && Files.EnabledUp(d, u, step) && !step.Accept? && !step.Crash?
    requires Files.AfterUp(d, u, step) == Files.State(c, Files.Up(v)) && forall e :: Files.Readable(d, u, e) <==> e in found
    ensures forall e :: Files.Readable(c, v, e) <==> e in found
  {
    ReachedOk(trace, d, u);
    forall e ensures Files.Readable(c, v, e) <==> e in found {
      Files.ReadersUndisturbed(d, u, step, e);
    }
  }

  lemma {:induction false} TornTies(trace: seq<Files.Step>, files: seq<Queue.LogFile>, last: nat, failed: bool, found: set<Files.Write>,
                                    d: Files.Disk, u: Files.Open, numbers: seq<nat>, more: nat) returns (c: Files.Disk, v: Files.Open)
    requires Reached(trace, d, u) && Ties(files, None, last, failed, found, d, u, numbers) && last <= more
    ensures Reached(trace + [Files.TornAppend(more)], c, v)
    ensures Ties(Queue.Damaged(files, |files[|files| - 1].records|), None, more, failed, found, c, v, numbers)
  {
    ReachedOk(trace, d, u);
    c, v := OneStep(trace, d, u, Files.TornAppend(more));
    SameReaders(trace, d, u, Files.TornAppend(more), c, v, found);
    LogsTorn(files, d.logs, numbers, u.logFile, c.logs[u.logFile]);
  }

  lemma {:induction false} AppendTies(trace: seq<Files.Step>, files: seq<Queue.LogFile>, last: nat, failed: bool, found: set<Files.Write>,
                                      d: Files.Disk, u: Files.Open, numbers: seq<nat>, members: seq<Queue.Request>)
    returns (c: Files.Disk, v: Files.Open)
    requires Reached(trace, d, u) && Ties(files, None, last, failed, found, d, u, numbers)
    ensures var record := RecordOf(last + 1, Queue.AllOps(members));
            && Reached(trace + [Files.Append(record)], c, v)
            && Ties(Queue.Appended(files, Queue.Record(last + 1, members)), Some(record), last, failed, found, c, v, numbers)
  {
    var record := RecordOf(last + 1, Queue.AllOps(members));
    IdsWithin(last + 1, Queue.AllOps(members));
    ReachedOk(trace, d, u);
    c, v := OneStep(trace, d, u, Files.Append(record));
    SameReaders(trace, d, u, Files.Append(record), c, v, found);
    LogsAppended(files, d.logs, numbers, Queue.Record(last + 1, members), u.logFile, c.logs[u.logFile]);
  }

  lemma {:induction false} SyncTies(trace: seq<Files.Step>, files: seq<Queue.LogFile>, record: Files.Record, last: nat, failed: bool, found: set<Files.Write>,
                                    d: Files.Disk, u: Files.Open, numbers: seq<nat>) returns (c: Files.Disk, v: Files.Open)
    requires Reached(trace, d, u) && Ties(files, Some(record), last, failed, found, d, u, numbers)
    ensures Reached(trace + [Files.SyncLog], c, v)
    ensures Ties(Queue.Synced(files), Some(record), last, failed, found, c, v, numbers)
  {
    ReachedOk(trace, d, u);
    c, v := OneStep(trace, d, u, Files.SyncLog);
    SameReaders(trace, d, u, Files.SyncLog, c, v, found);
    LogsSynced(files, d.logs, numbers, u.logFile, c.logs[u.logFile]);
  }

  lemma {:induction false} AbandonTies(trace: seq<Files.Step>, files: seq<Queue.LogFile>, record: Files.Record, last: nat, failed: bool, found: set<Files.Write>,
                                       d: Files.Disk, u: Files.Open, numbers: seq<nat>, syncError: bool)
    returns (c: Files.Disk, v: Files.Open)
    requires Reached(trace, d, u) && Ties(files, Some(record), last, failed, found, d, u, numbers)
    ensures Reached(trace + [Files.Abandon(syncError)], c, v)
    ensures Ties(files, None, record.last, failed || syncError, found, c, v, numbers)
  {
    ReachedOk(trace, d, u);
    c, v := OneStep(trace, d, u, Files.Abandon(syncError));
    SameReaders(trace, d, u, Files.Abandon(syncError), c, v, found);
  }

  lemma {:induction false} AcceptTies(trace: seq<Files.Step>, files: seq<Queue.LogFile>, record: Files.Record, last: nat, failed: bool, found: set<Files.Write>,
                                      d: Files.Disk, u: Files.Open, numbers: seq<nat>) returns (c: Files.Disk, v: Files.Open)
    requires Reached(trace, d, u) && Ties(files, Some(record), last, failed, found, d, u, numbers)
    ensures Reached(trace + [Files.Accept], c, v)
    ensures Ties(files, None, record.last, failed, found + record.writes, c, v, numbers)
  {
    ReachedOk(trace, d, u);
    c, v := OneStep(trace, d, u, Files.Accept);
    forall e ensures Files.Readable(c, v, e) <==> e in found + record.writes {
      assert Files.Readable(c, v, e) <==> Files.Readable(d, u, e) || e in record.writes;
    }
  }

  lemma {:induction false} SwitchTies(trace: seq<Files.Step>, files: seq<Queue.LogFile>, last: nat, found: set<Files.Write>,
                                      d: Files.Disk, u: Files.Open, numbers: seq<nat>) returns (c: Files.Disk, v: Files.Open)
    requires Reached(trace, d, u) && Ties(files, None, last, false, found, d, u, numbers) && u.imm.None?
    ensures Reached(trace + [Files.SwitchMemtable], c, v)
    ensures Ties(files + [Queue.LogFile([], 0, None)], None, last, false, found, c, v, numbers + [u.nextFile])
  {
    ReachedOk(trace, d, u);
    c, v := OneStep(trace, d, u, Files.SwitchMemtable);
    SameReaders(trace, d, u, Files.SwitchMemtable, c, v, found);
    forall i | 0 <= i < |numbers| ensures numbers[i] < u.nextFile {
      assert i < |numbers| - 1 ==> numbers[i] < numbers[|numbers| - 1];
    }
    LogsSwitched(files, d.logs, numbers, u.nextFile);
  }

  /** What the background thread and readers do. */
  predicate BackgroundStep(step: Files.Step) {
    || Files.FlushStep(step) || Files.CompactionStep(step) || step.Pin? || step.Unpin? || step.Collect? || step.DeleteLog?
    || step.DeleteTable? || step.BackgroundError?
  }

  lemma {:induction false} BackgroundLeaves(d: Files.Disk, u: Files.Open, step: Files.Step, c: Files.Disk, v: Files.Open)
    requires Files.EnabledUp(d, u, step) && BackgroundStep(step) && Files.AfterUp(d, u, step) == Files.State(c, Files.Up(v))
    ensures v.logFile == u.logFile && v.lastSequence == u.lastSequence && v.working == u.working
    ensures v.failed == (u.failed || step.Fail? || step.BackgroundError?)
  {
  }

  lemma {:induction false} BackgroundLogs(d: Files.Disk, u: Files.Open, step: Files.Step, c: Files.Disk, v: Files.Open)
    requires Files.EnabledUp(d, u, step) && BackgroundStep(step) && Files.AfterUp(d, u, step) == Files.State(c, Files.Up(v))
    ensures c.logs == d.logs || (step.DeleteLog? && c.logs == d.logs - {step.n})
  {
  }

  lemma {:induction false} LogsFewer(files: seq<Queue.LogFile>, logs: map<nat, Files.Log>, numbers: seq<nat>, fewer: map<nat, Files.Log>)
    requires SameLogs(files, logs, numbers) && (fewer == logs || exists n :: fewer == logs - {n})
    ensures SameLogs(files, fewer, numbers)
  {
  }

  /** None of it touches what writers did, but an error stops them. */
  lemma {:induction false} BackgroundTies(trace: seq<Files.Step>, files: seq<Queue.LogFile>, working: Option<Files.Record>, last: nat, failed: bool,
                                          found: set<Files.Write>, d: Files.Disk, u: Files.Open, numbers: seq<nat>, step: Files.Step)
    returns (c: Files.Disk, v: Files.Open)
    requires Reached(trace, d, u) && Ties(files, working, last, failed, found, d, u, numbers)
    requires Files.EnabledUp(d, u, step) && BackgroundStep(step)
    ensures Reached(trace + [step], c, v) && Files.AfterUp(d, u, step) == Files.State(c, Files.Up(v))
    ensures Ties(files, working, last, failed || step.Fail? || step.BackgroundError?, found, c, v, numbers)
  {
    c, v := BackgroundReaders(trace, d, u, step, found);
    BackgroundDoes(d, u, step, c, v);
    LogsFewer(files, d.logs, numbers, c.logs);
  }

  lemma {:induction false} BackgroundReaders(trace: seq<Files.Step>, d: Files.Disk, u: Files.Open, step: Files.Step, found: set<Files.Write>)
    returns (c: Files.Disk, v: Files.Open)
    requires Reached(trace, d, u) && Files.EnabledUp(d, u, step) && BackgroundStep(step)
    requires forall e :: Files.Readable(d, u, e) <==> e in found
    ensures Files.AfterUp(d, u, step) == Files.State(c, Files.Up(v)) && Reached(trace + [step], c, v)
    ensures forall e :: Files.Readable(c, v, e) <==> e in found
  {
    c, v := OneStep(trace, d, u, step);
    SameReaders(trace, d, u, step, c, v, found);
  }

  lemma {:induction false} BackgroundDoes(d: Files.Disk, u: Files.Open, step: Files.Step, c: Files.Disk, v: Files.Open)
    requires Files.EnabledUp(d, u, step) && BackgroundStep(step) && Files.AfterUp(d, u, step) == Files.State(c, Files.Up(v))
    ensures v.logFile == u.logFile && v.lastSequence == u.lastSequence && v.working == u.working
    ensures v.failed == (u.failed || step.Fail? || step.BackgroundError?)
    ensures c.logs == d.logs || exists n :: c.logs == d.logs - {n}
  {
    BackgroundLeaves(d, u, step, c, v);
    BackgroundLogs(d, u, step, c, v);
  }

  // ---------- steps of the queue ----------

  lemma {:induction false} AppendMirrored(q: Queue.State, trace: seq<Files.Step>, d: Files.Disk, u: Files.Open, numbers: seq<nat>)
    returns (c: Files.Disk, v: Files.Open)
    requires Queue.Enabled(q, Queue.AppendRecord(true, true)) && q.work.place.None? && Reached(trace, d, u) && Linked(q, d, u, numbers)
    ensures Reached(trace + Mirror(q, Queue.AppendRecord(true, true)), c, v)
    ensures Linked(Queue.After(q, Queue.AppendRecord(true, true)), c, v, numbers)
  {
    c, v := AppendTies(trace, q.files, q.lastSequence, q.failed, Ids(Queue.Applied(q.answers)), d, u, numbers, q.work.members);
    assert [] + [Files.Append(RecordOf(q.lastSequence + 1, Queue.AllOps(q.work.members)))]
        == [Files.Append(RecordOf(q.lastSequence + 1, Queue.AllOps(q.work.members)))];
  }

  lemma {:induction false} LostMirrored(q: Queue.State, trace: seq<Files.Step>, d: Files.Disk, u: Files.Open, numbers: seq<nat>)
    returns (c: Files.Disk, v: Files.Open)
    requires Queue.Enabled(q, Queue.AppendRecord(false, false)) && q.work.place.None? && Reached(trace, d, u) && Linked(q, d, u, numbers)
    ensures Reached(trace + Mirror(q, Queue.AppendRecord(false, false)), c, v)
    ensures Linked(Queue.After(q, Queue.AppendRecord(false, false)), c, v, numbers)
  {
    c, v := TornTies(trace, q.files, q.lastSequence, q.failed, Ids(Queue.Applied(q.answers)), d, u, numbers, q.lastSequence);
    assert [Files.TornAppend(q.lastSequence)] + [] == [Files.TornAppend(q.lastSequence)];
  }

  lemma {:induction false} LandedAfter(q: Queue.State)
    requires Queue.Enabled(q, Queue.AppendRecord(false, true))
    ensures var t := Queue.After(q, Queue.AppendRecord(false, true));
            && t.files == Queue.Appended(Queue.Damaged(q.files, |q.files[|q.files| - 1].records|),
                                         Queue.Record(q.lastSequence + 1, q.work.members))
            && InHand(t.work, t.lastSequence) == Some(RecordOf(q.lastSequence + 1, Queue.AllOps(q.work.members)))
            && SyncedPlace(t.work) && t.lastSequence == q.lastSequence && t.failed == q.failed && t.answers == q.answers
  {
  }

  /** An append that failed after all of the record had got into the file. */
  lemma {:induction false} LandedMirrored(q: Queue.State, trace: seq<Files.Step>, d: Files.Disk, u: Files.Open, numbers: seq<nat>)
    returns (c: Files.Disk, v: Files.Open)
    requires Queue.Enabled(q, Queue.AppendRecord(false, true)) && q.work.place.None? && Reached(trace, d, u) && Linked(q, d, u, numbers)
    ensures Reached(trace + Mirror(q, Queue.AppendRecord(false, true)), c, v)
    ensures Linked(Queue.After(q, Queue.AppendRecord(false, true)), c, v, numbers)
  {
    var last, found := q.lastSequence, Ids(Queue.Applied(q.answers));
    LandedAfter(q);
    var torn, files := Files.TornAppend(last), Queue.Damaged(q.files, |q.files[|q.files| - 1].records|);
    var c0, v0 := TornTies(trace, q.files, last, q.failed, found, d, u, numbers, last);
    c, v := AppendTies(trace + [torn], files, last, q.failed, found, c0, v0, numbers, q.work.members);
    var append := Files.Append(RecordOf(last + 1, Queue.AllOps(q.work.members)));
    assert trace + [torn] + [append] == trace + ([torn] + [append]);
  }

  lemma {:induction false} SyncMirrored(q: Queue.State, ok: bool, trace: seq<Files.Step>, d: Files.Disk, u: Files.Open, numbers: seq<nat>)
    returns (c: Files.Disk, v: Files.Open)
    requires Queue.Enabled(q, Queue.Sync(ok)) && q.work.place.Some? && Reached(trace, d, u) && Linked(q, d, u, numbers)
    ensures Reached(trace + Mirror(q, Queue.Sync(ok)), c, v)
    ensures Linked(Queue.After(q, Queue.Sync(ok)), c, v, numbers)
  {
    if ok {
      c, v := SyncTies(trace, q.files, u.working.value, q.lastSequence, q.failed, Ids(Queue.Applied(q.answers)), d, u, numbers);
    } else {
      c, v := d, u;
      assert trace + [] == trace;
    }
  }

  lemma {:induction false} SwitchMirrored(q: Queue.State, trace: seq<Files.Step>, d: Files.Disk, u: Files.Open, numbers: seq<nat>)
    returns (c: Files.Disk, v: Files.Open)
    requires Queue.Enabled(q, Queue.SwitchLog) && Reached(trace, d, u) && Linked(q, d, u, numbers) && u.imm.None?
    ensures Reached(trace + Mirror(q, Queue.SwitchLog), c, v)
    ensures Linked(Queue.After(q, Queue.SwitchLog), c, v, numbers + [u.nextFile])
  {
    c, v := SwitchTies(trace, q.files, q.lastSequence, Ids(Queue.Applied(q.answers)), d, u, numbers);
  }

  lemma {:induction false} ErrorMirrored(q: Queue.State, trace: seq<Files.Step>, d: Files.Disk, u: Files.Open, numbers: seq<nat>)
    returns (c: Files.Disk, v: Files.Open)
    requires Reached(trace, d, u) && Linked(q, d, u, numbers)
    ensures Reached(trace + Mirror(q, Queue.BackgroundError), c, v)
    ensures Linked(Queue.After(q, Queue.BackgroundError), c, v, numbers)
  {
    c, v := BackgroundTies(trace, q.files, InHand(q.work, q.lastSequence), q.lastSequence, q.failed, Ids(Queue.Applied(q.answers)),
                           d, u, numbers, Files.BackgroundError);
  }

  /** What the group at work adds to what was accepted, once it is answered. */
  function Adds(q: Queue.State): seq<(nat, Op)>
    requires q.work.Busy?
  {
    if q.work.phase.Broken? then [] else Numbered(q.lastSequence + 1, Queue.AllOps(q.work.members))
  }

  lemma {:induction false} FinishApplies(q: Queue.State, all: seq<(nat, Op)>)
    requires Queue.Enabled(q, Queue.Finish) && all == Queue.Applied(Queue.FinishAnswers(q))
    ensures all == Queue.Applied(q.answers) + Adds(q)
  {
    Queue.GroupApplies(q.answers, q.lastSequence + 1, q.work.members, Queue.Outcomes(q.work.phase), |q.files| - 1, q.work.place);
  }

  lemma {:induction false} FinishFinds(q: Queue.State, all: seq<(nat, Op)>)
    requires Queue.Enabled(q, Queue.Finish) && all == Queue.Applied(Queue.FinishAnswers(q))
    ensures Ids(all) == Ids(Queue.Applied(q.answers)) + Ids(Adds(q))
    ensures q.work.phase.Broken? ==> Ids(all) == Ids(Queue.Applied(q.answers))
  {
    FinishApplies(q, all);
    IdsConcat(Queue.Applied(q.answers), Adds(q), all);
  }

  lemma {:induction false} FinishAfter(q: Queue.State)
    requires Queue.Enabled(q, Queue.Finish)
    ensures var t := Queue.After(q, Queue.Finish);
            && t.files == q.files && t.work == Queue.Idle && t.answers == Queue.FinishAnswers(q) && t.lastSequence == Queue.FinishLast(q)
            && t.failed == (q.failed || q.work.phase == Queue.Broken(true))
  {
  }

  lemma {:induction false} AcceptMirrored(q: Queue.State, trace: seq<Files.Step>, d: Files.Disk, u: Files.Open, numbers: seq<nat>)
    returns (c: Files.Disk, v: Files.Open)
    requires Queue.Enabled(q, Queue.Finish) && q.work.phase.Inserting? && q.work.place.Some?
    requires Reached(trace, d, u) && Linked(q, d, u, numbers)
    ensures Reached(trace + Mirror(q, Queue.Finish), c, v)
    ensures Linked(Queue.After(q, Queue.Finish), c, v, numbers)
  {
    var record := RecordOf(q.lastSequence + 1, Queue.AllOps(q.work.members));
    FinishFinds(q, Queue.Applied(Queue.FinishAnswers(q)));
    FinishAfter(q);
    c, v := AcceptTies(trace, q.files, record, q.lastSequence, q.failed, Ids(Queue.Applied(q.answers)), d, u, numbers);
    assert Ids(Queue.Applied(Queue.FinishAnswers(q))) == Ids(Queue.Applied(q.answers)) + record.writes;
  }

  lemma {:induction false} AbandonMirrored(q: Queue.State, trace: seq<Files.Step>, d: Files.Disk, u: Files.Open, numbers: seq<nat>)
    returns (c: Files.Disk, v: Files.Open)
    requires Queue.Enabled(q, Queue.Finish) && q.work.phase.Broken? && q.work.place.Some?
    requires Reached(trace, d, u) && Linked(q, d, u, numbers)
    ensures Reached(trace + Mirror(q, Queue.Finish), c, v)
    ensures Linked(Queue.After(q, Queue.Finish), c, v, numbers)
  {
    var record := RecordOf(q.lastSequence + 1, Queue.AllOps(q.work.members));
    FinishFinds(q, Queue.Applied(Queue.FinishAnswers(q)));
    c, v := AbandonTies(trace, q.files, record, q.lastSequence, q.failed, Ids(Queue.Applied(q.answers)), d, u, numbers, q.work.phase.syncError);
  }

  lemma {:induction false} GivenUpMirrored(q: Queue.State, trace: seq<Files.Step>, d: Files.Disk, u: Files.Open, numbers: seq<nat>)
    returns (c: Files.Disk, v: Files.Open)
    requires Queue.DamageOk(q) && Queue.Enabled(q, Queue.Finish) && q.work.phase.Broken? && q.work.place.None?
    requires Reached(trace, d, u) && Linked(q, d, u, numbers)
    ensures Reached(trace + Mirror(q, Queue.Finish), c, v)
    ensures Linked(Queue.After(q, Queue.Finish), c, v, numbers)
  {
    FinishFinds(q, Queue.Applied(Queue.FinishAnswers(q)));
    c, v := TornTies(trace, q.files, q.lastSequence, q.failed, Ids(Queue.Applied(q.answers)), d, u, numbers,
                     q.lastSequence + |Queue.AllOps(q.work.members)|);
    assert Queue.Damaged(q.files, |q.files[|q.files| - 1].records|) == q.files;
  }

  /** An answer without a group changes nothing on disk. */
  lemma {:induction false} SingleFinds(answers: seq<Queue.Answer>, a: Queue.Answer)
    requires a.outcome.Accepted? ==> a.request.batch.None?
    ensures Queue.Applied(answers + [a]) == Queue.Applied(answers)
  {
    Queue.AppliedAppend(answers, a);
    assert Queue.Applied(answers) + [] == Queue.Applied(answers);
  }

  predicate OnFiles(step: Queue.Step) {
    step.AppendRecord? || step.Sync? || step.SwitchLog? || step.BackgroundError? || step.Finish?
  }

  lemma {:induction false} OffFiles(q: Queue.State, step: Queue.Step, d: Files.Disk, u: Files.Open, numbers: seq<nat>)
    requires Queue.Enabled(q, step) && !OnFiles(step) && Linked(q, d, u, numbers)
    ensures Mirror(q, step) == [] && Linked(Queue.After(q, step), d, u, numbers)
  {
    if step.Refuse? {
      SingleFinds(q.answers, Queue.Answer(q.queue[0], Queue.Refused, q.lastSequence + 1, |q.files| - 1, None));
    } else if step.Pass? {
      SingleFinds(q.answers, Queue.Answer(q.queue[0], Queue.Accepted, q.lastSequence + 1, |q.files| - 1, None));
    }
  }

  lemma {:induction false} FinishMirrored(base: nat, q: Queue.State, trace: seq<Files.Step>, d: Files.Disk, u: Files.Open, numbers: seq<nat>)
    returns (c: Files.Disk, v: Files.Open)
    requires Queue.Inv(base, q) && Queue.DamageOk(q) && Queue.Enabled(q, Queue.Finish) && Reached(trace, d, u) && Linked(q, d, u, numbers)
    ensures Reached(trace + Mirror(q, Queue.Finish), c, v)
    ensures Linked(Queue.After(q, Queue.Finish), c, v, numbers)
  {
    if q.work.phase.Inserting? {
      c, v := AcceptMirrored(q, trace, d, u, numbers);
    } else if q.work.place.Some? {
      c, v := AbandonMirrored(q, trace, d, u, numbers);
    } else {
      c, v := GivenUpMirrored(q, trace, d, u, numbers);
    }
  }

  /** Every step of a writer is these steps on the files, and the two stay alike. Only a log switch has to
      wait for the memtable set aside before. */
  lemma {:induction false} StepMirrored(base: nat, q: Queue.State, step: Queue.Step, trace: seq<Files.Step>, d: Files.Disk, u: Files.Open,
                                        numbers: seq<nat>)
    returns (c: Files.Disk, v: Files.Open)
    requires Queue.Inv(base, q) && Queue.DamageOk(q) && Queue.Enabled(q, step) && Reached(trace, d, u) && Linked(q, d, u, numbers)
    requires step.SwitchLog? ==> u.imm.None?
    ensures Reached(trace + Mirror(q, step), c, v)
    ensures Linked(Queue.After(q, step), c, v, NumbersAfter(step, u, numbers))
  {
    match step
    case AppendRecord(ok, landed) =>
      if ok {
        c, v := AppendMirrored(q, trace, d, u, numbers);
      } else if landed {
        c, v := LandedMirrored(q, trace, d, u, numbers);
      } else {
        c, v := LostMirrored(q, trace, d, u, numbers);
      }
    case Sync(ok) => c, v := SyncMirrored(q, ok, trace, d, u, numbers);
    case SwitchLog => c, v := SwitchMirrored(q, trace, d, u, numbers);
    case BackgroundError => c, v := ErrorMirrored(q, trace, d, u, numbers);
    case Finish => c, v := FinishMirrored(base, q, trace, d, u, numbers);
    case _ =>
      c, v := d, u;
      OffFiles(q, step, d, u, numbers);
      assert trace + [] == trace;
  }

  // ---------- steps of the tree ----------

  function TreeOp(op: Op): (ValueType, UserKey, Bytes) {
    match op
    case Put(key, value) => (Value, Comparator.Rank(key), value)
    case Delete(key) => (Deletion, Comparator.Rank(key), [])
  }

  /** The entry of the memtable that a numbered operation becomes. */
  function EntryOf(e: (nat, Op)): Entry {
    var (typ, key, value) := TreeOp(e.1);
    Entry(InternalKey(key, e.0, typ), value)
  }

  function Entries(entries: seq<(nat, Op)>): set<Entry> {
    set i | 0 <= i < |entries| :: EntryOf(entries[i])
  }

  lemma {:induction false} EntriesConcat(a: seq<(nat, Op)>, b: seq<(nat, Op)>, both: seq<(nat, Op)>)
    requires both == a + b
    ensures Entries(both) == Entries(a) + Entries(b)
  {
    forall e | e in Entries(a) + Entries(b) ensures e in Entries(both) {
      if e in Entries(a) {
        var i :| 0 <= i < |a| && e == EntryOf(a[i]);
        assert both[i] == a[i];
      } else {
        var i :| 0 <= i < |b| && e == EntryOf(b[i]);
        assert both[|a| + i] == b[i];
      }
    }
  }

  function BatchOf(ops: seq<Op>): (r: Tree.Batch)
    ensures |r| == |ops|
  {
    seq(|ops|, i requires 0 <= i < |ops| => TreeOp(ops[i]))
  }

  /** A batch adds its numbered operations to what was written. */
  lemma {:induction false} TreeWrites(l: Tree.State, ops: seq<Op>)
    ensures Tree.WriteAll(l, BatchOf(ops)).last == l.last + |ops|
    ensures Tree.WriteAll(l, BatchOf(ops)).history == l.history + Entries(Numbered(l.last + 1, ops))
    decreases |ops|
  {
    if ops != [] {
      var n := |ops| - 1;
      TreeWrites(l, ops[..n]);
      BatchButLast(ops, BatchOf(ops), n);
      OneMoreEntry(l.last + 1, ops, n);
    }
  }

  lemma {:induction false} BatchButLast(ops: seq<Op>, batch: Tree.Batch, n: nat)
    requires |ops| == n + 1 && batch == BatchOf(ops)
    ensures batch[..n] == BatchOf(ops[..n]) && batch[n] == TreeOp(ops[n])
  {
  }

  lemma {:induction false} OneMoreEntry(sequence: nat, ops: seq<Op>, n: nat)
    requires |ops| == n + 1
    ensures Entries(Numbered(sequence, ops)) == Entries(Numbered(sequence, ops[..n])) + {EntryOf((sequence + n, ops[n]))}
  {
    var one := [(sequence + n, ops[n])];
    EntriesConcat(Numbered(sequence, ops[..n]), one, Numbered(sequence, ops));
    assert Entries(one) == {EntryOf(one[0])};
  }

  ghost predicate TreeLinked(q: Queue.State, l: Tree.State) {
    l.last == q.lastSequence && l.history == Entries(Queue.Applied(q.answers))
  }

  /** An answered group is one step of the tree. */
  function TreeStep(q: Queue.State): Tree.Step
    requires q.work.Busy?
  {
    var ops := Queue.AllOps(q.work.members);
    if q.work.phase.Broken? then Tree.Skip(|ops|) else Tree.Write(BatchOf(ops))
  }

  function TreeAfter(q: Queue.State, step: Queue.Step, l: Tree.State): Tree.State
    requires Queue.Enabled(q, step)
  {
    if !step.Finish? then l
    else
      var ops := Queue.AllOps(q.work.members);
      if q.work.phase.Broken? then l.(last := l.last + |ops|) else Tree.WriteAll(l, BatchOf(ops))
  }

  lemma {:induction false} FinishEnters(q: Queue.State, all: seq<(nat, Op)>)
    requires Queue.Enabled(q, Queue.Finish) && all == Queue.Applied(Queue.FinishAnswers(q))
    ensures Entries(all) == Entries(Queue.Applied(q.answers)) + Entries(Adds(q))
  {
    FinishApplies(q, all);
    EntriesConcat(Queue.Applied(q.answers), Adds(q), all);
  }

  lemma {:induction false} TreeAdds(q: Queue.State, l: Tree.State, m: Tree.State)
    requires Queue.Enabled(q, Queue.Finish) && l.last == q.lastSequence && m == TreeAfter(q, Queue.Finish, l)
    ensures m.last == Queue.FinishLast(q) && m.history == l.history + Entries(Adds(q))
  {
    if q.work.phase.Broken? {
      assert l.history + {} == l.history;
    } else {
      TreeWrites(l, Queue.AllOps(q.work.members));
    }
  }

  lemma {:induction false} TreeFinished(q: Queue.State, l: Tree.State, m: Tree.State)
    requires Queue.Enabled(q, Queue.Finish) && TreeLinked(q, l) && m == TreeAfter(q, Queue.Finish, l)
    ensures m.last == Queue.FinishLast(q) && m.history == Entries(Queue.Applied(Queue.FinishAnswers(q)))
  {
    FinishEnters(q, Queue.Applied(Queue.FinishAnswers(q)));
    TreeAdds(q, l, m);
  }

  lemma {:induction false} TreeReached(q: Queue.State, l: Tree.State, m: Tree.State)
    requires Queue.Enabled(q, Queue.Finish) && Trees.Reached(l) && m == TreeAfter(q, Queue.Finish, l)
    requires l.last + |Queue.AllOps(q.work.members)| < MAX_SEQUENCE
    ensures Trees.Reached(m)
  {
    Trees.ReachedValid(l);
    Trees.ReachedNext(l, TreeStep(q), m);
  }

  /** A step of a writer is at most one of the tree. */
  lemma {:induction false} TreeMirrored(q: Queue.State, step: Queue.Step, l: Tree.State)
    requires Queue.Enabled(q, step) && TreeLinked(q, l) && Trees.Reached(l)
    requires step.Finish? ==> l.last + |Queue.AllOps(q.work.members)| < MAX_SEQUENCE
    ensures TreeLinked(Queue.After(q, step), TreeAfter(q, step, l)) && Trees.Reached(TreeAfter(q, step, l))
  {
    if step.Finish? {
      TreeFinished(q, l, TreeAfter(q, step, l));
      TreeReached(q, l, TreeAfter(q, step, l));
    } else if step.Refuse? {
      SingleFinds(q.answers, Queue.Answer(q.queue[0], Queue.Refused, q.lastSequence + 1, |q.files| - 1, None));
    } else if step.Pass? {
      SingleFinds(q.answers, Queue.Answer(q.queue[0], Queue.Accepted, q.lastSequence + 1, |q.files| - 1, None));
    }
  }

  // ---------- one store ----------

  datatype Store = Store(q: Queue.State, trace: seq<Files.Step>, d: Files.Disk, u: Files.Open, numbers: seq<nat>, l: Tree.State)

  datatype Act = Writer(w: Queue.Step) | Background(b: Files.Step) | Inner(t: Tree.Step)

  ghost predicate Next(x: Store, act: Act, y: Store) {
    match act
    case Writer(step) =>
      && Queue.Enabled(x.q, step) && (step.SwitchLog? ==> x.u.imm.None?)
      && (step.Finish? ==> x.l.last + |Queue.AllOps(x.q.work.members)| < MAX_SEQUENCE)
      && y.q == Queue.After(x.q, step) && y.numbers == NumbersAfter(step, x.u, x.numbers) && y.l == TreeAfter(x.q, step, x.l)
      && y.trace == x.trace + Mirror(x.q, step) && Reached(y.trace, y.d, y.u)
    case Background(step) =>
      && Files.EnabledUp(x.d, x.u, step) && BackgroundStep(step)
      && Files.AfterUp(x.d, x.u, step) == Files.State(y.d, Files.Up(y.u))
      && y == x.(q := ErrorAfter(x.q, step), trace := x.trace + [step], d := y.d, u := y.u)
    case Inner(step) =>
      !step.Write? && !step.Skip? && ValidLevels(x.l.v) && Tree.Next(x.l, step, y.l) && y == x.(l := y.l)
  }

  /** A background error stops the writers. */
  function ErrorAfter(q: Queue.State, step: Files.Step): Queue.State {
    if step.Fail? || step.BackgroundError? then Queue.After(q, Queue.BackgroundError) else q
  }

  /** The three parts agree. */
  ghost predicate Agrees(x: Store) {
    && Queue.Inv(0, x.q) && Queue.DamageOk(x.q)
    && Reached(x.trace, x.d, x.u) && Linked(x.q, x.d, x.u, x.numbers)
    && Trees.Reached(x.l) && TreeLinked(x.q, x.l)
  }

  function Begin(): Store {
    var s := Limits.Opened();
    Store(Queue.Start(0), Limits.OpenRun(), s.disk, s.p.u, [3], Tree.Start())
  }

  lemma {:induction false} BeginAgrees()
    ensures Agrees(Begin())
  {
    var x := Begin();
    Limits.Opens();
    Trees.ReachedStart();
    Queue.StartInv(0);
    assert Queue.Applied([]) == [];
    forall e ensures !Files.Readable(x.d, x.u, e) {
    }
  }

  lemma {:induction false} SameEnd(trace: seq<Files.Step>, d: Files.Disk, u: Files.Open, c: Files.Disk, v: Files.Open)
    requires Reached(trace, d, u) && Reached(trace, c, v)
    ensures d == c && u == v
  {
  }

  lemma {:induction false} WriterAgrees(x: Store, step: Queue.Step, y: Store)
    requires Agrees(x) && Next(x, Writer(step), y)
    ensures Agrees(y)
  {
    var c, v := StepMirrored(0, x.q, step, x.trace, x.d, x.u, x.numbers);
    SameEnd(y.trace, c, v, y.d, y.u);
    TreeMirrored(x.q, step, x.l);
    Queue.StepKeeps(0, x.q, step);
    Queue.StepDamage(0, x.q, step);
  }

  lemma {:induction false} BackgroundAgrees(x: Store, step: Files.Step, y: Store)
    requires Agrees(x) && Next(x, Background(step), y)
    ensures Agrees(y)
  {
    var c, v := BackgroundTies(x.trace, x.q.files, InHand(x.q.work, x.q.lastSequence), x.q.lastSequence, x.q.failed,
                               Ids(Queue.Applied(x.q.answers)), x.d, x.u, x.numbers, step);
    ErrorKeeps(x.q, step);
  }

  lemma {:induction false} ErrorKeeps(q: Queue.State, step: Files.Step)
    requires Queue.Inv(0, q) && Queue.DamageOk(q)
    ensures Queue.Inv(0, ErrorAfter(q, step)) && Queue.DamageOk(ErrorAfter(q, step))
  {
    Queue.StepKeeps(0, q, Queue.BackgroundError);
    Queue.StepDamage(0, q, Queue.BackgroundError);
  }

  lemma {:induction false} InnerAgrees(x: Store, step: Tree.Step, y: Store)
    requires Agrees(x) && Next(x, Inner(step), y)
    ensures Agrees(y)
  {
    Trees.ReachedNext(x.l, step, y.l);
    KeepsHistory(x.l, step, y.l);
  }

  lemma {:induction false} KeepsHistory(l: Tree.State, step: Tree.Step, m: Tree.State)
    requires ValidLevels(l.v) && Tree.Next(l, step, m) && !step.Write? && !step.Skip?
    ensures m.last == l.last && m.history == l.history
  {
  }

  lemma {:induction false} ActAgrees(x: Store, act: Act, y: Store)
    requires Agrees(x) && Next(x, act, y)
    ensures Agrees(y)
  {
    match act
    case Writer(step) => WriterAgrees(x, step, y);
    case Background(step) => BackgroundAgrees(x, step, y);
    case Inner(step) => InnerAgrees(x, step, y);
  }

  /** The last of the states is reached from the first by these acts, one after another. */
  ghost predicate IsRun(xs: seq<Store>, acts: seq<Act>) {
    && |xs| == |acts| + 1
    && if acts == [] then xs[0] == Begin()
       else
         var n := |acts| - 1;
         IsRun(xs[..n + 1], acts[..n]) && Next(xs[n], acts[n], xs[n + 1])
  }

  lemma {:induction false} RunAgrees(xs: seq<Store>, acts: seq<Act>)
    requires IsRun(xs, acts)
    ensures Agrees(xs[|acts|])
    decreases |acts|
  {
    if acts == [] {
      BeginAgrees();
    } else {
      var n := |acts| - 1;
      RunAgrees(xs[..n + 1], acts[..n]);
      ActAgrees(xs[n], acts[n], xs[n + 1]);
    }
  }

  /** The newest version that the tree and the memtables give a reader is the newest of what the queue
      accepted, and what the files hold for the readers is that and nothing else. */
  lemma {:induction false} OneStore(xs: seq<Store>, acts: seq<Act>)
    requires IsRun(xs, acts)
    ensures var x := xs[|acts|];
            && |x.l.v| == NUM_LEVELS
            && (forall e :: Files.Readable(x.d, x.u, e) <==> e in Ids(Queue.Applied(x.q.answers)))
            && (forall k, snap: nat | snap >= Tree.Oldest(x.l) ::
                  Read(Tree.Stored(x.l), k, snap) == Read(Entries(Queue.Applied(x.q.answers)), k, snap))
  {
    RunAgrees(xs, acts);
    TreeReads(xs[|acts|].l);
  }

  lemma {:induction false} TreeReads(l: Tree.State)
    requires Trees.Reached(l)
    ensures |l.v| == NUM_LEVELS
    ensures forall k, snap: nat | snap >= Tree.Oldest(l) :: Read(Tree.Stored(l), k, snap) == Read(l.history, k, snap)
  {
    var states, steps :| Tree.IsRun(states, steps) && states[|states| - 1] == l;
    Tree.RunsAreFaithful(states, steps, |states| - 1);
  }

  // ---------- what a crash leaves ----------

  /** A record other than that of the group at work has smaller numbers. */
  lemma {:induction false} OnlyInHand(q: Queue.State, logs: map<nat, Files.Log>, numbers: seq<nat>, n: nat, i: nat, e: Files.Write)
    requires Queue.Bounded(0, q.files, q.lastSequence, Queue.Working(q.work)) && SameLogs(q.files, logs, numbers)
    requires q.work.Busy? && q.work.place.Some? && Files.InRecord(logs, n, i, e) && e.sequence > q.lastSequence
    ensures q.work.place.value.file < |numbers| && n == numbers[q.work.place.value.file] && i == q.work.place.value.index
  {
    var f :| 0 <= f < |numbers| && numbers[f] == n;
    assert SameLog(q.files[f], logs[n]) && SameRecord(q.files[f].records[i], logs[n].records[i]);
    IdsWithin(q.files[f].records[i].first, Queue.AllOps(q.files[f].records[i].members));
    assert Queue.PlaceIn(q.files, Queue.Place(f, i));
  }

  lemma {:induction false} InHandOnce(q: Queue.State, logs: map<nat, Files.Log>, numbers: seq<nat>, e: Files.Write)
    requires Queue.Bounded(0, q.files, q.lastSequence, Queue.Working(q.work)) && SameLogs(q.files, logs, numbers)
    requires q.work.Busy? && q.work.place.Some? && e.sequence > q.lastSequence
    ensures Files.LoggedOnce(logs, e)
  {
    forall n: nat, i: nat, m: nat, j: nat | Files.InRecord(logs, n, i, e) && Files.InRecord(logs, m, j, e) ensures n == m && i == j {
      OnlyInHand(q, logs, numbers, n, i, e);
      OnlyInHand(q, logs, numbers, m, j, e);
    }
  }

  /** Nobody can read the group at work yet. */
  lemma {:induction false} NotYet(x: Store, e: Files.Write)
    requires Agrees(x) && e.sequence > x.q.lastSequence
    ensures !Files.Readable(x.d, x.u, e)
  {
    Queue.AppliedAscends(0, x.q.answers, x.q.lastSequence);
  }

  /** The log of a group that was synced: all of it is on disk, and undamaged unless an earlier request
      got an error while it was in use. */
  lemma {:induction false} SyncedLog(q: Queue.State)
    requires Queue.WorkValid(q.work, q.queue, q.files, q.lastSequence) && Queue.FilesValid(q.files)
    requires Queue.DamageNow(q.files, q.answers, q.work, q.failed)
    requires q.work.Busy? && q.work.phase.Inserting? && q.work.members[0].sync
    ensures var f := q.files[|q.files| - 1];
            && f.synced == |f.records| > 0
            && (f.damaged.None? || f.damaged.value == |f.records| <==> !Queue.Tried(q.answers, |q.files| - 1))
  {
  }

  /** A group whose sync succeeded, when it is accepted: its writes outlive every crash that may follow if
      and only if no request got an error before while the same log file was in use. */
  lemma {:induction false} SyncedIsKept(xs: seq<Store>, acts: seq<Act>, y: Store, e: Files.Write)
    requires IsRun(xs, acts) && Next(xs[|acts|], Writer(Queue.Finish), y)
    requires var q := xs[|acts|].q; q.work.phase.Inserting? && q.work.members != [] && q.work.members[0].sync
    requires e in Ids(Adds(xs[|acts|].q))
    ensures Files.Safe(Files.State(y.d, Files.Up(y.u)), e) <==> !Queue.Tried(xs[|acts|].q.answers, |xs[|acts|].q.files| - 1)
  {
    var x := xs[|acts|];
    RunAgrees(xs, acts);
    AcceptIsSafe(x, e);
    var c, v := OneStep(x.trace, x.d, x.u, Files.Accept);
    SameEnd(y.trace, c, v, y.d, y.u);
  }

  lemma {:induction false} LogInUse(x: Store)
    requires Agrees(x)
    ensures x.u.logFile in x.d.logs && SameLog(x.q.files[|x.q.files| - 1], x.d.logs[x.u.logFile])
  {
    ReachedOk(x.trace, x.d, x.u);
    assert x.numbers[|x.numbers| - 1] in x.d.logs;
  }

  lemma {:induction false} AcceptIsSafe(x: Store, e: Files.Write)
    requires Agrees(x) && Queue.Enabled(x.q, Queue.Finish)
    requires x.q.work.phase.Inserting? && x.q.work.members != [] && x.q.work.members[0].sync && e in Ids(Adds(x.q))
    ensures x.q.work.place.Some? && Files.EnabledUp(x.d, x.u, Files.Accept)
    ensures Files.Safe(Files.AfterUp(x.d, x.u, Files.Accept), e) <==> !Queue.Tried(x.q.answers, |x.q.files| - 1)
  {
    ReachedOk(x.trace, x.d, x.u);
    LogInUse(x);
    SyncedLog(x.q);
    IdsWithin(x.q.lastSequence + 1, Queue.AllOps(x.q.work.members));
    InHandOnce(x.q, x.d.logs, x.numbers, e);
    NotYet(x, e);
    Files.SyncedIsSafe(x.d, x.u, e);
  }

  /** And then it does, whatever the store does afterwards. */
  lemma {:induction false} KeptForEver(x: Store, e: Files.Write, later: seq<Files.Step>)
    requires Agrees(x) && Files.Safe(Files.State(x.d, Files.Up(x.u)), e)
    requires Files.Runs(Files.State(x.d, Files.Up(x.u)), later)
    ensures var t := Files.Final(Files.State(x.d, Files.Up(x.u)), later);
            Files.Safe(t, e) && (t.p.Up? ==> Files.Readable(t.disk, t.p.u, e))
  {
    Files.NeverLost(x.trace, later, e);
  }
}
