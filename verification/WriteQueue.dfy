/** Group commit (db/db_impl.cc): writers queue up, the one at the head builds a group out of its
    followers, logs it as one record, inserts it and answers all of them, while the lock is
    released and other writers and readers run.

    Each step is what happens without the lock changing hands or without another thread seeing it. */
module WriteQueue {
  import opened Dbformat
  import opened Coding
  import opened WriteBatch

  /** A call of Write; no batch stands for the null batch of a forced memtable switch. */
  datatype Request = Request(batch: Option<seq<Op>>, sync: bool)

  function OpsOf(r: Request): seq<Op> {
    match r.batch case Some(ops) => ops case None => []
  }

  /** The operations of consecutive requests, which one record holds. */
  function AllOps(rs: seq<Request>): seq<Op> {
    if rs == [] then [] else AllOps(rs[..|rs| - 1]) + OpsOf(rs[|rs| - 1])
  }

  // ---------- building a group ----------

  const SMALL_GROUP: nat := 128 * 1024
  const LARGE_GROUP: nat := 1024 * 1024

  function ByteSize(ops: seq<Op>): nat {
    BATCH_HEADER + |OpsBytes(ops)|
  }

  function Sizes(rs: seq<Request>): nat {
    if rs == [] then 0
    else Sizes(rs[..|rs| - 1]) + match rs[|rs| - 1].batch case Some(ops) => ByteSize(ops) case None => 0
  }

  function Limit(first: nat): nat {
    if first <= SMALL_GROUP then first + SMALL_GROUP else LARGE_GROUP
  }

  /** Whether the request at `k` may follow those before it into the group of the first. */
  predicate Joins(queue: seq<Request>, k: nat)
    requires 0 < k < |queue|
  {
    && (queue[k].sync ==> queue[0].sync)
    && (queue[k].batch.Some? ==> Sizes(queue[..k + 1]) <= Limit(ByteSize(OpsOf(queue[0]))))
  }

  predicate AllJoin(queue: seq<Request>, n: nat)
    requires n <= |queue|
  {
    n <= 1 || (AllJoin(queue, n - 1) && Joins(queue, n - 1))
  }

  lemma {:induction false} EachJoins(queue: seq<Request>, n: nat, k: nat)
    requires 0 < k < n <= |queue| && AllJoin(queue, n)
    ensures Joins(queue, k)
    decreases n
  {
    if k < n - 1 {
      EachJoins(queue, n - 1, k);
    }
  }

  /** The first `n` requests are the group: the longest run that may join. */
  predicate GroupOf(queue: seq<Request>, n: nat) {
    && 0 < n <= |queue| && queue[0].batch.Some?
    && AllJoin(queue, n)
    && (n < |queue| ==> !Joins(queue, n))
  }

  lemma {:induction false} OpsAreBytes(ops: seq<Op>)
    ensures |ops| <= |OpsBytes(ops)|
  {
    if ops != [] {
      OpsAreBytes(ops[1..]);
    }
  }

  lemma {:induction false} GroupIsSmall(rs: seq<Request>)
    ensures |AllOps(rs)| <= Sizes(rs)
  {
    if rs != [] {
      GroupIsSmall(rs[..|rs| - 1]);
      OpsAreBytes(OpsOf(rs[|rs| - 1]));
    }
  }

  lemma {:induction false} OneMoreMember(queue: seq<Request>, k: nat)
    requires k < |queue|
    ensures AllOps(queue[..k + 1]) == AllOps(queue[..k]) + OpsOf(queue[k])
    ensures Sizes(queue[..k + 1])
            == Sizes(queue[..k]) + match queue[k].batch case Some(ops) => ByteSize(ops) case None => 0
  {
    assert queue[..k + 1][..k] == queue[..k];
  }

  /** The first `i` requests are in the group, with these operations and this size. */
  predicate Gathered(queue: seq<Request>, i: nat, ops: seq<Op>, size: nat) {
    && 0 < i <= |queue| && queue[0].batch.Some? && AllJoin(queue, i)
    && ops == AllOps(queue[..i]) && size == Sizes(queue[..i])
  }

  lemma {:induction false} GatherFirst(queue: seq<Request>)
    requires queue != [] && queue[0].batch.Some?
    ensures Gathered(queue, 1, OpsOf(queue[0]), ByteSize(OpsOf(queue[0])))
  {
    OneMoreMember(queue, 0);
  }

  /** The size of the group after the next request. */
  function Grown(size: nat, r: Request): nat {
    match r.batch case Some(ops) => size + ByteSize(ops) case None => size
  }

  predicate MayFollow(first: Request, size: nat, r: Request) {
    (r.sync ==> first.sync) && (r.batch.Some? ==> Grown(size, r) <= Limit(ByteSize(OpsOf(first))))
  }

  lemma {:induction false} GatherNext(queue: seq<Request>, k: nat, ops: seq<Op>, size: nat)
    requires Gathered(queue, k, ops, size) && k < |queue|
    ensures if MayFollow(queue[0], size, queue[k]) then
              && Gathered(queue, k + 1, ops + OpsOf(queue[k]), Grown(size, queue[k]))
              && (queue[k].batch.Some? ==> |ops| + |OpsOf(queue[k])| < TWO32)
            else GroupOf(queue, k)
  {
    OneMoreMember(queue, k);
    GroupIsSmall(queue[..k + 1]);
  }

  /** How BuildBatchGroup goes on from the request at `k`. */
  function Build(queue: seq<Request>, k: nat, ops: seq<Op>, size: nat): (nat, seq<Op>)
    requires queue != []
    decreases |queue| - k
  {
    if k >= |queue| || !MayFollow(queue[0], size, queue[k]) then (k, ops)
    else Build(queue, k + 1, ops + OpsOf(queue[k]), Grown(size, queue[k]))
  }

  function BuildGroup(queue: seq<Request>): (nat, seq<Op>)
    requires queue != []
  {
    Build(queue, 1, OpsOf(queue[0]), ByteSize(OpsOf(queue[0])))
  }

  lemma {:induction false} BuildGroupIs(queue: seq<Request>, size: nat)
    requires queue != [] && size == ByteSize(OpsOf(queue[0]))
    ensures BuildGroup(queue) == Build(queue, 1, OpsOf(queue[0]), size)
  {
  }

  lemma {:induction false} BuildEnds(queue: seq<Request>, k: nat, ops: seq<Op>, size: nat)
    requires queue != [] && (k >= |queue| || !MayFollow(queue[0], size, queue[k]))
    ensures Build(queue, k, ops, size) == (k, ops)
  {
  }

  lemma {:induction false} BuildStep(queue: seq<Request>, k: nat, ops: seq<Op>, size: nat, ops': seq<Op>, size': nat)
    requires k < |queue| && MayFollow(queue[0], size, queue[k])
    requires ops' == ops + OpsOf(queue[k]) && size' == Grown(size, queue[k])
    ensures Build(queue, k, ops, size) == Build(queue, k + 1, ops', size')
  {
  }

  lemma {:induction false} BuildsOn(queue: seq<Request>, k: nat, ops: seq<Op>, size: nat)
    requires Gathered(queue, k, ops, size)
    ensures var (n, all) := Build(queue, k, ops, size); GroupOf(queue, n) && all == AllOps(queue[..n])
    decreases |queue| - k
  {
    if k < |queue| {
      GatherNext(queue, k, ops, size);
      if MayFollow(queue[0], size, queue[k]) {
        BuildsOn(queue, k + 1, ops + OpsOf(queue[k]), Grown(size, queue[k]));
      }
    }
  }

  /** The scan gathers the operations of the longest run that may join, in queue order. */
  lemma {:induction false} BuildsTheGroup(queue: seq<Request>)
    requires queue != [] && queue[0].batch.Some?
    ensures var (n, all) := BuildGroup(queue); GroupOf(queue, n) && all == AllOps(queue[..n])
  {
    GatherFirst(queue);
    BuildsOn(queue, 1, OpsOf(queue[0]), ByteSize(OpsOf(queue[0])));
  }

  /** A caller waiting in the queue, with the status it will return. */
  class Writer {
    const batch: Batch?
    const sync: bool
    var done: bool
    var accepted: bool

    constructor (batch: Batch?, sync: bool)
      ensures this.batch == batch && this.sync == sync && !done
    {
      this.batch, this.sync, done, accepted := batch, sync, false, false;
    }
  }

  ghost function RequestOf(w: Writer): Request
    reads w.batch
  {
    Request(if w.batch == null then None else Some(w.batch.ops), w.sync)
  }

  ghost function Batches(writers: seq<Writer>): set<object> {
    set w | w in writers && w.batch != null :: w.batch
  }

  ghost predicate ValidWriters(writers: seq<Writer>)
    reads Batches(writers)
  {
    forall w | w in writers :: w.batch != null ==> w.batch.Valid()
  }

  ghost function RequestsOf(writers: seq<Writer>): (r: seq<Request>)
    reads Batches(writers)
    ensures |r| == |writers|
  {
    seq(|writers|, i requires 0 <= i < |writers| reads Batches(writers) => RequestOf(writers[i]))
  }

  /** The first append switches to the scratch batch. */
  method AppendToGroup(first: Batch, group: Batch, more: Batch, scratch: Batch) returns (result: Batch)
    requires first.Valid() && scratch.Valid() && more.Valid() && first != scratch && more != scratch
    requires group == scratch || group == first
    requires group == first ==> scratch.ops == []
    requires |group.ops| + |more.ops| < TWO32
    modifies scratch
    ensures result == scratch && result.Valid() && result.ops == old(group.ops) + more.ops
  {
    result := group;
    if result == first {
      result := scratch;
      result.Append(first);
      assert result.ops == first.ops;
    }
    assert result.ops == old(group.ops);
    result.Append(more);
  }

  /** Whether the next writer joins, and the size of the group with it. */
  method Follows(first: Writer, w: Writer, size: nat, maxSize: nat, ghost head: Request) returns (joins: bool, grown: nat)
    requires (w.batch != null ==> w.batch.Valid()) && head.sync == first.sync && maxSize == Limit(ByteSize(OpsOf(head)))
    ensures joins == MayFollow(head, size, RequestOf(w))
    ensures joins ==> grown == Grown(size, RequestOf(w)) && (w.batch != null ==> grown <= maxSize)
  {
    grown := size;
    if w.sync && !first.sync {
      return false, size;
    }
    if w.batch != null {
      var more := w.batch.Size();
      grown := grown + more;
      if grown > maxSize {
        return false, grown;
      }
    }
    joins := true;
  }

  /** BuildBatchGroup: the group of the first writer, and the index of its last member. The batches of
      the callers are left alone: a group of several is gathered in `scratch`. */
  method BuildBatchGroup(writers: seq<Writer>, scratch: Batch) returns (result: Batch, last: nat)
    requires writers != [] && writers[0].batch != null
    requires ValidWriters(writers)
    requires scratch !in Batches(writers) && scratch.Valid() && scratch.ops == []
    modifies scratch
    ensures result.Valid() && (last + 1, result.ops) == BuildGroup(old(RequestsOf(writers)))
    ensures result == scratch || result == writers[0].batch
  {
    ghost var queue := RequestsOf(writers);
    assert forall i | 0 <= i < |writers| :: queue[i] == RequestOf(writers[i]);
    assert queue[0] == RequestOf(writers[0]);
    var size, maxSize := GroupLimit(writers[0].batch);
    BuildGroupIs(queue, size);
    result, last := GatherFollowers(writers, scratch, size, maxSize, queue);
  }

  /** How large the group may grow: far for a large first batch, less far for a small one. */
  method GroupLimit(first: Batch) returns (size: nat, maxSize: nat)
    requires first.Valid()
    ensures size == ByteSize(first.ops) && |first.ops| <= size && maxSize == Limit(size)
  {
    size := first.Size();
    maxSize := LARGE_GROUP;
    if size <= SMALL_GROUP {
      maxSize := size + SMALL_GROUP;
    }
    OpsAreBytes(first.ops);
  }

  /** One turn of the loop: the next writer joins, or the group is complete. */
  method GatherNextWriter(first: Batch, leader: Writer, w: Writer, group: Batch, scratch: Batch, size: nat, maxSize: nat,
                          ghost queue: seq<Request>, ghost i: nat) returns (joins: bool, grown: nat, result: Batch)
    requires first.Valid() && scratch.Valid() && (w.batch != null ==> w.batch.Valid() && w.batch != scratch) && first != scratch
    requires group == scratch || (group == first && scratch.ops == [])
    requires 0 < i < |queue| && queue[0].sync == leader.sync && queue[i] == RequestOf(w)
    requires |group.ops| <= size && maxSize == Limit(ByteSize(OpsOf(queue[0])))
    modifies scratch
    ensures result == scratch || (result == first && scratch.ops == [])
    ensures scratch.Valid() && (joins ==> |result.ops| <= grown)
    ensures joins ==> Build(queue, i + 1, result.ops, grown) == Build(queue, i, old(group.ops), size)
    ensures !joins ==> (i, result.ops) == Build(queue, i, old(group.ops), size)
  {
    ghost var before := group.ops;
    joins, grown := Follows(leader, w, size, maxSize, queue[0]);
    result := group;
    if !joins {
      BuildEnds(queue, i, before, size);
      return;
    }
    if w.batch != null {
      OpsAreBytes(w.batch.ops);
      result := AppendToGroup(first, group, w.batch, scratch);
    } else {
      assert before + [] == before;
    }
    BuildStep(queue, i, before, size, result.ops, grown);
  }

  method GatherFollowers(writers: seq<Writer>, scratch: Batch, firstSize: nat, maxSize: nat, ghost queue: seq<Request>)
      returns (result: Batch, last: nat)
    requires writers != [] && writers[0].batch != null && ValidWriters(writers)
    requires |queue| == |writers| && forall i | 0 <= i < |writers| :: queue[i] == RequestOf(writers[i])
    requires scratch !in Batches(writers) && scratch.Valid() && scratch.ops == []
    requires firstSize == ByteSize(OpsOf(queue[0])) && |OpsOf(queue[0])| <= firstSize && maxSize == Limit(firstSize)
    modifies scratch
    ensures result.Valid() && (last + 1, result.ops) == Build(queue, 1, OpsOf(queue[0]), firstSize)
    ensures result == scratch || result == writers[0].batch
  {
    var first := writers[0];
    var size := firstSize;
    result := first.batch;
    last := 0;
    var i := 1;
    while i < |writers|
      invariant 1 <= i <= |writers| && last == i - 1 && ValidWriters(writers)
      invariant |result.ops| <= size && scratch.Valid()
      invariant Build(queue, i, result.ops, size) == Build(queue, 1, OpsOf(queue[0]), firstSize)
      invariant result == scratch || (result == first.batch && scratch.ops == [])
    {
      var w := writers[i];
      assert w.batch != null ==> w.batch in Batches(writers);
      var joins, grown;
      joins, grown, result := GatherNextWriter(first.batch, first, w, result, scratch, size, maxSize, queue, i);
      if !joins {
        return;
      }
      size := grown;
      last := i;
      i := i + 1;
    }
    BuildEnds(queue, i, result.ops, size);
  }

  /** The end of Write: every member of the group leaves the queue with the leader's status. */
  method AnswerGroup(writers: seq<Writer>, last: nat, ok: bool) returns (rest: seq<Writer>)
    requires last < |writers|
    modifies writers[..last + 1]
    ensures rest == writers[last + 1..]
    ensures forall i | 1 <= i <= last :: writers[i] != writers[0] ==> writers[i].done && writers[i].accepted == ok
  {
    rest := writers;
    while true
      invariant |rest| > |writers| - last - 1 && rest == writers[|writers| - |rest|..]
      invariant forall i | 1 <= i < |writers| - |rest| :: writers[i] != writers[0] ==> writers[i].done && writers[i].accepted == ok
      decreases |rest|
    {
      var ready := rest[0];
      assert ready == writers[|writers| - |rest|];
      rest := rest[1..];
      if ready != writers[0] {
        ready.accepted := ok;
        ready.done := true;
      }
      if |rest| == |writers| - last - 1 {
        break;
      }
    }
  }

  // ---------- the state machine ----------

  /** The index of a log file and of a record in it. */
  datatype Place = Place(file: nat, index: nat)

  /** A logged group, numbered from `first`. */
  datatype Record = Record(first: nat, members: seq<Request>)

  /** The first `synced` records were on disk when Sync returned; `damaged` is where the first append
      failed, and what lies behind it may be unreadable. */
  datatype LogFile = LogFile(records: seq<Record>, synced: nat, damaged: Option<nat>)

  /** Refused: no room; Errored: the log could not be written or synced. */
  datatype Outcome = Accepted | Errored | Refused

  /** What Write returned, the first sequence number the request took, the log file then in use, and the
      record it went to. */
  datatype Answer = Answer(request: Request, outcome: Outcome, first: nat, file: nat, place: Option<Place>)

  datatype Phase = Logging | Syncing | Inserting(done: nat) | Broken(syncError: bool)

  datatype Work = Idle | Busy(members: seq<Request>, place: Option<Place>, phase: Phase)

  datatype State = State(
    arrived: seq<Request>,
    queue: seq<Request>,
    answers: seq<Answer>,
    work: Work,
    files: seq<LogFile>,
    mem: seq<(nat, Op)>,
    lastSequence: nat,
    failed: bool)

  datatype Step =
    | Enqueue(request: Request)
    | BackgroundError
    | SwitchLog
    | Refuse
    | Pass
    | Begin(n: nat)
    | AppendRecord(ok: bool, landed: bool)
    | Sync(ok: bool)
    | InsertOne
    | Finish

  function Start(lastSequence: nat): State {
    State([], [], [], Idle, [LogFile([], 0, None)], [], lastSequence, false)
  }

  predicate Enabled(s: State, step: Step) {
    match step
    case Enqueue(_) => true
    case BackgroundError => true
    case SwitchLog => s.work.Idle? && s.queue != [] && !s.failed
    case Refuse => s.work.Idle? && s.queue != [] && s.files != []
    case Pass => s.work.Idle? && s.queue != [] && !s.failed && s.queue[0].batch.None? && s.files != []
    case Begin(n) => s.work.Idle? && s.queue != [] && !s.failed && GroupOf(s.queue, n)
    case AppendRecord(ok, landed) => s.work.Busy? && s.work.phase.Logging? && s.files != [] && (ok ==> landed)
    case Sync(_) => s.work.Busy? && s.work.phase.Syncing? && s.files != []
    case InsertOne =>
      s.work.Busy? && s.work.phase.Inserting? && s.work.phase.done < |AllOps(s.work.members)|
    case Finish =>
      && s.work.Busy? && |s.work.members| <= |s.queue| && s.files != []
      && (s.work.phase.Broken? || (s.work.phase.Inserting? && s.work.phase.done == |AllOps(s.work.members)|))
  }

  /** AddRecord at the end of the current log file. */
  function Appended(files: seq<LogFile>, record: Record): (r: seq<LogFile>)
    requires files != []
    ensures |r| == |files|
  {
    var last := files[|files| - 1];
    files[|files| - 1 := last.(records := last.records + [record])]
  }

  /** An append that failed: the record it was for would be the first of doubtful ones. */
  function Damaged(files: seq<LogFile>, index: nat): (r: seq<LogFile>)
    requires files != []
    ensures |r| == |files|
  {
    var last := files[|files| - 1];
    files[|files| - 1 := if last.damaged.None? then last.(damaged := Some(index)) else last]
  }

  function Synced(files: seq<LogFile>): (r: seq<LogFile>)
    requires files != []
    ensures |r| == |files|
  {
    var last := files[|files| - 1];
    files[|files| - 1 := last.(synced := |last.records|)]
  }

  /** One answer for each member of a group: the leader hands its own status to all. */
  function AnswersOf(members: seq<Request>, first: nat, outcome: Outcome, file: nat, place: Option<Place>): (r: seq<Answer>)
    ensures |r| == |members|
    ensures forall i | 0 <= i < |r| :: r[i].request == members[i] && r[i].outcome == outcome && r[i].file == file && r[i].place == place
  {
    if members == [] then []
    else
      var n := |members| - 1;
      AnswersOf(members[..n], first, outcome, file, place)
      + [Answer(members[n], outcome, first + |AllOps(members[..n])|, file, place)]
  }

  function After(s: State, step: Step): State
    requires Enabled(s, step)
  {
    match step
    case Enqueue(request) => s.(arrived := s.arrived + [request], queue := s.queue + [request])
    case BackgroundError => s.(failed := true)
    case SwitchLog => s.(files := s.files + [LogFile([], 0, None)])
    case Refuse =>
      s.(answers := s.answers + [Answer(s.queue[0], Refused, s.lastSequence + 1, |s.files| - 1, None)], queue := s.queue[1..])
    case Pass =>
      s.(answers := s.answers + [Answer(s.queue[0], Accepted, s.lastSequence + 1, |s.files| - 1, None)], queue := s.queue[1..])
    case Begin(n) => s.(work := Busy(s.queue[..n], None, Logging))
    case AppendRecord(ok, landed) =>
      var place := Place(|s.files| - 1, |s.files[|s.files| - 1].records|);
      var phase := if !ok then Broken(false) else if s.work.members != [] && s.work.members[0].sync then Syncing else Inserting(0);
      var record := Record(s.lastSequence + 1, s.work.members);
      var files := if ok then s.files else Damaged(s.files, place.index);
      s.(files := if landed then Appended(files, record) else files,
         work := Busy(s.work.members, if landed then Some(place) else None, phase))
    case Sync(ok) =>
      if ok then s.(files := Synced(s.files), work := s.work.(phase := Inserting(0)))
      else s.(work := s.work.(phase := Broken(true)))
    case InsertOne =>
      var done := s.work.phase.done;
      s.(mem := s.mem + [(s.lastSequence + 1 + done, AllOps(s.work.members)[done])],
         work := s.work.(phase := Inserting(done + 1)))
    case Finish =>
      var members := s.work.members;
      var outcome := Outcomes(s.work.phase);
      s.(answers := s.answers + AnswersOf(members, s.lastSequence + 1, outcome, |s.files| - 1, s.work.place),
         queue := s.queue[|members|..], work := Idle,
         lastSequence := s.lastSequence + |AllOps(members)|,
         failed := s.failed || s.work.phase == Broken(true))
  }

  predicate Runs(s: State, steps: seq<Step>)
    decreases |steps|
  {
    steps == [] || (Enabled(s, steps[0]) && Runs(After(s, steps[0]), steps[1..]))
  }

  function Final(s: State, steps: seq<Step>): State
    requires Runs(s, steps)
    decreases |steps|
  {
    if steps == [] then s else Final(After(s, steps[0]), steps[1..])
  }

  // ---------- sequence numbers ----------

  /** How many sequence numbers an answered request took; a failed one takes them too. */
  function Width(a: Answer): nat {
    if a.outcome.Refused? then 0 else |OpsOf(a.request)|
  }

  /** Requests take consecutive numbers in queue order, from `base` + 1 to `last`. */
  predicate Chained(base: nat, answers: seq<Answer>, last: nat) {
    if answers == [] then last == base
    else
      var a := answers[|answers| - 1];
      Width(a) < last + 1 && a.first == last + 1 - Width(a) && Chained(base, answers[..|answers| - 1], last - Width(a))
  }

  /** What the accepted requests put into the memtable. */
  function Applied(answers: seq<Answer>): seq<(nat, Op)> {
    if answers == [] then []
    else
      var a := answers[|answers| - 1];
      Applied(answers[..|answers| - 1]) + if a.outcome.Accepted? then Numbered(a.first, OpsOf(a.request)) else []
  }

  lemma {:induction false} AppliedAppend(answers: seq<Answer>, a: Answer)
    ensures Applied(answers + [a])
            == Applied(answers) + if a.outcome.Accepted? then Numbered(a.first, OpsOf(a.request)) else []
  {
    assert (answers + [a])[..|answers + [a]| - 1] == answers;
  }

  lemma {:induction false} ChainedOne(base: nat, answers: seq<Answer>, last: nat, a: Answer)
    requires Chained(base, answers, last) && a.first == last + 1
    ensures Chained(base, answers + [a], last + Width(a))
  {
    assert (answers + [a])[..|answers + [a]| - 1] == answers;
  }

  lemma {:induction false} AnswersSplit(answers: seq<Answer>, members: seq<Request>, first: nat, outcome: Outcome,
                    file: nat, place: Option<Place>)
    requires members != []
    ensures var n := |members| - 1;
            answers + AnswersOf(members, first, outcome, file, place)
            == answers + AnswersOf(members[..n], first, outcome, file, place)
              + [Answer(members[n], outcome, first + |AllOps(members[..n])|, file, place)]
  {
  }

  /** A group continues the chain and applies exactly its operations, numbered in order. */
  lemma {:induction false} GroupChains(base: nat, answers: seq<Answer>, last: nat, members: seq<Request>, outcome: Outcome,
                    file: nat, place: Option<Place>)
    requires Chained(base, answers, last) && !outcome.Refused?
    ensures Chained(base, answers + AnswersOf(members, last + 1, outcome, file, place), last + |AllOps(members)|)
  {
    if members == [] {
      assert answers + AnswersOf(members, last + 1, outcome, file, place) == answers;
    } else {
      var n := |members| - 1;
      var before := AnswersOf(members[..n], last + 1, outcome, file, place);
      GroupChains(base, answers, last, members[..n], outcome, file, place);
      AnswersSplit(answers, members, last + 1, outcome, file, place);
      ChainedOne(base, answers + before, last + |AllOps(members[..n])|,
                 Answer(members[n], outcome, last + 1 + |AllOps(members[..n])|, file, place));
    }
  }

  lemma {:induction false} GroupApplies(answers: seq<Answer>, first: nat, members: seq<Request>, outcome: Outcome,
                    file: nat, place: Option<Place>)
    requires !outcome.Refused?
    ensures Applied(answers + AnswersOf(members, first, outcome, file, place))
            == Applied(answers) + if outcome.Accepted? then Numbered(first, AllOps(members)) else []
  {
    if members == [] {
      assert answers + AnswersOf(members, first, outcome, file, place) == answers;
      assert Applied(answers) + [] == Applied(answers);
    } else {
      var n := |members| - 1;
      var before := AnswersOf(members[..n], first, outcome, file, place);
      GroupApplies(answers, first, members[..n], outcome, file, place);
      AnswersSplit(answers, members, first, outcome, file, place);
      AppliedOne(answers, before, Answer(members[n], outcome, first + |AllOps(members[..n])|, file, place),
                 Numbered(first, AllOps(members[..n])), first, AllOps(members[..n]));
    }
  }

  lemma {:induction false} AppliedOne(answers: seq<Answer>, before: seq<Answer>, a: Answer, entries: seq<(nat, Op)>,
                    first: nat, ops: seq<Op>)
    requires a.first == first + |ops| && entries == Numbered(first, ops)
    requires !a.outcome.Refused?
    requires Applied(answers + before) == Applied(answers) + if a.outcome.Accepted? then entries else []
    ensures Applied(answers + before + [a])
            == Applied(answers) + if a.outcome.Accepted? then Numbered(first, ops + OpsOf(a.request)) else []
  {
    AppliedAppend(answers + before, a);
    NumberedConcat(first, ops, OpsOf(a.request));
  }

  // ---------- where the records are ----------

  predicate PlaceIn(files: seq<LogFile>, p: Place) {
    p.file < |files| && p.index < |files[p.file].records|
  }

  function At(files: seq<LogFile>, p: Place): Record
    requires PlaceIn(files, p)
  {
    files[p.file].records[p.index]
  }

  /** The operations of the request are a stretch of the record, at the number it took. */
  predicate Holds(record: Record, request: Request, first: nat) {
    && record.first <= first && first - record.first + |OpsOf(request)| <= |AllOps(record.members)|
    && AllOps(record.members)[first - record.first..first - record.first + |OpsOf(request)|] == OpsOf(request)
  }

  predicate Apart(record: Record, a: Answer) {
    Width(a) == 0 || AllOps(record.members) == []
    || a.first + Width(a) <= record.first || record.first + |AllOps(record.members)| <= a.first
  }

  /** The log of one answer: where a batch was accepted it is logged, and synced if that was asked for. */
  predicate AnswerLogged(files: seq<LogFile>, a: Answer) {
    && (a.place.Some? ==>
          && !a.outcome.Refused? && PlaceIn(files, a.place.value)
          && Holds(At(files, a.place.value), a.request, a.first))
    && (a.outcome.Accepted? && a.request.batch.Some? ==>
          && a.place.Some?
          && (a.request.sync ==>
                a.place.value.file < |files| && a.place.value.index < files[a.place.value.file].synced))
  }

  /** No record but its own shares a number with an answered request. */
  ghost predicate AnswerApart(files: seq<LogFile>, a: Answer) {
    forall p: Place | PlaceIn(files, p) && a.place != Some(p) :: Apart(At(files, p), a)
  }

  ghost predicate LoggedOne(files: seq<LogFile>, a: Answer) {
    AnswerLogged(files, a) && AnswerApart(files, a)
  }

  ghost predicate Logged(files: seq<LogFile>, answers: seq<Answer>) {
    forall i {:trigger LoggedOne(files, answers[i])} | 0 <= i < |answers| :: LoggedOne(files, answers[i])
  }

  predicate FilesValid(files: seq<LogFile>) {
    files != [] && forall f | 0 <= f < |files| :: files[f].synced <= |files[f].records|
  }

  /** Every record but that of the group at work lies between the first and the last number. */
  ghost predicate Bounded(base: nat, files: seq<LogFile>, last: nat, working: Option<Place>) {
    forall p: Place | PlaceIn(files, p) && working != Some(p) ::
      base < At(files, p).first && At(files, p).first + |AllOps(At(files, p).members)| <= last + 1
  }

  // ---------- the invariant ----------

  function Requests(answers: seq<Answer>): (r: seq<Request>)
    ensures |r| == |answers|
  {
    seq(|answers|, i requires 0 <= i < |answers| => answers[i].request)
  }

  function Working(w: Work): Option<Place> {
    match w case Idle => None case Busy(_, place, _) => place
  }

  function Partial(w: Work, last: nat): seq<(nat, Op)> {
    match w
    case Idle => []
    case Busy(members, _, phase) =>
      if phase.Inserting? && phase.done <= |AllOps(members)| then Numbered(last + 1, AllOps(members)[..phase.done]) else []
  }

  predicate WorkValid(w: Work, queue: seq<Request>, files: seq<LogFile>, last: nat) {
    w.Busy? ==>
      && 0 < |w.members| <= |queue| && w.members == queue[..|w.members|]
      && (forall k | 0 <= k < |w.members| :: w.members[k].sync ==> w.members[0].sync)
      && (w.place.Some? ==>
            && PlaceIn(files, w.place.value) && At(files, w.place.value) == Record(last + 1, w.members)
            && w.place.value.file == |files| - 1 && w.place.value.index == |files[|files| - 1].records| - 1)
      && (w.phase.Logging? ==> w.place.None?)
      && (w.phase.Syncing? || w.phase.Inserting? ==> w.place.Some?)
      && (w.phase.Inserting? ==>
            && w.phase.done <= |AllOps(w.members)|
            && (w.members[0].sync ==> w.place.value.index < files[w.place.value.file].synced))
  }

  ghost predicate Inv(base: nat, s: State) {
    && Requests(s.answers) + s.queue == s.arrived
    && Chained(base, s.answers, s.lastSequence)
    && s.mem == Applied(s.answers) + Partial(s.work, s.lastSequence)
    && FilesValid(s.files)
    && Logged(s.files, s.answers)
    && Bounded(base, s.files, s.lastSequence, Working(s.work))
    && WorkValid(s.work, s.queue, s.files, s.lastSequence)
  }

  lemma {:induction false} StartInv(base: nat)
    ensures Inv(base, Start(base))
  {
    assert Requests([]) + [] == [];
  }

  // ---------- what the steps on the files keep ----------

  /** Every record stays where it is, and stays synced. */
  ghost predicate Grows(old_: seq<LogFile>, new_: seq<LogFile>) {
    && |old_| <= |new_|
    && (forall p: Place | PlaceIn(old_, p) :: PlaceIn(new_, p) && At(new_, p) == At(old_, p))
    && (forall f | 0 <= f < |old_| :: old_[f].synced <= new_[f].synced)
  }

  lemma {:induction false} AppendGrows(files: seq<LogFile>, record: Record)
    requires FilesValid(files)
    ensures FilesValid(Appended(files, record)) && Grows(files, Appended(files, record))
    ensures var p := Place(|files| - 1, |files[|files| - 1].records|);
            && PlaceIn(Appended(files, record), p) && At(Appended(files, record), p) == record
            && (forall q: Place | PlaceIn(Appended(files, record), q) && q != p :: PlaceIn(files, q))
  {
  }

  lemma {:induction false} SyncGrows(files: seq<LogFile>)
    requires FilesValid(files)
    ensures FilesValid(Synced(files)) && Grows(files, Synced(files))
    ensures forall p: Place :: PlaceIn(Synced(files), p) <==> PlaceIn(files, p)
  {
  }

  lemma {:induction false} LoggedGrows(files: seq<LogFile>, grown: seq<LogFile>, answers: seq<Answer>, added: Option<Place>,
                    base: nat, last: nat)
    requires Grows(files, grown) && Logged(files, answers) && Chained(base, answers, last)
    requires forall p: Place | PlaceIn(grown, p) && added != Some(p) :: PlaceIn(files, p)
    requires added.Some? ==> PlaceIn(grown, added.value) && At(grown, added.value).first == last + 1
    ensures Logged(grown, answers)
  {
    forall i | 0 <= i < |answers| ensures LoggedOne(grown, answers[i]) {
      assert LoggedOne(files, answers[i]);
      EndsByLast(base, answers, last, i);
    }
  }

  lemma {:induction false} EndsByLast(base: nat, answers: seq<Answer>, last: nat, i: nat)
    requires Chained(base, answers, last) && i < |answers|
    ensures answers[i].first + Width(answers[i]) <= last + 1
    decreases |answers|
  {
    var n := |answers| - 1;
    if i < n {
      assert answers[..n][i] == answers[i];
      EndsByLast(base, answers[..n], last - Width(answers[n]), i);
    }
  }

  // ---------- every step keeps the invariant ----------

  lemma {:induction false} EnqueueKeeps(base: nat, s: State, request: Request)
    requires Inv(base, s)
    ensures Inv(base, After(s, Enqueue(request)))
  {
    assert Requests(s.answers) + (s.queue + [request]) == s.arrived + [request];
  }

  lemma {:induction false} SwitchKeeps(base: nat, s: State)
    requires Inv(base, s) && Enabled(s, SwitchLog)
    ensures Inv(base, After(s, SwitchLog))
  {
    var grown := s.files + [LogFile([], 0, None)];
    assert Grows(s.files, grown);
    LoggedGrows(s.files, grown, s.answers, None, base, s.lastSequence);
    assert Bounded(base, grown, s.lastSequence, None) by {
      forall p: Place | PlaceIn(grown, p)
        ensures base < At(grown, p).first && At(grown, p).first + |AllOps(At(grown, p).members)| <= s.lastSequence + 1
      {
        assert PlaceIn(s.files, p);
      }
    }
  }

  /** A request answered without a group takes no number and is in no record. */
  lemma {:induction false} SingleKeeps(base: nat, s: State, outcome: Outcome)
    requires Inv(base, s) && s.work.Idle? && s.queue != []
    requires outcome.Refused? || (outcome.Accepted? && s.queue[0].batch.None?)
    ensures Inv(base, s.(answers := s.answers + [Answer(s.queue[0], outcome, s.lastSequence + 1, |s.files| - 1, None)],
                         queue := s.queue[1..]))
  {
    var a := Answer(s.queue[0], outcome, s.lastSequence + 1, |s.files| - 1, None);
    assert Requests(s.answers + [a]) + s.queue[1..] == Requests(s.answers) + s.queue;
    assert LoggedOne(s.files, a);
    forall i | 0 <= i < |s.answers + [a]| ensures LoggedOne(s.files, (s.answers + [a])[i]) {
      assert i < |s.answers| ==> LoggedOne(s.files, s.answers[i]);
    }
    ChainedOne(base, s.answers, s.lastSequence, a);
    AppliedAppend(s.answers, a);
    assert Numbered(a.first, OpsOf(a.request)) == [] || outcome.Refused?;
    assert Applied(s.answers + [a]) == Applied(s.answers);
  }

  lemma {:induction false} BeginKeeps(base: nat, s: State, n: nat)
    requires Inv(base, s) && Enabled(s, Begin(n))
    ensures Inv(base, After(s, Begin(n)))
  {
    forall k | 0 <= k < n ensures s.queue[..n][k].sync ==> s.queue[..n][0].sync {
      if k > 0 {
        EachJoins(s.queue, n, k);
      }
    }
  }

  lemma {:induction false} NothingYet(members: seq<Request>, place: Option<Place>, last: nat)
    ensures Partial(Busy(members, place, Inserting(0)), last) == []
  {
    assert Numbered(last + 1, AllOps(members)[..0]) == [];
  }

  lemma {:induction false} WorkLanded(w: Work, queue: seq<Request>, files: seq<LogFile>, grown: seq<LogFile>, last: nat,
                    place: Place, phase: Phase)
    requires w.Busy? && WorkValid(w, queue, files, last)
    requires PlaceIn(grown, place) && At(grown, place) == Record(last + 1, w.members)
    requires grown != [] && place.file == |grown| - 1 && place.index == |grown[|grown| - 1].records| - 1
    requires phase.Syncing? || phase.Broken? || (phase == Inserting(0) && !w.members[0].sync)
    ensures WorkValid(Busy(w.members, Some(place), phase), queue, grown, last)
  {
  }

  lemma {:induction false} LandedFiles(files: seq<LogFile>, record: Record, answers: seq<Answer>, base: nat, last: nat)
    requires FilesValid(files) && Logged(files, answers) && Chained(base, answers, last) && Bounded(base, files, last, None)
    requires record.first == last + 1
    ensures var grown, place := Appended(files, record), Place(|files| - 1, |files[|files| - 1].records|);
            && FilesValid(grown) && Logged(grown, answers) && Bounded(base, grown, last, Some(place))
            && PlaceIn(grown, place) && At(grown, place) == record && place.index == |grown[|grown| - 1].records| - 1
  {
    var grown, place := Appended(files, record), Place(|files| - 1, |files[|files| - 1].records|);
    AppendGrows(files, record);
    LoggedGrows(files, grown, answers, Some(place), base, last);
    assert Bounded(base, grown, last, Some(place));
  }

  lemma {:induction false} LandedKeeps(base: nat, s: State, phase: Phase)
    requires Inv(base, s) && s.work.Busy? && s.work.phase.Logging?
    requires phase.Syncing? || phase.Broken? || (phase == Inserting(0) && !s.work.members[0].sync)
    ensures var place := Place(|s.files| - 1, |s.files[|s.files| - 1].records|);
            Inv(base, s.(files := Appended(s.files, Record(s.lastSequence + 1, s.work.members)),
                         work := Busy(s.work.members, Some(place), phase)))
  {
    var record, place := Record(s.lastSequence + 1, s.work.members), Place(|s.files| - 1, |s.files[|s.files| - 1].records|);
    LandedFiles(s.files, record, s.answers, base, s.lastSequence);
    WorkLanded(s.work, s.queue, s.files, Appended(s.files, record), s.lastSequence, place, phase);
    NothingYet(s.work.members, Some(place), s.lastSequence);
    Assembles(base, s, Appended(s.files, record), Busy(s.work.members, Some(place), phase));
  }

  lemma {:induction false} DamageGrows(files: seq<LogFile>, index: nat)
    requires FilesValid(files)
    ensures FilesValid(Damaged(files, index)) && Grows(files, Damaged(files, index))
    ensures forall p: Place :: PlaceIn(Damaged(files, index), p) <==> PlaceIn(files, p)
    ensures |Damaged(files, index)[|files| - 1].records| == |files[|files| - 1].records|
  {
  }

  /** A failed append leaves the records that were there. */
  lemma {:induction false} DamageKeeps(base: nat, s: State, index: nat)
    requires Inv(base, s) && s.work.Busy? && s.work.phase.Logging?
    ensures Inv(base, s.(files := Damaged(s.files, index)))
  {
    var files := Damaged(s.files, index);
    DamageGrows(s.files, index);
    LoggedGrows(s.files, files, s.answers, None, base, s.lastSequence);
    assert Bounded(base, files, s.lastSequence, Working(s.work));
    Assembles(base, s, files, s.work);
  }

  lemma {:induction false} BrokenKeeps(base: nat, s: State)
    requires Inv(base, s) && s.work.Busy? && s.work.phase.Logging?
    ensures Inv(base, s.(work := Busy(s.work.members, None, Broken(false))))
  {
  }

  lemma {:induction false} AppendKeeps(base: nat, s: State, ok: bool, landed: bool)
    requires Inv(base, s) && Enabled(s, AppendRecord(ok, landed))
    ensures Inv(base, After(s, AppendRecord(ok, landed)))
  {
    if ok {
      assert landed;
      AppendedKeeps(base, s);
    } else {
      FailedKeeps(base, s, landed);
    }
  }

  lemma {:induction false} AppendedKeeps(base: nat, s: State)
    requires Inv(base, s) && Enabled(s, AppendRecord(true, true))
    ensures Inv(base, After(s, AppendRecord(true, true)))
  {
    var phase := if s.work.members[0].sync then Syncing else Inserting(0);
    LandedKeeps(base, s, phase);
    var place := Place(|s.files| - 1, |s.files[|s.files| - 1].records|);
    assert After(s, AppendRecord(true, true))
      == s.(files := Appended(s.files, Record(s.lastSequence + 1, s.work.members)),
            work := Busy(s.work.members, Some(place), phase));
  }

  lemma {:induction false} FailedKeeps(base: nat, s: State, landed: bool)
    requires Inv(base, s) && Enabled(s, AppendRecord(false, landed))
    ensures Inv(base, After(s, AppendRecord(false, landed)))
  {
    var index := |s.files[|s.files| - 1].records|;
    var t := s.(files := Damaged(s.files, index));
    DamageKeeps(base, s, index);
    DamageGrows(s.files, index);
    if landed {
      LandedKeeps(base, t, Broken(false));
      var place := Place(|t.files| - 1, |t.files[|t.files| - 1].records|);
      assert After(s, AppendRecord(false, landed))
        == t.(files := Appended(t.files, Record(t.lastSequence + 1, t.work.members)),
              work := Busy(t.work.members, Some(place), Broken(false)));
    } else {
      BrokenKeeps(base, t);
    }
  }

  /** A step on the log and the work alone. */
  lemma {:induction false} Assembles(base: nat, s: State, files: seq<LogFile>, work: Work)
    requires Inv(base, s) && Partial(work, s.lastSequence) == Partial(s.work, s.lastSequence)
    requires FilesValid(files)
    requires Logged(files, s.answers)
    requires Bounded(base, files, s.lastSequence, Working(work))
    requires WorkValid(work, s.queue, files, s.lastSequence)
    ensures Inv(base, s.(files := files, work := work))
  {
  }

  lemma {:induction false} SyncKeeps(base: nat, s: State, ok: bool)
    requires Inv(base, s) && Enabled(s, Sync(ok))
    ensures Inv(base, After(s, Sync(ok)))
  {
    if ok {
      var grown := Synced(s.files);
      SyncGrows(s.files);
      LoggedGrows(s.files, grown, s.answers, None, base, s.lastSequence);
      assert Bounded(base, grown, s.lastSequence, Working(s.work));
      NothingYet(s.work.members, s.work.place, s.lastSequence);
    }
  }

  lemma {:induction false} InsertKeeps(base: nat, s: State)
    requires Inv(base, s) && Enabled(s, InsertOne)
    ensures Inv(base, After(s, InsertOne))
  {
    OneMoreIn(s.work.members, s.work.place, s.work.phase.done, s.lastSequence);
    Assoc(Applied(s.answers), Partial(s.work, s.lastSequence), After(s, InsertOne).mem[|s.mem|..]);
  }

  lemma {:induction false} OneMoreIn(members: seq<Request>, place: Option<Place>, done: nat, last: nat)
    requires done < |AllOps(members)|
    ensures Partial(Busy(members, place, Inserting(done + 1)), last)
            == Partial(Busy(members, place, Inserting(done)), last) + [(last + 1 + done, AllOps(members)[done])]
  {
    NumberedMore(last + 1, AllOps(members), done);
  }

  lemma {:induction false} NumberedMore(first: nat, ops: seq<Op>, done: nat)
    requires done < |ops|
    ensures Numbered(first, ops[..done + 1]) == Numbered(first, ops[..done]) + [(first + done, ops[done])]
  {
  }

  lemma {:induction false} AllOpsSlice(members: seq<Request>, i: nat)
    requires i < |members|
    ensures var at := |AllOps(members[..i])|;
            at + |OpsOf(members[i])| <= |AllOps(members)| && AllOps(members)[at..at + |OpsOf(members[i])|] == OpsOf(members[i])
    decreases |members|
  {
    var n := |members| - 1;
    if i < n {
      assert members[..n][..i] == members[..i] && members[..n][i] == members[i];
      AllOpsSlice(members[..n], i);
    }
  }

  lemma {:induction false} AnswerFirst(members: seq<Request>, first: nat, outcome: Outcome, file: nat, place: Option<Place>, i: nat)
    requires i < |members|
    ensures AnswersOf(members, first, outcome, file, place)[i].first == first + |AllOps(members[..i])|
    decreases |members|
  {
    var n := |members| - 1;
    if i < n {
      assert members[..n][..i] == members[..i];
      AnswerFirst(members[..n], first, outcome, file, place, i);
    }
  }

  /** A member of the group at work is answered where its record says. */
  lemma {:induction false} FinishLogged(files: seq<LogFile>, work: Work, queue: seq<Request>, last: nat, a: Answer, i: nat)
    requires work.Busy? && WorkValid(work, queue, files, last) && i < |work.members|
    requires a.request == work.members[i] && a.first == last + 1 + |AllOps(work.members[..i])| && a.place == work.place
    requires a.outcome.Errored? || (a.outcome.Accepted? && work.phase.Inserting?)
    ensures AnswerLogged(files, a)
  {
    AllOpsSlice(work.members, i);
  }

  lemma {:induction false} FinishApart(base: nat, files: seq<LogFile>, work: Work, last: nat, a: Answer)
    requires Bounded(base, files, last, Working(work)) && a.first > last && a.place == Working(work)
    ensures AnswerApart(files, a)
  {
  }

  lemma {:induction false} FinishLogs(base: nat, s: State, outcome: Outcome, i: nat)
    requires s.work.Busy? && WorkValid(s.work, s.queue, s.files, s.lastSequence) && s.files != []
    requires Bounded(base, s.files, s.lastSequence, s.work.place) && i < |s.work.members|
    requires outcome.Errored? || (outcome.Accepted? && s.work.phase.Inserting?)
    ensures var a := AnswersOf(s.work.members, s.lastSequence + 1, outcome, |s.files| - 1, s.work.place)[i];
            LoggedOne(s.files, a)
  {
    AnswerFirst(s.work.members, s.lastSequence + 1, outcome, |s.files| - 1, s.work.place, i);
    var a := AnswersOf(s.work.members, s.lastSequence + 1, outcome, |s.files| - 1, s.work.place)[i];
    FinishLogged(s.files, s.work, s.queue, s.lastSequence, a, i);
    FinishApart(base, s.files, s.work, s.lastSequence, a);
  }

  lemma {:induction false} FinishAllLogs(base: nat, s: State, outcome: Outcome)
    requires s.work.Busy? && WorkValid(s.work, s.queue, s.files, s.lastSequence) && s.files != []
    requires Bounded(base, s.files, s.lastSequence, s.work.place) && Logged(s.files, s.answers)
    requires outcome.Errored? || (outcome.Accepted? && s.work.phase.Inserting?)
    ensures Logged(s.files, s.answers + AnswersOf(s.work.members, s.lastSequence + 1, outcome, |s.files| - 1, s.work.place))
  {
    var more := AnswersOf(s.work.members, s.lastSequence + 1, outcome, |s.files| - 1, s.work.place);
    forall i | 0 <= i < |s.answers + more|
      ensures LoggedOne(s.files, (s.answers + more)[i])
    {
      if i < |s.answers| {
        assert LoggedOne(s.files, s.answers[i]);
      } else {
        FinishLogs(base, s, outcome, i - |s.answers|);
      }
    }
  }

  lemma {:induction false} FinishRequests(answers: seq<Answer>, more: seq<Answer>, queue: seq<Request>, n: nat)
    requires |more| == n <= |queue| && forall i | 0 <= i < n :: more[i].request == queue[i]
    ensures Requests(answers + more) + queue[n..] == Requests(answers) + queue
  {
  }

  lemma {:induction false} FinishBounds(base: nat, w: Work, queue: seq<Request>, files: seq<LogFile>, last: nat)
    requires w.Busy? && WorkValid(w, queue, files, last) && Bounded(base, files, last, w.place) && base <= last
    ensures Bounded(base, files, last + |AllOps(w.members)|, None)
  {
  }

  lemma {:induction false} FinishPartial(w: Work, last: nat)
    requires w.Busy? && (w.phase.Broken? || w.phase == Inserting(|AllOps(w.members)|))
    ensures Partial(w, last) == if w.phase.Broken? then [] else Numbered(last + 1, AllOps(w.members))
  {
    assert AllOps(w.members)[..|AllOps(w.members)|] == AllOps(w.members);
  }

  lemma {:induction false} FinishMem(answers: seq<Answer>, mem: seq<(nat, Op)>, w: Work, last: nat, outcome: Outcome, file: nat,
                    all: seq<Answer>)
    requires w.Busy? && (w.phase.Broken? || w.phase == Inserting(|AllOps(w.members)|))
    requires outcome == Outcomes(w.phase) && mem == Applied(answers) + Partial(w, last)
    requires all == answers + AnswersOf(w.members, last + 1, outcome, file, w.place)
    ensures mem == Applied(all)
  {
    GroupApplies(answers, last + 1, w.members, outcome, file, w.place);
    FinishPartial(w, last);
  }

  function Outcomes(phase: Phase): Outcome {
    if phase.Broken? then Errored else Accepted
  }

  /** The answers once the group at work is done, and the last number it took. */
  function FinishAnswers(s: State): seq<Answer>
    requires s.work.Busy? && s.files != []
  {
    s.answers + AnswersOf(s.work.members, s.lastSequence + 1, Outcomes(s.work.phase), |s.files| - 1, s.work.place)
  }

  function FinishLast(s: State): nat
    requires s.work.Busy?
  {
    s.lastSequence + |AllOps(s.work.members)|
  }

  lemma {:induction false} FinishQueue(base: nat, s: State)
    requires Inv(base, s) && Enabled(s, Finish)
    ensures Requests(FinishAnswers(s)) + s.queue[|s.work.members|..] == s.arrived
  {
    var more := AnswersOf(s.work.members, s.lastSequence + 1, Outcomes(s.work.phase), |s.files| - 1, s.work.place);
    FinishRequests(s.answers, more, s.queue, |s.work.members|);
  }

  lemma {:induction false} FinishLog(base: nat, s: State)
    requires Inv(base, s) && Enabled(s, Finish)
    ensures Logged(s.files, FinishAnswers(s))
  {
    FinishAllLogs(base, s, Outcomes(s.work.phase));
  }

  lemma {:induction false} FinishBound(base: nat, s: State)
    requires Inv(base, s) && Enabled(s, Finish)
    ensures Bounded(base, s.files, FinishLast(s), None)
  {
    BaseBelow(base, s.answers, s.lastSequence);
    FinishBounds(base, s.work, s.queue, s.files, s.lastSequence);
  }

  lemma {:induction false} FinishChain(base: nat, s: State)
    requires Enabled(s, Finish) && Chained(base, s.answers, s.lastSequence)
    ensures Chained(base, FinishAnswers(s), FinishLast(s))
  {
    GroupChains(base, s.answers, s.lastSequence, s.work.members, Outcomes(s.work.phase), |s.files| - 1, s.work.place);
  }

  lemma {:induction false} FinishTable(s: State)
    requires Enabled(s, Finish) && s.mem == Applied(s.answers) + Partial(s.work, s.lastSequence)
    ensures s.mem == Applied(FinishAnswers(s))
  {
    FinishMem(s.answers, s.mem, s.work, s.lastSequence, Outcomes(s.work.phase), |s.files| - 1, FinishAnswers(s));
  }

  lemma {:induction false} FinishKeeps(base: nat, s: State)
    requires Inv(base, s) && Enabled(s, Finish)
    ensures Inv(base, After(s, Finish))
  {
    FinishQueue(base, s);
    FinishChain(base, s);
    FinishTable(s);
    FinishLog(base, s);
    FinishBound(base, s);
    AssemblesIdle(base, After(s, Finish), FinishAnswers(s), FinishLast(s));
  }

  lemma {:induction false} AssemblesIdle(base: nat, t: State, answers: seq<Answer>, last: nat)
    requires t.answers == answers && t.lastSequence == last && t.work == Idle
    requires Requests(answers) + t.queue == t.arrived
    requires Chained(base, answers, last)
    requires t.mem == Applied(answers)
    requires FilesValid(t.files)
    requires Logged(t.files, answers)
    requires Bounded(base, t.files, last, None)
    ensures Inv(base, t)
  {
    assert Applied(answers) + [] == Applied(answers);
  }

  lemma {:induction false} StepKeeps(base: nat, s: State, step: Step)
    requires Inv(base, s) && Enabled(s, step)
    ensures Inv(base, After(s, step))
  {
    match step
    case Enqueue(request) => EnqueueKeeps(base, s, request);
    case BackgroundError =>
    case SwitchLog => SwitchKeeps(base, s);
    case Refuse => SingleKeeps(base, s, Refused);
    case Pass => SingleKeeps(base, s, Accepted);
    case Begin(n) => BeginKeeps(base, s, n);
    case AppendRecord(ok, landed) => AppendKeeps(base, s, ok, landed);
    case Sync(ok) => SyncKeeps(base, s, ok);
    case InsertOne => InsertKeeps(base, s);
    case Finish => FinishKeeps(base, s);
  }

  lemma {:induction false} RunKeeps(base: nat, s: State, steps: seq<Step>)
    requires Inv(base, s) && Runs(s, steps)
    ensures Inv(base, Final(s, steps))
    decreases |steps|
  {
    if steps != [] {
      StepKeeps(base, s, steps[0]);
      RunKeeps(base, After(s, steps[0]), steps[1..]);
    }
  }

  // ---------- each request exactly once, in queue order ----------

  lemma {:induction false} InQueueOrder(base: nat, answers: seq<Answer>, last: nat, i: nat, j: nat)
    requires Chained(base, answers, last) && i < j < |answers|
    ensures base < answers[i].first && answers[i].first + Width(answers[i]) <= answers[j].first
    ensures answers[j].first + Width(answers[j]) <= last + 1
    decreases |answers|
  {
    var n := |answers| - 1;
    if j < n {
      assert answers[..n][i] == answers[i] && answers[..n][j] == answers[j];
      InQueueOrder(base, answers[..n], last - Width(answers[n]), i, j);
    } else {
      EndsByLast(base, answers[..n], last - Width(answers[n]), i);
      StartsAfterBase(base, answers, last, i);
    }
  }

  lemma {:induction false} StartsAfterBase(base: nat, answers: seq<Answer>, last: nat, i: nat)
    requires Chained(base, answers, last) && i < |answers|
    ensures base < answers[i].first
    decreases |answers|
  {
    var n := |answers| - 1;
    BaseBelow(base, answers[..n], last - Width(answers[n]));
    if i < n {
      assert answers[..n][i] == answers[i];
      StartsAfterBase(base, answers[..n], last - Width(answers[n]), i);
    }
  }

  lemma {:induction false} BaseBelow(base: nat, answers: seq<Answer>, last: nat)
    requires Chained(base, answers, last)
    ensures base <= last
  {
    if answers != [] {
      BaseBelow(base, answers[..|answers| - 1], last - Width(answers[|answers| - 1]));
    }
  }

  /** The entry `n` is one of the operations of the request. */
  predicate Owns(a: Answer, n: nat, op: Op) {
    a.first <= n < a.first + |OpsOf(a.request)| && op == OpsOf(a.request)[n - a.first]
  }

  predicate Ascending(entries: seq<(nat, Op)>) {
    forall i, j | 0 <= i < j < |entries| :: entries[i].0 < entries[j].0
  }

  predicate Within(entries: seq<(nat, Op)>, lo: nat, hi: nat) {
    forall i | 0 <= i < |entries| :: lo < entries[i].0 <= hi
  }

  lemma {:induction false} NumberedBounds(first: nat, ops: seq<Op>)
    requires first > 0
    ensures Ascending(Numbered(first, ops)) && Within(Numbered(first, ops), first - 1, first - 1 + |ops|)
  {
  }

  lemma {:induction false} AscendingConcat(a: seq<(nat, Op)>, b: seq<(nat, Op)>, lo: nat, mid: nat, hi: nat)
    requires Ascending(a) && Ascending(b) && Within(a, lo, mid) && Within(b, mid, hi) && lo <= mid <= hi
    ensures Ascending(a + b) && Within(a + b, lo, hi)
  {
  }

  lemma {:induction false} AppliedAscends(base: nat, answers: seq<Answer>, last: nat)
    requires Chained(base, answers, last)
    ensures Ascending(Applied(answers)) && Within(Applied(answers), base, last)
  {
    BaseBelow(base, answers, last);
    if answers != [] {
      var n := |answers| - 1;
      var a := answers[n];
      BaseBelow(base, answers[..n], last - Width(a));
      AppliedAscends(base, answers[..n], last - Width(a));
      if a.outcome.Accepted? {
        NumberedBounds(a.first, OpsOf(a.request));
        AscendingConcat(Applied(answers[..n]), Numbered(a.first, OpsOf(a.request)), base, last - Width(a), last);
      } else {
        assert Applied(answers) == Applied(answers[..n]);
      }
    }
  }

  lemma {:induction false} AppliedHas(answers: seq<Answer>, i: nat, n: nat, op: Op)
    requires i < |answers| && answers[i].outcome.Accepted? && Owns(answers[i], n, op)
    ensures (n, op) in Applied(answers)
    decreases |answers|
  {
    var m := |answers| - 1;
    if i < m {
      assert answers[..m][i] == answers[i];
      AppliedHas(answers[..m], i, n, op);
    } else {
      var entries := Numbered(answers[m].first, OpsOf(answers[m].request));
      assert entries[n - answers[m].first] == (n, op);
      assert (n, op) in entries;
    }
  }

  lemma {:induction false} AppliedOnly(answers: seq<Answer>, n: nat, op: Op) returns (i: nat)
    requires (n, op) in Applied(answers)
    ensures i < |answers| && answers[i].outcome.Accepted? && Owns(answers[i], n, op)
    decreases |answers|
  {
    var m := |answers| - 1;
    if (n, op) in Applied(answers[..m]) {
      i := AppliedOnly(answers[..m], n, op);
      assert answers[..m][i] == answers[i];
    } else {
      i := m;
    }
  }

  /** In every reachable state the memtable holds, once each and by ascending number, the operations
      of the accepted requests and of the group at work, and no other; answers follow the queue. */
  lemma {:induction false} ExactlyOnce(base: nat, steps: seq<Step>)
    requires Runs(Start(base), steps)
    ensures var s := Final(Start(base), steps);
            && Requests(s.answers) <= s.arrived && Ascending(s.mem)
            && (forall i, j | 0 <= i < j < |s.answers| ::
                  s.answers[i].first + Width(s.answers[i]) <= s.answers[j].first)
            && (forall n: nat, op {:trigger (n, op) in s.mem} | n <= s.lastSequence ::
                  (n, op) in s.mem
                  <==> exists i {:trigger s.answers[i]} :: 0 <= i < |s.answers| && s.answers[i].outcome.Accepted? && Owns(s.answers[i], n, op))
  {
    var s := Final(Start(base), steps);
    StartInv(base);
    RunKeeps(base, Start(base), steps);
    MemAscends(base, s);
    forall i, j | 0 <= i < j < |s.answers| ensures s.answers[i].first + Width(s.answers[i]) <= s.answers[j].first {
      InQueueOrder(base, s.answers, s.lastSequence, i, j);
    }
    forall n: nat, op | n <= s.lastSequence
      ensures (n, op) in s.mem
        <==> exists i {:trigger s.answers[i]} :: 0 <= i < |s.answers| && s.answers[i].outcome.Accepted? && Owns(s.answers[i], n, op)
    {
      if (n, op) in s.mem {
        assert (n, op) in Applied(s.answers);
        var i := AppliedOnly(s.answers, n, op);
        assert Owns(s.answers[i], n, op);
      } else {
        forall i | 0 <= i < |s.answers| && s.answers[i].outcome.Accepted? ensures !Owns(s.answers[i], n, op) {
          if Owns(s.answers[i], n, op) {
            AppliedHas(s.answers, i, n, op);
          }
        }
      }
    }
  }

  lemma {:induction false} PartialBounds(w: Work, last: nat)
    ensures Ascending(Partial(w, last)) && exists hi: nat :: last <= hi && Within(Partial(w, last), last, hi)
  {
    if Partial(w, last) == [] {
      assert Within(Partial(w, last), last, last);
    } else {
      NumberedBounds(last + 1, AllOps(w.members)[..w.phase.done]);
      assert Within(Partial(w, last), last, last + w.phase.done);
    }
  }

  lemma {:induction false} MemAscends(base: nat, s: State)
    requires Inv(base, s)
    ensures Ascending(s.mem) && Within(Applied(s.answers), base, s.lastSequence)
    ensures forall i | 0 <= i < |Partial(s.work, s.lastSequence)| :: Partial(s.work, s.lastSequence)[i].0 > s.lastSequence
  {
    AppliedAscends(base, s.answers, s.lastSequence);
    BaseBelow(base, s.answers, s.lastSequence);
    PartialBounds(s.work, s.lastSequence);
    var hi: nat :| s.lastSequence <= hi && Within(Partial(s.work, s.lastSequence), s.lastSequence, hi);
    AscendingConcat(Applied(s.answers), Partial(s.work, s.lastSequence), base, s.lastSequence, hi);
  }

  // ---------- readers ----------

  /** What a reader whose snapshot is `n` sees of the table. */
  function Visible(mem: seq<(nat, Op)>, n: nat): seq<(nat, Op)> {
    if mem == [] then []
    else Visible(mem[..|mem| - 1], n) + if mem[|mem| - 1].0 <= n then [mem[|mem| - 1]] else []
  }

  lemma {:induction false} VisibleAppend(mem: seq<(nat, Op)>, e: (nat, Op), n: nat)
    ensures Visible(mem + [e], n) == Visible(mem, n) + if e.0 <= n then [e] else []
  {
    assert (mem + [e])[..|mem + [e]| - 1] == mem;
  }

  lemma {:induction false} VisibleSplit(a: seq<(nat, Op)>, b: seq<(nat, Op)>, lo: nat, n: nat)
    requires Within(a, lo, n) && forall i | 0 <= i < |b| :: b[i].0 > n
    ensures Visible(a + b, n) == a
    decreases |a| + |b|
  {
    if b != [] {
      var m := |b| - 1;
      assert a + b == (a + b[..m]) + [b[m]];
      VisibleAppend(a + b[..m], b[m], n);
      VisibleSplit(a, b[..m], lo, n);
    } else if a != [] {
      var m := |a| - 1;
      assert a + b == a[..m] + [a[m]] && a[..m] + [] == a[..m];
      VisibleAppend(a[..m], a[m], n);
      VisibleSplit(a[..m], [], lo, n);
    }
  }

  lemma {:induction false} StepHides(s: State, step: Step, n: nat)
    requires Enabled(s, step) && n <= s.lastSequence
    ensures Visible(After(s, step).mem, n) == Visible(s.mem, n) && n <= After(s, step).lastSequence
  {
    if step.InsertOne? {
      VisibleAppend(s.mem, (s.lastSequence + 1 + s.work.phase.done, AllOps(s.work.members)[s.work.phase.done]), n);
    }
  }

  lemma {:induction false} RunHides(s: State, steps: seq<Step>, n: nat)
    requires Runs(s, steps) && n <= s.lastSequence
    ensures Visible(Final(s, steps).mem, n) == Visible(s.mem, n)
    decreases |steps|
  {
    if steps != [] {
      StepHides(s, steps[0], n);
      RunHides(After(s, steps[0]), steps[1..], n);
    }
  }

  /** A reader that takes its snapshot in any reachable state sees, then and ever after, exactly the
      batches accepted by then, each in full. */
  lemma {:induction false} NoPartialBatch(base: nat, steps: seq<Step>, later: seq<Step>)
    requires Runs(Start(base), steps) && Runs(Final(Start(base), steps), later)
    ensures var s := Final(Start(base), steps);
            Visible(Final(s, later).mem, s.lastSequence) == Applied(s.answers)
  {
    var s := Final(Start(base), steps);
    StartInv(base);
    RunKeeps(base, Start(base), steps);
    MemAscends(base, s);
    VisibleSplit(Applied(s.answers), Partial(s.work, s.lastSequence), base, s.lastSequence);
    RunHides(s, later, s.lastSequence);
  }

  // ---------- failed appends ----------

  predicate ErroredIn(a: Answer, f: nat) {
    a.outcome.Errored? && a.file == f
  }

  /** Some of the requests got an error while this log file was in use. */
  ghost predicate Tried(answers: seq<Answer>, f: nat) {
    exists i :: 0 <= i < |answers| && ErroredIn(answers[i], f)
  }

  predicate Behind(files: seq<LogFile>, p: Place) {
    p.file < |files| && files[p.file].damaged.Some? && files[p.file].damaged.value <= p.index
  }

  /** An accepted request lies behind a failed append exactly if an earlier one got an error. */
  ghost predicate DamageOne(files: seq<LogFile>, answers: seq<Answer>, i: nat)
    requires i < |answers|
  {
    var a := answers[i];
    && a.file < |files|
    && (a.outcome.Accepted? && a.place.Some? ==>
          && PlaceIn(files, a.place.value) && a.place.value.file == a.file
          && (Behind(files, a.place.value) <==> Tried(answers[..i], a.file)))
  }

  ghost predicate DamageEach(files: seq<LogFile>, answers: seq<Answer>) {
    forall i {:trigger DamageOne(files, answers, i)} | 0 <= i < |answers| :: DamageOne(files, answers, i)
  }

  /** What is known of the log file in use. */
  ghost predicate DamageNow(files: seq<LogFile>, answers: seq<Answer>, work: Work, failed: bool) {
    && files != []
    && var f := |files| - 1;
       && (files[f].damaged.Some? ==> files[f].damaged.value <= |files[f].records|)
       && (files[f].damaged.Some? ==> Tried(answers, f) || (work.Busy? && work.phase == Broken(false)))
       && (Tried(answers, f) ==> files[f].damaged.Some? || (work.Idle? && failed))
       && (work.Busy? && work.phase == Broken(false) ==> files[f].damaged.Some?)
       && (work.Busy? && (work.phase.Syncing? || work.phase.Inserting?) && work.place.Some? && files[f].damaged.Some? ==>
             files[f].damaged.value <= work.place.value.index)
  }

  ghost predicate DamageOk(s: State) {
    DamageEach(s.files, s.answers) && DamageNow(s.files, s.answers, s.work, s.failed)
  }

  /** Places stay and keep their side of the first failure. */
  ghost predicate SameSide(files: seq<LogFile>, grown: seq<LogFile>) {
    && |files| <= |grown|
    && forall p: Place {:trigger PlaceIn(files, p)} :: PlaceIn(files, p) ==> PlaceIn(grown, p) && (Behind(grown, p) <==> Behind(files, p))
  }

  lemma {:induction false} EachGrows(files: seq<LogFile>, grown: seq<LogFile>, answers: seq<Answer>)
    requires DamageEach(files, answers) && SameSide(files, grown)
    ensures DamageEach(grown, answers)
  {
    forall i | 0 <= i < |answers| ensures DamageOne(grown, answers, i) {
      assert DamageOne(files, answers, i);
    }
  }

  lemma {:induction false} TriedMore(answers: seq<Answer>, more: seq<Answer>, f: nat)
    ensures Tried(answers + more, f) <==> Tried(answers, f) || Tried(more, f)
  {
    if Tried(answers, f) {
      var i :| 0 <= i < |answers| && ErroredIn(answers[i], f);
      assert (answers + more)[i] == answers[i];
    }
    if Tried(more, f) {
      var i :| 0 <= i < |more| && ErroredIn(more[i], f);
      assert (answers + more)[|answers| + i] == more[i];
    }
  }

  /** Answers that are no errors of this file do not count. */
  lemma {:induction false} NotTried(answers: seq<Answer>, f: nat)
    requires forall i | 0 <= i < |answers| :: !ErroredIn(answers[i], f)
    ensures !Tried(answers, f)
  {
  }

  lemma {:induction false} EachMore(files: seq<LogFile>, answers: seq<Answer>, more: seq<Answer>)
    requires DamageEach(files, answers) && files != []
    requires forall i | 0 <= i < |more| :: more[i].file == |files| - 1
    requires forall i {:trigger more[i].place} | 0 <= i < |more| && more[i].outcome.Accepted? && more[i].place.Some? ::
               && PlaceIn(files, more[i].place.value) && more[i].place.value.file == |files| - 1
               && (forall j | 0 <= j < i :: !more[j].outcome.Errored?)
               && (Behind(files, more[i].place.value) <==> Tried(answers, |files| - 1))
    ensures DamageEach(files, answers + more)
  {
    var all := answers + more;
    forall i | 0 <= i < |all| ensures DamageOne(files, all, i) {
      if i < |answers| {
        assert DamageOne(files, answers, i);
        assert all[..i] == answers[..i] && all[i] == answers[i];
      } else {
        var k := i - |answers|;
        assert all[i] == more[k] && all[..i] == answers + more[..k];
        TriedMore(answers, more[..k], |files| - 1);
        if more[k].outcome.Accepted? && more[k].place.Some? {
          assert more[k].place.Some?;
          NotTried(more[..k], |files| - 1);
        }
      }
    }
  }

  lemma {:induction false} AppendDamage(s: State, ok: bool, landed: bool)
    requires DamageOk(s) && Enabled(s, AppendRecord(ok, landed))
    ensures DamageOk(After(s, AppendRecord(ok, landed)))
  {
    var t := After(s, AppendRecord(ok, landed));
    assert SameSide(s.files, t.files);
    EachGrows(s.files, t.files, s.answers);
  }

  lemma {:induction false} SyncDamage(s: State, ok: bool)
    requires DamageOk(s) && Enabled(s, Sync(ok))
    ensures DamageOk(After(s, Sync(ok)))
  {
    var t := After(s, Sync(ok));
    assert SameSide(s.files, t.files);
    EachGrows(s.files, t.files, s.answers);
  }

  lemma {:induction false} SwitchDamage(s: State)
    requires DamageOk(s) && Enabled(s, SwitchLog)
    ensures DamageOk(After(s, SwitchLog))
  {
    var t := After(s, SwitchLog);
    assert SameSide(s.files, t.files);
    EachGrows(s.files, t.files, s.answers);
    forall i | 0 <= i < |s.answers| ensures !ErroredIn(s.answers[i], |s.files|) {
      assert DamageOne(s.files, s.answers, i);
    }
  }

  /** A request answered without a group. */
  lemma {:induction false} SingleDamage(s: State, a: Answer)
    requires DamageOk(s) && a.file == |s.files| - 1 && !a.outcome.Errored? && a.place.None?
    ensures DamageOk(s.(answers := s.answers + [a], queue := s.queue[1..]))
    requires s.queue != []
  {
    EachMore(s.files, s.answers, [a]);
    TriedMore(s.answers, [a], |s.files| - 1);
    NotTried([a], |s.files| - 1);
  }

  lemma {:induction false} FinishEach(s: State)
    requires DamageOk(s) && Enabled(s, Finish) && WorkValid(s.work, s.queue, s.files, s.lastSequence)
    ensures DamageEach(s.files, FinishAnswers(s))
  {
    var more := AnswersOf(s.work.members, s.lastSequence + 1, Outcomes(s.work.phase), |s.files| - 1, s.work.place);
    EachMore(s.files, s.answers, more);
  }

  lemma {:induction false} FinishTried(s: State)
    requires Enabled(s, Finish) && s.work.members != []
    ensures Tried(FinishAnswers(s), |s.files| - 1) <==> Tried(s.answers, |s.files| - 1) || s.work.phase.Broken?
  {
    var f, outcome := |s.files| - 1, Outcomes(s.work.phase);
    var more := AnswersOf(s.work.members, s.lastSequence + 1, outcome, f, s.work.place);
    TriedMore(s.answers, more, f);
    if outcome.Errored? {
      assert ErroredIn(more[0], f);
    } else {
      NotTried(more, f);
    }
  }

  lemma {:induction false} FinishDamage(base: nat, s: State)
    requires Inv(base, s) && DamageOk(s) && Enabled(s, Finish)
    ensures DamageOk(After(s, Finish))
  {
    FinishEach(s);
    FinishTried(s);
    FinishNow(s.files, s.answers, FinishAnswers(s), s.work, s.failed);
  }

  lemma {:induction false} FinishNow(files: seq<LogFile>, answers: seq<Answer>, all: seq<Answer>, work: Work, failed: bool)
    requires work.Busy? && !work.phase.Logging? && DamageNow(files, answers, work, failed)
    requires Tried(all, |files| - 1) <==> Tried(answers, |files| - 1) || work.phase.Broken?
    ensures DamageNow(files, all, Idle, failed || work.phase == Broken(true))
  {
  }

  lemma {:induction false} StepDamage(base: nat, s: State, step: Step)
    requires Inv(base, s) && DamageOk(s) && Enabled(s, step)
    ensures DamageOk(After(s, step))
  {
    match step
    case Enqueue(request) =>
    case BackgroundError =>
    case SwitchLog => SwitchDamage(s);
    case Refuse => SingleDamage(s, Answer(s.queue[0], Refused, s.lastSequence + 1, |s.files| - 1, None));
    case Pass => SingleDamage(s, Answer(s.queue[0], Accepted, s.lastSequence + 1, |s.files| - 1, None));
    case Begin(n) =>
    case AppendRecord(ok, landed) => AppendDamage(s, ok, landed);
    case Sync(ok) => SyncDamage(s, ok);
    case InsertOne =>
    case Finish => FinishDamage(base, s);
  }

  lemma {:induction false} RunDamage(base: nat, s: State, steps: seq<Step>)
    requires Inv(base, s) && DamageOk(s) && Runs(s, steps)
    ensures DamageOk(Final(s, steps))
    decreases |steps|
  {
    if steps != [] {
      StepKeeps(base, s, steps[0]);
      StepDamage(base, s, steps[0]);
      RunDamage(base, After(s, steps[0]), steps[1..]);
    }
  }

  // ---------- crashes ----------

  /** The records of a file that every crash leaves readable. */
  function Firm(file: LogFile): nat {
    if file.damaged.Some? && file.damaged.value < file.synced then file.damaged.value else file.synced
  }

  /** Which records of each file a crash leaves: the synced ones before the first failed append, and of
      the others any. */
  ghost predicate Cut(files: seq<LogFile>, kept: seq<set<nat>>) {
    |kept| == |files| && forall f | 0 <= f < |files| :: forall i: nat | i < Firm(files[f]) :: i in kept[f]
  }

  predicate InRecord(record: Record, n: nat, op: Op) {
    record.first <= n < record.first + |AllOps(record.members)| && op == AllOps(record.members)[n - record.first]
  }

  /** Replaying what is left of the logs yields the entry. */
  ghost predicate Replayed(files: seq<LogFile>, kept: seq<set<nat>>, n: nat, op: Op)
    requires |kept| == |files|
  {
    exists p: Place :: PlaceIn(files, p) && p.index in kept[p.file] && InRecord(At(files, p), n, op)
  }

  predicate Survives(kept: seq<set<nat>>, a: Answer) {
    a.place.Some? && a.place.value.file < |kept| && a.place.value.index in kept[a.place.value.file]
  }

  /** A batch accepted with `sync` survives every crash exactly if no earlier request got an error while
      the same log file was in use. */
  lemma {:induction false} SyncedSurvives(base: nat, steps: seq<Step>, i: nat)
    requires Runs(Start(base), steps) && i < |Final(Start(base), steps).answers|
    requires var a := Final(Start(base), steps).answers[i]; a.outcome.Accepted? && a.request.batch.Some? && a.request.sync
    ensures var s := Final(Start(base), steps);
            (forall kept {:trigger Cut(s.files, kept)} :: Cut(s.files, kept) ==> Survives(kept, s.answers[i]))
            <==> !Tried(s.answers[..i], s.answers[i].file)
  {
    var s := Final(Start(base), steps);
    var a := s.answers[i];
    StartInv(base);
    RunKeeps(base, Start(base), steps);
    RunDamage(base, Start(base), steps);
    assert LoggedOne(s.files, a) && DamageOne(s.files, s.answers, i);
    if Tried(s.answers[..i], a.file) {
      FirmOnly(s.files, a);
    }
  }

  /** The crash that leaves only the firm records takes what lies behind a failed append. */
  lemma {:induction false} FirmOnly(files: seq<LogFile>, a: Answer)
    requires a.place.Some? && PlaceIn(files, a.place.value) && Behind(files, a.place.value)
    ensures exists kept :: Cut(files, kept) && !Survives(kept, a)
  {
    var kept := seq(|files|, f requires 0 <= f < |files| => Indices(Firm(files[f])));
    assert Cut(files, kept) && !Survives(kept, a);
  }

  function Indices(n: nat): (r: set<nat>)
    ensures forall i: nat :: i in r <==> i < n
  {
    if n == 0 then {} else Indices(n - 1) + {n - 1}
  }

  /** An accepted batch is in exactly one record of all the logs, at the numbers it took and nowhere
      else. */
  lemma {:induction false} LoggedExactlyOnce(base: nat, steps: seq<Step>, i: nat, p: Place, n: nat, op: Op)
    requires Runs(Start(base), steps) && i < |Final(Start(base), steps).answers|
    requires var s := Final(Start(base), steps);
             var a := s.answers[i];
             a.outcome.Accepted? && PlaceIn(s.files, p) && a.first <= n < a.first + |OpsOf(a.request)|
    ensures var s := Final(Start(base), steps);
            var a := s.answers[i];
            && a.place.Some? && PlaceIn(s.files, a.place.value)
            && (InRecord(At(s.files, p), n, op) <==> a.place == Some(p) && Owns(a, n, op))
  {
    var s := Final(Start(base), steps);
    var a := s.answers[i];
    StartInv(base);
    RunKeeps(base, Start(base), steps);
    assert LoggedOne(s.files, a);
    if a.place == Some(p) {
      if Owns(a, n, op) {
        OwnedIsHeld(At(s.files, p), a, n, op);
      }
      if InRecord(At(s.files, p), n, op) {
        HeldIsOwned(At(s.files, p), a, n, op);
      }
    } else {
      assert Apart(At(s.files, p), a);
    }
  }

  /** After a crash each answered request is replayed in full or not at all: a batch accepted with
      `sync` in a log file without an error before it in full, one that was refused not at all. */
  lemma {:induction false} CrashKeepsWhole(base: nat, steps: seq<Step>, kept: seq<set<nat>>, i: nat)
    requires Runs(Start(base), steps)
    requires Cut(Final(Start(base), steps).files, kept) && i < |Final(Start(base), steps).answers|
    ensures var s := Final(Start(base), steps);
            var a := s.answers[i];
            && (a.outcome.Accepted? && a.request.batch.Some? && a.request.sync && !Tried(s.answers[..i], a.file) ==> Survives(kept, a))
            && (a.outcome.Refused? ==> !Survives(kept, a))
            && (Survives(kept, a) ==> forall n: nat, op | Owns(a, n, op) :: Replayed(s.files, kept, n, op))
            && (!Survives(kept, a) && !a.outcome.Refused? ==>
                  forall n: nat, op | a.first <= n < a.first + |OpsOf(a.request)| :: !Replayed(s.files, kept, n, op))
  {
    var s := Final(Start(base), steps);
    var a := s.answers[i];
    StartInv(base);
    RunKeeps(base, Start(base), steps);
    assert LoggedOne(s.files, a);
    if a.outcome.Accepted? && a.request.batch.Some? && a.request.sync && !Tried(s.answers[..i], a.file) {
      SyncedSurvives(base, steps, i);
    }
    if Survives(kept, a) {
      forall n: nat, op | Owns(a, n, op) ensures Replayed(s.files, kept, n, op) {
        OwnedIsHeld(At(s.files, a.place.value), a, n, op);
      }
    }
    if !Survives(kept, a) && !a.outcome.Refused? {
      forall n: nat, op | a.first <= n < a.first + |OpsOf(a.request)| ensures !Replayed(s.files, kept, n, op) {
        forall p: Place | PlaceIn(s.files, p) && p.index in kept[p.file] ensures !InRecord(At(s.files, p), n, op) {
          assert Apart(At(s.files, p), a);
        }
      }
    }
  }

  lemma {:induction false} OwnedIsHeld(record: Record, a: Answer, n: nat, op: Op)
    requires Holds(record, a.request, a.first) && Owns(a, n, op)
    ensures InRecord(record, n, op)
  {
    var d := a.first - record.first;
    assert AllOps(record.members)[d..d + |OpsOf(a.request)|][n - a.first] == AllOps(record.members)[n - record.first];
  }

  lemma {:induction false} SomeoneOwns(base: nat, answers: seq<Answer>, last: nat, n: nat) returns (i: nat)
    requires Chained(base, answers, last) && base < n <= last
    ensures i < |answers| && answers[i].first <= n < answers[i].first + Width(answers[i])
    decreases |answers|
  {
    var m := |answers| - 1;
    if n >= answers[m].first {
      i := m;
    } else {
      i := SomeoneOwns(base, answers[..m], last - Width(answers[m]), n);
      assert answers[..m][i] == answers[i];
    }
  }

  /** Nothing is replayed that was not asked for: every entry is an operation of a request that was
      taken from the queue, or of the group at work. */
  lemma {:induction false} ReplaysOnlyRequests(base: nat, steps: seq<Step>, kept: seq<set<nat>>, n: nat, op: Op)
    requires Runs(Start(base), steps)
    requires Cut(Final(Start(base), steps).files, kept) && Replayed(Final(Start(base), steps).files, kept, n, op)
    ensures var s := Final(Start(base), steps);
            || (exists i {:trigger s.answers[i]} :: 0 <= i < |s.answers| && Survives(kept, s.answers[i]) && Owns(s.answers[i], n, op))
            || (s.work.Busy? && InRecord(Record(s.lastSequence + 1, s.work.members), n, op))
  {
    var s := Final(Start(base), steps);
    StartInv(base);
    RunKeeps(base, Start(base), steps);
    var p: Place :| PlaceIn(s.files, p) && p.index in kept[p.file] && InRecord(At(s.files, p), n, op);
    if Working(s.work) != Some(p) {
      var i := OwnerOf(base, s.files, s.answers, s.lastSequence, Working(s.work), p, n, op);
      assert Survives(kept, s.answers[i]) && Owns(s.answers[i], n, op);
    }
  }

  lemma {:induction false} OwnerOf(base: nat, files: seq<LogFile>, answers: seq<Answer>, last: nat, working: Option<Place>,
                    p: Place, n: nat, op: Op) returns (i: nat)
    requires Chained(base, answers, last) && Logged(files, answers) && Bounded(base, files, last, working)
    requires PlaceIn(files, p) && working != Some(p) && InRecord(At(files, p), n, op)
    ensures i < |answers| && answers[i].place == Some(p) && Owns(answers[i], n, op)
  {
    i := SomeoneOwns(base, answers, last, n);
    assert LoggedOne(files, answers[i]);
    assert !Apart(At(files, p), answers[i]);
    HeldIsOwned(At(files, p), answers[i], n, op);
  }

  lemma {:induction false} HeldIsOwned(record: Record, a: Answer, n: nat, op: Op)
    requires Holds(record, a.request, a.first) && a.first <= n < a.first + |OpsOf(a.request)| && InRecord(record, n, op)
    ensures Owns(a, n, op)
  {
    var d := a.first - record.first;
    assert AllOps(record.members)[d..d + |OpsOf(a.request)|][n - a.first] == AllOps(record.members)[n - record.first];
  }
}
