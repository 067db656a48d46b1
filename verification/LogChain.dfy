/** Which fragments of a file of any bytes make up the records that a reader of the log returns: the
    groups that are complete and lie where the reader comes by (db/log_reader.cc). */
module LogChain {
  import opened Dbformat
  import opened Coding
  import opened Log
  import opened LogBytes

  /** A file and how it is read. */
  datatype Source = Source(c: Checksum, file: Bytes, verify: bool)

  // ---------- the way of the reader ----------

  /** Where the reader goes on after the place `q`: behind an intact fragment; at the end of the block
      after one that is not, or that claims too much. The end of the file, or a fragment whose type code
      is the reader's own for it, is the end. */
  function GoesOn(s: Source, q: nat): Option<nat> {
    if Torn(s.file, q) then None
    else if Intact(s.c, s.file, s.verify, q) then
      if s.file[q + 6] == EOF_CODE then None else Some(q + HEADER + Length(s.file, q))
    else Some(DataEnd(s.file, q))
  }

  /** From `p` to `p'` in `n` fragments. */
  ghost predicate Goes(s: Source, p: nat, p': nat, n: nat)
    decreases n
  {
    if n == 0 then p == p'
    else GoesOn(s, NextStart(p)).Some? && Goes(s, GoesOn(s, NextStart(p)).value, p', n - 1)
  }

  ghost predicate Came(s: Source, p: nat, p': nat) {
    exists n: nat :: Goes(s, p, p', n)
  }

  /** A reader at `p` comes by the place `q`. */
  ghost predicate Passes(s: Source, p: nat, q: nat) {
    exists p': nat {:trigger Came(s, p, p')} :: Came(s, p, p') && q == NextStart(p')
  }

  lemma {:induction false} Starts(s: Source, p: nat)
    ensures Came(s, p, p) && Passes(s, p, NextStart(p))
  {
    var none: nat := 0;
    assert Goes(s, p, p, none);
  }

  lemma {:induction false} GoesFurther(s: Source, p: nat, p': nat, n: nat, p'': nat, m: nat)
    requires Goes(s, p, p', n) && Goes(s, p', p'', m)
    ensures Goes(s, p, p'', n + m)
    decreases n
  {
    if n > 0 {
      GoesFurther(s, GoesOn(s, NextStart(p)).value, p', n - 1, p'', m);
    }
  }

  lemma {:induction false} CameFurther(s: Source, p: nat, p': nat, p'': nat)
    requires Came(s, p, p') && Came(s, p', p'')
    ensures Came(s, p, p'')
  {
    var n: nat :| Goes(s, p, p', n);
    var m: nat :| Goes(s, p', p'', m);
    GoesFurther(s, p, p', n, p'', m);
  }

  lemma {:induction false} OneFurther(s: Source, p: nat, p': nat, p'': nat)
    requires Came(s, p, p') && GoesOn(s, NextStart(p')) == Some(p'')
    ensures Came(s, p, p'')
  {
    var one: nat := 1;
    assert Goes(s, p'', p'', one - 1);
    assert Goes(s, p', p'', one);
    CameFurther(s, p, p', p'');
  }

  lemma {:induction false} PassesFurther(s: Source, p: nat, p': nat, q: nat)
    requires Came(s, p, p') && Passes(s, p', q)
    ensures Passes(s, p, q)
  {
    var p'': nat :| Came(s, p', p'') && q == NextStart(p'');
    CameFurther(s, p, p', p'');
  }

  /** The next place, or one that the reader comes to from behind it. */
  lemma {:induction false} PassesNext(s: Source, p: nat, q: nat)
    requires Passes(s, p, q) && q != NextStart(p)
    ensures GoesOn(s, NextStart(p)).Some? && Passes(s, GoesOn(s, NextStart(p)).value, q)
  {
    var p': nat :| Came(s, p, p') && q == NextStart(p');
    var n: nat :| Goes(s, p, p', n);
    assert n > 0;
    var next := GoesOn(s, NextStart(p)).value;
    assert Goes(s, next, p', n - 1);
    assert Came(s, next, p');
  }

  /** What reading at a place tells is where the reader goes on. */
  lemma {:induction false} ToldGoesOn(s: Source, q: nat, r: Outcome, pos: int, reported: int)
    requires q % BLOCK + HEADER <= BLOCK && Told(s.c, s.file, s.verify, q, r, pos, reported)
    ensures GoesOn(s, q) == if r.Eof? then None else if pos >= 0 then Some(pos) else GoesOn(s, q)
    ensures !r.Eof? ==> pos >= 0 && GoesOn(s, q) == Some(pos)
  {
    RoomToEnd(q);
    assert Torn(s.file, q) || Overlong(s.file, q) || Inside(s.file, q);
  }

  // ---------- complete groups ----------

  /** All fragments of one record, from the first to the last. */
  ghost predicate Whole(s: Source, g: seq<Part>) {
    g != [] && Row(s.c, s.file, s.verify, g) && Typed(g, true)
  }

  /** A fragment that is there is read. */
  lemma {:induction false} Sees(s: Source, part: Part, r: Outcome, pos: int, reported: int)
    requires Found(s.c, s.file, s.verify, part.at, part.t, part.data) && part.t in {Full, First, Middle, Last}
    requires Told(s.c, s.file, s.verify, part.at, r, pos, reported)
    ensures r == Outcome.Record(part.t, part.data) && pos == End(part)
  {
  }

  /** What reading at `q` makes of the parts so far. */
  predicate Turned(r: Outcome, q: nat, fragmented: bool, parts: seq<Part>, done: bool, fragmented': bool, parts': seq<Part>) {
    match r
    case Eof => true
    case Bad => !done && !fragmented'
    case Record(t, data) =>
      match t
      case Full => done && parts' == [Part(q, t, data)]
      case First => !done && fragmented' && parts' == [Part(q, t, data)]
      case Middle => !done && fragmented' == fragmented && (fragmented ==> parts' == parts + [Part(q, t, data)])
      case Last => done == fragmented && (if fragmented then parts' == parts + [Part(q, t, data)] else !fragmented')
      case _ => !done && !fragmented'
  }

  /** The group is still to come, or what is put together at `p` is its beginning. */
  ghost predicate Awaits(s: Source, p: nat, fragmented: bool, parts: seq<Part>, g: seq<Part>)
    requires g != []
  {
    Passes(s, p, g[0].at) || (fragmented && |parts| < |g| && parts == g[..|parts|])
  }

  predicate PartsEnd(fragmented: bool, parts: seq<Part>, p: nat) {
    fragmented ==> parts != [] && End(parts[|parts| - 1]) == p
  }

  /** A group that starts at the next place. */
  lemma {:induction false} GroupStarts(s: Source, p: nat, fragmented: bool, parts: seq<Part>, r: Outcome, pos: int, reported: int, done: bool,
                                       fragmented': bool, parts': seq<Part>, g: seq<Part>)
    requires Whole(s, g) && g[0].at == NextStart(p)
    requires Told(s.c, s.file, s.verify, NextStart(p), r, pos, reported) && Turned(r, NextStart(p), fragmented, parts, done, fragmented', parts')
    ensures !r.Eof? && if done then g == parts' else fragmented' && |parts'| < |g| && parts' == g[..|parts'|]
  {
    assert g[0].t == FragmentType(true, |g| == 1);
    Sees(s, g[0], r, pos, reported);
    assert g[..1] == [g[0]];
    assert |g| == 1 ==> g == [g[0]];
  }

  /** A group whose beginning is put together goes on at the next place. */
  lemma {:induction false} GroupGoesOn(s: Source, p: nat, parts: seq<Part>, r: Outcome, pos: int, reported: int, done: bool,
                                       fragmented': bool, parts': seq<Part>, g: seq<Part>)
    requires Whole(s, g) && PartsEnd(true, parts, p) && |parts| < |g| && parts == g[..|parts|]
    requires Told(s.c, s.file, s.verify, NextStart(p), r, pos, reported) && Turned(r, NextStart(p), true, parts, done, fragmented', parts')
    ensures !r.Eof? && if done then g == parts' else fragmented' && |parts'| < |g| && parts' == g[..|parts'|]
  {
    var n := |parts|;
    NextOfGroup(s, p, parts, g);
    Sees(s, g[n], r, pos, reported);
  }

  lemma {:induction false} NextOfGroup(s: Source, p: nat, parts: seq<Part>, g: seq<Part>)
    requires Whole(s, g) && PartsEnd(true, parts, p) && |parts| < |g| && parts == g[..|parts|]
    ensures var n := |parts|;
            && g[n].at == NextStart(p) && g[n].t == FragmentType(false, n == |g| - 1)
            && Found(s.c, s.file, s.verify, g[n].at, g[n].t, g[n].data)
            && g[..n + 1] == parts + [Part(NextStart(p), g[n].t, g[n].data)] && (n + 1 == |g| ==> g[..n + 1] == g)
  {
    var n := |parts|;
    assert g[n - 1] == parts[n - 1];
    assert Adjoins(g, n);
  }

  /** One turn: every group that was awaited still is, or it is the one that is done. */
  lemma {:induction false} OneGroup(s: Source, p: nat, fragmented: bool, parts: seq<Part>, r: Outcome, pos: int, reported: int, done: bool,
                                    fragmented': bool, parts': seq<Part>, g: seq<Part>)
    requires Whole(s, g) && Awaits(s, p, fragmented, parts, g) && PartsEnd(fragmented, parts, p)
    requires Told(s.c, s.file, s.verify, NextStart(p), r, pos, reported) && Turned(r, NextStart(p), fragmented, parts, done, fragmented', parts')
    ensures !r.Eof? && pos >= 0 && if done then g == parts' || Passes(s, pos, g[0].at) else Awaits(s, pos, fragmented', parts', g)
  {
    NextStartFits(p);
    ToldGoesOn(s, NextStart(p), r, pos, reported);
    if g[0].at == NextStart(p) {
      GroupStarts(s, p, fragmented, parts, r, pos, reported, done, fragmented', parts', g);
    } else if Passes(s, p, g[0].at) {
      PassesNext(s, p, g[0].at);
    } else {
      GroupGoesOn(s, p, parts, r, pos, reported, done, fragmented', parts', g);
    }
  }

  // ---------- one record ----------

  /** Of the groups that a reader at `start` comes to, all are still awaited at `p`. */
  ghost predicate Pending(s: Source, start: nat, p: nat, fragmented: bool, parts: seq<Part>) {
    forall g: seq<Part> {:trigger Whole(s, g)} :: Whole(s, g) && Passes(s, start, g[0].at) ==> Awaits(s, p, fragmented, parts, g)
  }

  /** There are no such groups. */
  ghost predicate NoneLeft(s: Source, start: nat) {
    forall g: seq<Part> {:trigger Whole(s, g)} :: Whole(s, g) ==> !Passes(s, start, g[0].at)
  }

  /** The first of them is `parts`, and the others are still to come at `p`. */
  ghost predicate NextIs(s: Source, start: nat, p: nat, parts: seq<Part>) {
    && parts != [] && Passes(s, start, parts[0].at) && Came(s, start, p)
    && forall g: seq<Part> {:trigger Whole(s, g)} :: Whole(s, g) && Passes(s, start, g[0].at) ==> g == parts || Passes(s, p, g[0].at)
  }

  /** Where the reader is on its way from `start`, and that its parts are from there. */
  ghost predicate OnWay(s: Source, start: nat, p: nat, fragmented: bool, parts: seq<Part>) {
    && Came(s, start, p) && (fragmented ==> parts != [] && Passes(s, start, parts[0].at))
    && Pending(s, start, p, fragmented, parts)
  }

  lemma {:induction false} SetsOut(s: Source, start: nat)
    ensures OnWay(s, start, start, false, [])
  {
    Starts(s, start);
  }

  /** One turn of the reader. */
  lemma {:induction false} Turn(s: Source, start: nat, p: nat, fragmented: bool, parts: seq<Part>, r: Outcome, pos: int, reported: int,
                                done: bool, fragmented': bool, parts': seq<Part>)
    requires OnWay(s, start, p, fragmented, parts) && PartsEnd(fragmented, parts, p)
    requires Told(s.c, s.file, s.verify, NextStart(p), r, pos, reported) && Turned(r, NextStart(p), fragmented, parts, done, fragmented', parts')
    ensures r.Eof? ==> NoneLeft(s, start)
    ensures !r.Eof? ==> pos >= 0 && if done then NextIs(s, start, pos, parts') else OnWay(s, start, pos, fragmented', parts')
  {
    forall g: seq<Part> | Whole(s, g) && Passes(s, start, g[0].at)
      ensures !r.Eof? && pos >= 0 && if done then g == parts' || Passes(s, pos, g[0].at) else Awaits(s, pos, fragmented', parts', g)
    {
      OneGroup(s, p, fragmented, parts, r, pos, reported, done, fragmented', parts', g);
    }
    TurnGoes(s, start, p, fragmented, parts, r, pos, reported, done, fragmented', parts');
  }

  lemma {:induction false} TurnGoes(s: Source, start: nat, p: nat, fragmented: bool, parts: seq<Part>, r: Outcome, pos: int, reported: int,
                                    done: bool, fragmented': bool, parts': seq<Part>)
    requires Came(s, start, p) && (fragmented ==> parts != [] && Passes(s, start, parts[0].at))
    requires Told(s.c, s.file, s.verify, NextStart(p), r, pos, reported) && Turned(r, NextStart(p), fragmented, parts, done, fragmented', parts')
    ensures !r.Eof? ==> pos >= 0 && Came(s, start, pos)
    ensures !r.Eof? && (done || fragmented') ==> parts' != [] && Passes(s, start, parts'[0].at)
  {
    NextStartFits(p);
    ToldGoesOn(s, NextStart(p), r, pos, reported);
    if !r.Eof? {
      OneFurther(s, start, p, pos);
    }
    assert Passes(s, start, NextStart(p));
  }

  // ---------- all records ----------

  /** These are groups that a reader at the start of the file comes to, and those that are not among them
      are still to come at `p`. */
  ghost predicate GivenSoFar(s: Source, p: nat, from: seq<seq<Part>>) {
    && Came(s, 0, p) && (forall i | 0 <= i < |from| :: from[i] != [] && Passes(s, 0, from[i][0].at))
    && forall g: seq<Part> {:trigger Whole(s, g)} :: Whole(s, g) && Passes(s, 0, g[0].at) ==> g in from || Passes(s, p, g[0].at)
  }

  /** The groups are all those that a reader at the start of the file comes to. */
  ghost predicate AllGiven(s: Source, from: seq<seq<Part>>) {
    && (forall i | 0 <= i < |from| :: from[i] != [] && Passes(s, 0, from[i][0].at))
    && forall g: seq<Part> {:trigger Whole(s, g)} :: Whole(s, g) && Passes(s, 0, g[0].at) ==> g in from
  }

  lemma {:induction false} NoneGiven(s: Source)
    ensures GivenSoFar(s, 0, [])
  {
    Starts(s, 0);
  }

  lemma {:induction false} OneMoreGiven(s: Source, p: nat, from: seq<seq<Part>>, parts: seq<Part>, pos: nat)
    requires GivenSoFar(s, p, from) && NextIs(s, p, pos, parts)
    ensures GivenSoFar(s, pos, from + [parts])
  {
    var all := from + [parts];
    CameFurther(s, 0, p, pos);
    PassesFurther(s, 0, p, parts[0].at);
    forall g: seq<Part> | Whole(s, g) && Passes(s, 0, g[0].at) ensures g in all || Passes(s, pos, g[0].at) {
      if g in from || g == parts {
        assert all[|from|] == parts && (g in from ==> g in all);
      }
    }
  }

  lemma {:induction false} AllAreGiven(s: Source, p: nat, from: seq<seq<Part>>)
    requires GivenSoFar(s, p, from) && NoneLeft(s, p)
    ensures AllGiven(s, from)
  {
  }

  // ---------- reports ----------

  /** A place at which bytes are dropped that may have been part of a record. */
  predicate Lossy(s: Source, q: nat) {
    Overlong(s.file, q) || (s.verify && Damaged(s.c, s.file, q))
  }

  /** How many of `n` fragments from `p` on are such places. */
  ghost function Losses(s: Source, p: nat, n: nat): nat
    decreases n
  {
    var q := NextStart(p);
    if n == 0 || GoesOn(s, q).None? then 0
    else (if Lossy(s, q) then 1 else 0) + Losses(s, GoesOn(s, q).value, n - 1)
  }

  /** On the way from `p` to `p'` there are no more losses than `k`. */
  ghost predicate Reported(s: Source, p: nat, p': nat, k: int) {
    exists n: nat :: Goes(s, p, p', n) && Losses(s, p, n) <= k
  }

  ghost predicate ReportedToEnd(s: Source, p: nat, k: int) {
    exists p': nat {:trigger Reported(s, p, p', k)} :: Reported(s, p, p', k) && GoesOn(s, NextStart(p')).None?
  }

  lemma {:induction false} LossesAdd(s: Source, p: nat, p': nat, n: nat, m: nat)
    requires Goes(s, p, p', n)
    ensures Losses(s, p, n + m) == Losses(s, p, n) + Losses(s, p', m)
    decreases n
  {
    if n > 0 {
      LossesAdd(s, GoesOn(s, NextStart(p)).value, p', n - 1, m);
    }
  }

  lemma {:induction false} ReportedNone(s: Source, p: nat)
    ensures Reported(s, p, p, 0)
  {
    var none: nat := 0;
    assert Goes(s, p, p, none) && Losses(s, p, none) == 0;
  }

  lemma {:induction false} ReportedFurther(s: Source, p: nat, p': nat, p'': nat, k: int, j: int)
    requires Reported(s, p, p', k) && Reported(s, p', p'', j)
    ensures Reported(s, p, p'', k + j)
  {
    var n: nat :| Goes(s, p, p', n) && Losses(s, p, n) <= k;
    var m: nat :| Goes(s, p', p'', m) && Losses(s, p', m) <= j;
    GoesFurther(s, p, p', n, p'', m);
    LossesAdd(s, p, p', n, m);
  }

  lemma {:induction false} ReportedOn(s: Source, p: nat, p': nat, k: int, more: bool, p'': int, j: int)
    requires Reported(s, p, p', k) && if more then p'' >= 0 && Reported(s, p', p'', j) else ReportedToEnd(s, p', j)
    ensures if more then Reported(s, p, p'', k + j) else ReportedToEnd(s, p, k + j)
  {
    if more {
      ReportedFurther(s, p, p', p'', k, j);
    } else {
      var end: nat :| Reported(s, p', end, j) && GoesOn(s, NextStart(end)).None?;
      ReportedFurther(s, p, p', end, k, j);
    }
  }

  lemma {:induction false} LossIsTold(s: Source, q: nat, r: Outcome, pos: int, told: int)
    requires q % BLOCK + HEADER <= BLOCK && Told(s.c, s.file, s.verify, q, r, pos, told)
    ensures told >= if Lossy(s, q) then 1 else 0
  {
    RoomToEnd(q);
    assert Torn(s.file, q) || Overlong(s.file, q) || Inside(s.file, q);
  }

  /** One turn of the reader: a loss is reported. */
  lemma {:induction false} TurnReports(s: Source, start: nat, p: nat, k: int, r: Outcome, pos: int, told: int, j: int)
    requires Reported(s, start, p, k) && Told(s.c, s.file, s.verify, NextStart(p), r, pos, told) && j >= k + told
    ensures r.Eof? ==> ReportedToEnd(s, start, j)
    ensures !r.Eof? ==> pos >= 0 && Reported(s, start, pos, j)
  {
    NextStartFits(p);
    ToldGoesOn(s, NextStart(p), r, pos, told);
    LossIsTold(s, NextStart(p), r, pos, told);
    if r.Eof? {
      var n: nat :| Goes(s, start, p, n) && Losses(s, start, n) <= k;
      assert Reported(s, start, p, j);
    } else {
      var one: nat := 1;
      var none := one - 1;
      assert Goes(s, pos, pos, none) && Losses(s, pos, none) == 0;
      assert Goes(s, p, pos, one) && Losses(s, p, one) <= j - k;
      ReportedFurther(s, start, p, pos, k, j - k);
    }
  }

  /** What reading one record from `p` gives: the next group, up to `pos`, or none if there is none; and
      one report at least for each loss, so that there are `now` where there had been `was`. */
  ghost predicate ReadsNext(s: Source, p: nat, more: bool, parts: seq<Part>, pos: int, was: int, now: int) {
    if more then pos >= 0 && NextIs(s, p, pos, parts) && Reported(s, p, pos, now - was)
    else NoneLeft(s, p) && ReportedToEnd(s, p, now - was)
  }

  /** One turn of a reader that has reported `before` - `was` things since it set out. */
  lemma {:induction false} TurnReads(s: Source, start: nat, p: nat, fragmented: bool, parts: seq<Part>, r: Outcome, pos: int, told: int,
                                     done: bool, fragmented': bool, parts': seq<Part>, was: int, before: int, now: int)
    requires OnWay(s, start, p, fragmented, parts) && PartsEnd(fragmented, parts, p) && Reported(s, start, p, before - was)
    requires Told(s.c, s.file, s.verify, NextStart(p), r, pos, told) && Turned(r, NextStart(p), fragmented, parts, done, fragmented', parts')
    requires now >= before + told
    ensures r.Eof? ==> ReadsNext(s, start, false, parts', pos, was, now)
    ensures !r.Eof? && done ==> ReadsNext(s, start, true, parts', pos, was, now)
    ensures !r.Eof? && !done ==> pos >= 0 && OnWay(s, start, pos, fragmented', parts') && Reported(s, start, pos, now - was)
  {
    Turn(s, start, p, fragmented, parts, r, pos, told, done, fragmented', parts');
    TurnReports(s, start, p, before - was, r, pos, told, now - was);
  }

  /** What reading from the start of the file has given: all groups up to `p`, or all there are. */
  ghost predicate ReadSoFar(s: Source, more: bool, p: int, from: seq<seq<Part>>, k: int) {
    if more then p >= 0 && GivenSoFar(s, p, from) && Reported(s, 0, p, k) else AllGiven(s, from) && ReportedToEnd(s, 0, k)
  }

  lemma {:induction false} ReadNone(s: Source)
    ensures ReadSoFar(s, true, 0, [], 0)
  {
    NoneGiven(s);
    ReportedNone(s, 0);
  }

  lemma {:induction false} ReadOneMore(s: Source, p: nat, from: seq<seq<Part>>, k: int, more: bool, parts: seq<Part>, pos: int, now: int)
    requires ReadSoFar(s, true, p, from, k) && ReadsNext(s, p, more, parts, pos, k, now)
    ensures ReadSoFar(s, more, pos, if more then from + [parts] else from, now)
  {
    ReportedOn(s, 0, p, k, more, pos, now - k);
    if more {
      OneMoreGiven(s, p, from, parts, pos);
    } else {
      AllAreGiven(s, p, from);
    }
  }

  // ---------- one answer ----------

  lemma {:induction false} RowAscends(s: Source, parts: seq<Part>, n: nat)
    requires Row(s.c, s.file, s.verify, parts) && n < |parts|
    ensures parts[0].at < End(parts[n])
    decreases n
  {
    if n > 0 {
      RowAscends(s, parts, n - 1);
      assert Adjoins(parts, n);
      NextStartFits(End(parts[n - 1]));
    }
  }

  lemma {:induction false} FromAscends(s: Source, from: seq<seq<Part>>, records: seq<Bytes>, i: nat, j: nat)
    requires AllAssembled(s.c, s.file, s.verify, from, records) && i < j < |from|
    ensures from[i] != [] && from[j] != [] && from[i][0].at < from[j][0].at
  {
    assert Assembled(s.c, s.file, s.verify, from[i], true, records[i]) && Later(from[i], from[j]);
    RowAscends(s, from[i], |from[i]| - 1);
  }

  /** Any bytes leave one list of records to be read. */
  lemma {:induction false} ReadingIsDetermined(s: Source, a: seq<seq<Part>>, as': seq<Bytes>, b: seq<seq<Part>>, bs: seq<Bytes>)
    requires AllGiven(s, a) && AllAssembled(s.c, s.file, s.verify, a, as')
    requires AllGiven(s, b) && AllAssembled(s.c, s.file, s.verify, b, bs)
    ensures a == b && as' == bs
  {
    SameGroups(s, a, as', b, bs, |a|);
    SameGroups(s, b, bs, a, as', |b|);
    assert a[..|a|] == a && b[..|b|] == b;
    forall i | 0 <= i < |a| ensures as'[i] == bs[i] {
      assert Assembled(s.c, s.file, s.verify, a[i], true, as'[i]) && Assembled(s.c, s.file, s.verify, b[i], true, bs[i]);
    }
  }

  lemma {:induction false} SameGroups(s: Source, a: seq<seq<Part>>, as': seq<Bytes>, b: seq<seq<Part>>, bs: seq<Bytes>, n: nat)
    requires AllGiven(s, a) && AllAssembled(s.c, s.file, s.verify, a, as')
    requires AllGiven(s, b) && AllAssembled(s.c, s.file, s.verify, b, bs) && n <= |a|
    ensures n <= |b| && a[..n] == b[..n]
    decreases n
  {
    if n > 0 {
      var m := n - 1;
      SameGroups(s, a, as', b, bs, m);
      var j := FindsGroup(s, a, as', b, bs, m);
      assert m < |b|;
      var i := FindsGroup(s, b, bs, a, as', m);
      if j > m {
        FromAscends(s, b, bs, m, j);
      }
      if i > m {
        FromAscends(s, a, as', m, i);
      }
      assert j == m;
      assert a[..n] == a[..m] + [a[m]] && b[..n] == b[..m] + [b[m]];
    }
  }

  /** The group after those that agree is in the other list, not before it. */
  lemma {:induction false} FindsGroup(s: Source, a: seq<seq<Part>>, as': seq<Bytes>, b: seq<seq<Part>>, bs: seq<Bytes>, m: nat)
    returns (j: nat)
    requires AllGiven(s, a) && AllAssembled(s.c, s.file, s.verify, a, as')
    requires AllGiven(s, b) && AllAssembled(s.c, s.file, s.verify, b, bs) && m < |a| && m <= |b| && a[..m] == b[..m]
    ensures m <= j < |b| && b[j] == a[m] && a[m] != []
  {
    assert Assembled(s.c, s.file, s.verify, a[m], true, as'[m]);
    assert Whole(s, a[m]);
    j :| 0 <= j < |b| && b[j] == a[m];
    if j < m {
      assert a[..m][j] == b[..m][j];
      FromAscends(s, a, as', j, m);
    }
  }

  // ---------- damage ----------

  /** The reader comes to no end but that of the file. */
  ghost predicate EndsWithFile(s: Source) {
    forall q: nat {:trigger GoesOn(s, q)} :: Passes(s, 0, q) && GoesOn(s, q).None? ==> Torn(s.file, q)
  }

  /** However damaged what comes before is, the reader comes to the start of every block. */
  lemma {:induction false} EveryBlock(s: Source, b: nat, p: nat)
    requires EndsWithFile(s) && b % BLOCK == 0 && b <= |s.file| && Came(s, 0, p) && p <= b
    ensures Passes(s, 0, b)
    decreases b - p
  {
    var q := NextStart(p);
    NextStartFits(p);
    assert Passes(s, 0, q);
    if q < b {
      BlockBefore(q, b);
      assert !Torn(s.file, q);
      var next := GoesOn(s, q).value;
      RoomToEnd(q);
      OneFurther(s, 0, p, next);
      EveryBlock(s, b, next);
    } else {
      StartOfBlock(p, b);
    }
  }

  lemma {:induction false} BlockBefore(q: nat, b: nat)
    requires q < b && b % BLOCK == 0
    ensures BlockEnd(q) <= b
  {
  }

  lemma {:induction false} StartOfBlock(p: nat, b: nat)
    requires p <= b <= NextStart(p) && b % BLOCK == 0
    ensures NextStart(p) == b
  {
  }

  /** So damage costs no more than its block: a record that starts with a block is returned. */
  lemma {:induction false} LaterBlocksSurvive(s: Source, from: seq<seq<Part>>, g: seq<Part>)
    requires AllGiven(s, from) && EndsWithFile(s) && Whole(s, g) && g[0].at % BLOCK == 0
    ensures g in from
  {
    Starts(s, 0);
    EveryBlock(s, g[0].at, 0);
  }
}
