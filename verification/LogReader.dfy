/** Reading the record log, whole or torn at any byte (db/log_reader.cc). */
module LogReader {
  import opened Dbformat
  import opened Coding
  import opened Log
  import opened LogBytes
  import opened LogChain
  import Crc32c

  // ---------- what lies ahead ----------

  /** The file from `p` on begins with `w`, or, when not whole, ends inside it. */
  ghost predicate Ahead(file: Bytes, p: nat, w: Bytes, whole: bool) {
    if whole then p + |w| <= |file| && file[p..p + |w|] == w
    else p <= |file| < p + |w| && file[p..] == w[..|file| - p]
  }

  /** The physical record at `q` is there, or, when not whole, the file ends inside it or before it. */
  ghost predicate AheadPhysical(c: Checksum, file: Bytes, q: nat, t: RecordType, payload: Bytes, whole: bool) {
    && |payload| <= Room(q) && t !in {Zero} && !t.Other?
    && var x := Physical(c, t, payload);
       if whole then q + |x| <= |file| && file[q..q + |x|] == x
       else |file| < q + |x| && (q <= |file| ==> file[q..] == x[..|file| - q])
  }

  /** The parts of a record that has been begun end at `p`. */
  ghost predicate Begun(c: Checksum, file: Bytes, verify: bool, parts: seq<Part>, fragmented: bool, scratch: Bytes, start: int, p: int) {
    fragmented ==> Assembled(c, file, verify, parts, false, scratch) && start <= parts[0].at && End(parts[|parts| - 1]) == p
  }

  /** The record is made of parts of the file from `start` to `p`. */
  ghost predicate MadeOf(c: Checksum, file: Bytes, verify: bool, parts: seq<Part>, record: Bytes, start: int, p: int) {
    Assembled(c, file, verify, parts, true, record) && start <= parts[0].at && End(parts[|parts| - 1]) == p
  }

  lemma {:induction false} PieceAhead(c: Checksum, file: Bytes, p: nat, data: Bytes, begin: bool, rest: Bytes, whole: bool)
    requires Ahead(file, p, Piece(c, p, data, begin) + rest, whole)
    ensures var n, piece := Taken(p, data), Piece(c, p, data, begin);
            var here := p + |piece| <= |file|;
            && AheadPhysical(c, file, NextStart(p), FragmentType(begin, |data| == n), data[..n], here)
            && (whole ==> here) && (here ==> Ahead(file, p + |piece|, rest, whole))
  {
    NextStartFits(p);
    var pad := Zeros(NextStart(p) - p);
    var x := Physical(c, FragmentType(begin, |data| == Taken(p, data)), data[..Taken(p, data)]);
    assert Piece(c, p, data, begin) == pad + x;
    if p + |pad| + |x| <= |file| {
      SplitHere(file, p, pad, x, rest, whole);
    } else {
      SplitTorn(file, p, pad, x, rest);
    }
  }

  lemma {:induction false} AheadAt(file: Bytes, p: nat, w: Bytes, whole: bool)
    requires Ahead(file, p, w, whole)
    ensures forall i | 0 <= i < |w| && p + i < |file| :: file[p + i] == w[i]
  {
    forall i | 0 <= i < |w| && p + i < |file| ensures file[p + i] == w[i] {
      if whole {
        assert file[p..p + |w|][i] == w[i];
      } else {
        assert file[p..][i] == w[..|file| - p][i];
      }
    }
  }

  lemma {:induction false} SplitHere(file: Bytes, p: nat, pad: Bytes, x: Bytes, rest: Bytes, whole: bool)
    requires Ahead(file, p, pad + x + rest, whole) && p + |pad| + |x| <= |file|
    ensures file[p + |pad|..p + |pad| + |x|] == x && Ahead(file, p + |pad| + |x|, rest, whole)
  {
    var w, q := pad + x + rest, p + |pad|;
    AheadAt(file, p, w, whole);
    assert file[q..q + |x|] == x by {
      assert forall i | 0 <= i < |x| :: file[p + (|pad| + i)] == w[|pad| + i] == x[i];
    }
    RestAhead(file, p, pad + x, rest, whole);
  }

  lemma {:induction false} RestAhead(file: Bytes, p: nat, head: Bytes, rest: Bytes, whole: bool)
    requires Ahead(file, p, head + rest, whole) && p + |head| <= |file|
    ensures Ahead(file, p + |head|, rest, whole)
  {
    var w := head + rest;
    AheadAt(file, p, w, whole);
    forall i | 0 <= i < |rest| && p + |head| + i < |file| ensures file[p + |head| + i] == rest[i] {
      assert file[p + (|head| + i)] == w[|head| + i];
    }
  }

  lemma {:induction false} SplitTorn(file: Bytes, p: nat, pad: Bytes, x: Bytes, rest: Bytes)
    requires Ahead(file, p, pad + x + rest, false) && |file| < p + |pad| + |x|
    ensures p + |pad| <= |file| ==> file[p + |pad|..] == x[..|file| - p - |pad|]
  {
    var w := pad + x + rest;
    AheadAt(file, p, w, false);
    forall i | 0 <= i < |x| && p + |pad| + i < |file| ensures file[p + |pad| + i] == x[i] {
      assert file[p + (|pad| + i)] == w[|pad| + i];
    }
  }

  /** The parts of a physical record. */
  lemma {:induction false} HeaderIs(c: Checksum, t: RecordType, payload: Bytes)
    requires c.Sound() && |payload| < 65536
    ensures var x := Physical(c, t, payload);
            && x[4] as nat + 256 * x[5] as nat == |payload| && x[6] == Code(t) && x[7..] == payload
            && c.unmask(DecodeFixed(x[..4])) == c.extend(0, x[6..])
  {
    var x, crc := Physical(c, t, payload), c.extend(c.extend(0, [Code(t)]), payload);
    assert x[..4] == Fixed(c.mask(crc), 4);
    assert x[6..] == [Code(t)] + payload;
    assert c.extend(0, [Code(t)]) < TWO32;
    assert Pow256(4) == TWO32 by { assert Pow256(2) == 65536; }
    FixedRoundTrip(c.mask(crc), 4);
  }

  // ---------- the reader ----------

  class Reader {
    const file: Bytes
    const checksum: Checksum
    const verify: bool
    var filePos: nat
    var buffer: Bytes
    var eof: bool
    var reports: nat /* corruptions reported */

    /** The next byte of the file to be parsed. */
    function Pos(): int
      reads this
    {
      filePos - |buffer|
    }

    /** The buffer is the unparsed rest of one block, read as far as the file goes. */
    ghost predicate Valid()
      reads this
    {
      && checksum.Sound() && filePos <= |file| && |buffer| <= filePos
      && buffer == file[filePos - |buffer|..filePos]
      && (eof ==> filePos == |file| && Pos() % BLOCK + |buffer| < BLOCK)
      && (!eof ==> filePos % BLOCK == 0 && |buffer| <= BLOCK)
    }

    constructor (file: Bytes, checksum: Checksum, verify: bool)
      requires checksum.Sound()
      ensures Valid() && buffer == [] && Pos() == 0 && reports == 0
      ensures this.file == file && this.checksum == checksum && this.verify == verify
    {
      this.file, this.checksum, this.verify := file, checksum, verify;
      filePos, buffer, eof, reports := 0, [], false, 0;
    }

    method ReadBlock()
      requires Valid() && !eof && |buffer| < HEADER
      modifies this`filePos, this`buffer, this`eof
      ensures Valid() && Pos() == old(filePos)
      ensures |buffer| == (if |file| - old(filePos) < BLOCK then |file| - old(filePos) else BLOCK) && (eof <==> |buffer| < BLOCK)
    {
      var n := if |file| - filePos < BLOCK then |file| - filePos else BLOCK;
      buffer := file[filePos..filePos + n];
      filePos := filePos + n;
      if n < BLOCK {
        eof := true;
      }
    }

    /** Read on until there is a header in the buffer; the end of a block may be too short for one. */
    method Fill() returns (ok: bool)
      requires Valid() && |buffer| < BLOCK
      modifies this`filePos, this`buffer, this`eof
      ensures Valid() && old(Pos()) <= Pos()
      ensures ok ==> Pos() == NextStart(old(Pos())) && |buffer| >= HEADER
      ensures !ok ==> |file| < NextStart(old(Pos())) + HEADER
    {
      NextStartFits(Pos());
      while |buffer| < HEADER
        invariant Valid() && old(Pos()) <= Pos() && (eof || |buffer| < HEADER || Pos() == NextStart(old(Pos())))
        invariant |buffer| >= HEADER ==> Pos() == NextStart(old(Pos()))
        invariant |buffer| < HEADER && eof ==> |file| < NextStart(old(Pos())) + HEADER
        invariant |buffer| < HEADER && !eof ==> filePos == NextStart(old(Pos()))
        decreases |buffer| < HEADER, !eof
      {
        if eof {
          buffer := [];
          return false;
        }
        ReadBlock();
      }
      return true;
    }

    method Drop()
      requires Valid()
      modifies this`buffer
      ensures Valid() && buffer == [] && Pos() == filePos
    {
      buffer := [];
    }

    /** ReadPhysicalRecord. */
    method ReadPhysicalRecord() returns (r: Outcome)
      requires Valid() && |buffer| < BLOCK
      modifies this
      ensures Valid() && (!r.Eof? ==> |buffer| < BLOCK && Pos() >= old(Pos()) + HEADER)
      ensures Told(checksum, file, verify, NextStart(old(Pos())), r, Pos(), reports - old(reports))
    {
      NextStartFits(Pos());
      var ok := Fill();
      if !ok {
        return Eof;
      }
      r := ParsePhysical();
    }

    method ParseHeader() returns (length: nat, code: Byte)
      requires Valid() && |buffer| >= HEADER
      ensures HasHeader(file, Pos()) && length == Length(file, Pos()) && code == file[Pos() + 6] && filePos == DataEnd(file, Pos())
    {
      BufferEnd(file, Pos(), filePos, eof);
      assert buffer[4] == file[Pos() + 4] && buffer[5] == file[Pos() + 5] && buffer[6] == file[Pos() + 6];
      length, code := buffer[4] as nat + 256 * buffer[5] as nat, buffer[6];
    }

    /** The header and the fragment at the head of the buffer. */
    method ParsePhysical() returns (r: Outcome)
      requires Valid() && |buffer| >= HEADER
      modifies this
      ensures Valid() && (!r.Eof? ==> |buffer| < BLOCK && Pos() >= old(Pos()) + HEADER)
      ensures Told(checksum, file, verify, old(Pos()), r, Pos(), reports - old(reports))
    {
      var length, code := ParseHeader();
      if HEADER + length > |buffer| {
        r := DropTooLong();
        return;
      }
      r := CheckFragment(length, code);
      ToldChecked(checksum, file, verify, old(Pos()), filePos, r, Pos(), reports - old(reports));
    }

    /** What a header that claims more than the buffer has is taken for: in the last block the end of the
        file, elsewhere damage. */
    method DropTooLong() returns (r: Outcome)
      requires Valid() && |buffer| >= HEADER && filePos < Pos() + HEADER + Length(file, Pos())
      modifies this`buffer, this`reports
      ensures Valid() && (!r.Eof? ==> |buffer| < BLOCK && Pos() >= old(Pos()) + HEADER)
      ensures Told(checksum, file, verify, old(Pos()), r, Pos(), reports - old(reports))
    {
      ghost var q := Pos();
      BufferEnd(file, q, filePos, eof);
      Drop();
      r := Eof;
      if !eof {
        reports := reports + 1;
        r := Bad;
      }
      ToldTooLong(checksum, file, verify, q, filePos, r, Pos(), reports - old(reports));
    }

    /** The fragment in the buffer, unless it is filler or its checksum is wrong. */
    method CheckFragment(length: nat, code: Byte) returns (r: Outcome)
      requires Valid() && HEADER + length <= |buffer|
      modifies this`buffer, this`reports
      ensures Valid() && (!r.Eof? ==> |buffer| < BLOCK && Pos() >= old(Pos()) + HEADER)
      ensures Checked(checksum, file, verify, old(Pos()), filePos, length, code, r, Pos(), reports - old(reports))
    {
      if code == 0 && length == 0 {
        Drop();
        return Bad;
      }
      var good := CrcMatches(length);
      if verify && !good {
        Drop();
        reports := reports + 1;
        return Bad;
      }
      var fragment := Take(length);
      r := Returned(code, fragment);
    }

    method CrcMatches(length: nat) returns (ok: bool)
      requires Valid() && HEADER + length <= |buffer|
      ensures ok <==> CrcHolds(checksum, file, Pos(), length)
    {
      Window(file, Pos(), filePos, 0, 4);
      Window(file, Pos(), filePos, 6, HEADER + length);
      ok := checksum.unmask(DecodeFixed(buffer[..4])) == checksum.extend(0, buffer[6..HEADER + length]);
    }

    /** The fragment behind the header; the buffer moves on past it. */
    method Take(length: nat) returns (fragment: Bytes)
      requires Valid() && HEADER + length <= |buffer|
      modifies this`buffer
      ensures Valid() && |buffer| < BLOCK && Pos() == old(Pos()) + HEADER + length
      ensures fragment == file[old(Pos()) + HEADER..old(Pos()) + HEADER + length]
    {
      Window(file, Pos(), filePos, HEADER, HEADER + length);
      Window(file, Pos(), filePos, HEADER + length, |buffer|);
      fragment := buffer[HEADER..HEADER + length];
      buffer := buffer[HEADER + length..];
    }

    /** The next physical record, when the rest of the record being read is known to lie ahead. */
    method ReadExpected(ghost known: Option<bool>, ghost left: Bytes, ghost begin: bool, ghost coming: Bytes)
      returns (r: Outcome, ghost rest: Bytes)
      requires Valid() && |buffer| < BLOCK
      requires known.Some? ==> Expected(checksum, file, Pos(), left, begin, coming, known.value)
      modifies this
      ensures Valid() && (!r.Eof? ==> |buffer| < BLOCK && Pos() >= old(Pos()) + HEADER)
      ensures Told(checksum, file, verify, NextStart(old(Pos())), r, Pos(), reports - old(reports))
      ensures AsExpected(checksum, file, old(Pos()), Pos(), known, left, begin, coming, rest, r, reports - old(reports))
    {
      ghost var p, n := Pos(), Taken(Pos(), left);
      rest := [];
      if known.Some? {
        rest := ExpectedPiece(checksum, file, p, left, begin, coming, known.value);
      }
      r := ReadPhysicalRecord();
      if known.Some? {
        ToldAhead(checksum, file, verify, NextStart(p), FragmentType(begin, n == |left|), left[..n], r, Pos(), reports - old(reports));
        Concluded(checksum, file, p, left, begin, coming, rest, known.value, r, Pos(), reports == old(reports));
      }
    }

    /** A fragment where it does not belong, or nothing where the record should go on. */
    static predicate Misplaced(r: Outcome, scratch: Bytes, fragmented: bool)
      requires !r.Eof?
    {
      match r
      case Bad => fragmented
      case Record(t, _) =>
        match t
        case Full => fragmented && scratch != []
        case First => fragmented && scratch != []
        case Middle => !fragmented
        case Last => !fragmented
        case _ => true
    }

    /** The switch of ReadRecord: what one physical record does to the record being put together. */
    method Assemble(r: Outcome, scratch: Bytes, fragmented: bool) returns (done: bool, record: Bytes, scratch': Bytes, fragmented': bool)
      requires !r.Eof?
      modifies this`reports
      ensures reports == old(reports) + if Misplaced(r, scratch, fragmented) then 1 else 0
      ensures Switched(r, scratch, fragmented, done, record, scratch', fragmented')
    {
      done, record, scratch', fragmented' := false, [], scratch, fragmented;
      match r {
        case Bad =>
          if fragmented {
            reports, fragmented', scratch' := reports + 1, false, [];
          }
        case Record(t, fragment) =>
          match t {
            case Full =>
              if fragmented && scratch != [] {
                reports := reports + 1;
              }
              done, record := true, fragment;
            case First =>
              if fragmented && scratch != [] {
                reports := reports + 1;
              }
              scratch', fragmented' := fragment, true;
            case Middle =>
              if !fragmented {
                reports := reports + 1;
              } else {
                scratch' := scratch + fragment;
              }
            case Last =>
              if !fragmented {
                reports := reports + 1;
              } else {
                done, record := true, scratch + fragment;
              }
            case _ =>
              reports, fragmented', scratch' := reports + 1, false, [];
          }
      }
    }

    /** One turn of ReadRecord: the next physical record, and what it does. */
    method ReadFragment(scratch: Bytes, fragmented: bool, ghost known: Option<bool>, ghost data0: Bytes, ghost left: Bytes,
                        ghost coming: Bytes, ghost parts: seq<Part>, ghost start: nat)
      returns (eof': bool, done: bool, record: Bytes, scratch': Bytes, fragmented': bool, ghost left': Bytes, ghost coming': Bytes,
               ghost parts': seq<Part>, ghost r: Outcome, ghost told: int)
      requires Valid() && |buffer| < BLOCK && Under(checksum, file, Pos(), known, data0, scratch, fragmented, left, coming)
      requires start <= Pos() && Begun(checksum, file, verify, parts, fragmented, scratch, start, Pos())
      modifies this
      ensures Valid() && (!eof' ==> |buffer| < BLOCK && Pos() > old(Pos()))
      ensures eof' == r.Eof? && Turned(r, NextStart(old(Pos())), fragmented, parts, done, fragmented', parts')
      ensures Told(checksum, file, verify, NextStart(old(Pos())), r, Pos(), told) && PartsEnd(fragmented, parts, old(Pos()))
      ensures reports == old(reports) + told + if !eof' && Misplaced(r, scratch, fragmented) then 1 else 0
      ensures !eof' && done ==> MadeOf(checksum, file, verify, parts', record, start, Pos())
      ensures !eof' && !done ==> Begun(checksum, file, verify, parts', fragmented', scratch', start, Pos())
      ensures !eof' && !done ==> Under(checksum, file, Pos(), known, data0, scratch', fragmented', left', coming')
      ensures known.Some? ==> KnownAfter(old(Pos()), Pos(), known.value, data0, coming, eof', done, record, coming', reports - old(reports))
    {
      ghost var n, p, was := Taken(Pos(), left), Pos(), reports;
      left', coming', parts' := left, coming, parts;
      eof', done, record, scratch', fragmented', r, coming', told := TakeFragment(scratch, fragmented, known, left, coming);
      if !eof' {
        parts' := Joins(checksum, file, verify, r, p, Pos(), start, scratch, fragmented, parts, done, record, scratch', fragmented', told);
        KnownOn(checksum, file, p, Pos(), known, data0, left, coming, coming', r, scratch, fragmented, done, record, scratch', fragmented',
                told);
        left' := left[n..];
      }
    }

    /** The next physical record is read and switched on. */
    method TakeFragment(scratch: Bytes, fragmented: bool, ghost known: Option<bool>, ghost left: Bytes, ghost coming: Bytes)
      returns (eof': bool, done: bool, record: Bytes, scratch': Bytes, fragmented': bool, ghost r: Outcome, ghost rest: Bytes, ghost told: int)
      requires Valid() && |buffer| < BLOCK
      requires known.Some? ==> Expected(checksum, file, Pos(), left, !fragmented, coming, known.value)
      modifies this
      ensures Valid() && (!eof' ==> |buffer| < BLOCK && Pos() > old(Pos()))
      ensures eof' == r.Eof? && (!eof' ==> Switched(r, scratch, fragmented, done, record, scratch', fragmented'))
      ensures Told(checksum, file, verify, NextStart(old(Pos())), r, Pos(), told)
      ensures reports == old(reports) + told + if !eof' && Misplaced(r, scratch, fragmented) then 1 else 0
      ensures AsExpected(checksum, file, old(Pos()), Pos(), known, left, !fragmented, coming, rest, r, told)
    {
      done, record, scratch', fragmented' := false, [], scratch, fragmented;
      ghost var was := reports;
      var read, after := ReadExpected(known, left, !fragmented, coming);
      r, rest, told := read, after, reports - was;
      eof' := read.Eof?;
      if !eof' {
        done, record, scratch', fragmented' := Assemble(read, scratch, fragmented);
      }
    }

    /** ReadRecord: the fragments of one record put together. Whatever the bytes are, the record is that
        of the first complete group of fragments that lies on the way; without one there is no record. */
    method ReadRecord(ghost known: Option<bool>, ghost data0: Bytes) returns (ok: bool, record: Bytes, ghost parts: seq<Part>)
      requires Valid() && |buffer| < BLOCK
      requires known.Some? ==> Ahead(file, Pos(), Fragments(checksum, Pos(), data0, true), known.value)
      modifies this
      ensures Valid() && (ok ==> |buffer| < BLOCK && Pos() > old(Pos()))
      ensures ok ==> MadeOf(checksum, file, verify, parts, record, old(Pos()), Pos())
      ensures ReadsNext(Source(checksum, file, verify), old(Pos()), ok, parts, Pos(), old(reports), reports)
      ensures known == Some(true) ==> ok && record == data0 && Pos() == old(Pos()) + |Fragments(checksum, old(Pos()), data0, true)|
      ensures known == Some(false) ==> !ok
      ensures known.Some? ==> reports == old(reports)
      ensures Torn(file, NextStart(old(Pos()))) ==> !ok && reports == old(reports)
      ensures verify && LastDamaged(checksum, file, NextStart(old(Pos()))) ==> !ok && reports == old(reports) + 1
    {
      var scratch: Bytes, fragmented := [], false;
      ghost var left, coming := data0, Fragments(checksum, Pos(), data0, true);
      ghost var end, start: nat := Pos() + |coming|, Pos();
      parts := [];
      ghost var was := reports;
      SetsOut(Source(checksum, file, verify), start);
      ReportedNone(Source(checksum, file, verify), start);
      while true
        invariant Valid() && |buffer| < BLOCK && Under(checksum, file, Pos(), known, data0, scratch, fragmented, left, coming)
        invariant UnderWay(start, was, scratch, fragmented, parts)
        invariant Torn(file, NextStart(start)) ==> Pos() == start && reports == was
        invariant verify && LastDamaged(checksum, file, NextStart(start)) ==> !fragmented && Behind(file, start, Pos(), reports - was)
        invariant known.Some? ==> Pos() + |coming| == end && reports == was
        decreases |file| - Pos()
      {
        var eof', done;
        eof', done, record, scratch, fragmented, left, coming, parts :=
          ReadTurn(scratch, fragmented, known, data0, left, coming, parts, start, was);
        if eof' {
          return false, [], parts;
        }
        if done {
          return true, record, parts;
        }
      }
    }

    /** What a reader that set out from `start` has put together, come by and reported. */
    ghost predicate UnderWay(start: nat, was: int, scratch: Bytes, fragmented: bool, parts: seq<Part>)
      requires Valid()
      reads this
    {
      && start <= Pos() && Begun(checksum, file, verify, parts, fragmented, scratch, start, Pos())
      && OnWay(Source(checksum, file, verify), start, Pos(), fragmented, parts)
      && Reported(Source(checksum, file, verify), start, Pos(), reports - was)
    }

    /** One turn of ReadRecord, and where it leads on the way of the reader. */
    method ReadTurn(scratch: Bytes, fragmented: bool, ghost known: Option<bool>, ghost data0: Bytes, ghost left: Bytes,
                    ghost coming: Bytes, ghost parts: seq<Part>, ghost start: nat, ghost was: int)
      returns (eof': bool, done: bool, record: Bytes, scratch': Bytes, fragmented': bool, ghost left': Bytes, ghost coming': Bytes,
               ghost parts': seq<Part>)
      requires Valid() && |buffer| < BLOCK && Under(checksum, file, Pos(), known, data0, scratch, fragmented, left, coming)
      requires UnderWay(start, was, scratch, fragmented, parts)
      modifies this
      ensures Valid() && (!eof' ==> |buffer| < BLOCK && Pos() > old(Pos()))
      ensures !eof' && done ==> MadeOf(checksum, file, verify, parts', record, start, Pos())
      ensures eof' ==> ReadsNext(Source(checksum, file, verify), start, false, parts', Pos(), was, reports)
      ensures !eof' && done ==> ReadsNext(Source(checksum, file, verify), start, true, parts', Pos(), was, reports)
      ensures !eof' && !done ==> UnderWay(start, was, scratch', fragmented', parts')
      ensures !eof' && !done ==> Under(checksum, file, Pos(), known, data0, scratch', fragmented', left', coming')
      ensures known.Some? ==> KnownAfter(old(Pos()), Pos(), known.value, data0, coming, eof', done, record, coming', reports - old(reports))
      ensures Ending(checksum, file, verify, start, old(Pos()), fragmented, eof', done, fragmented', Pos(), reports - old(reports))
    {
      ghost var p, before, r, told := Pos(), reports, Eof, 0;
      eof', done, record, scratch', fragmented', left', coming', parts', r, told :=
        ReadFragment(scratch, fragmented, known, data0, left, coming, parts, start);
      TurnReads(Source(checksum, file, verify), start, p, fragmented, parts, r, Pos(), told, done, fragmented', parts', was, before,
                reports);
      ToldEnds(checksum, file, verify, start, p, fragmented, scratch, r, Pos(), told, done, fragmented', before, reports, parts, parts');
    }
  }

  /** The reader is where it was, or has dropped the rest of the last block and reported that. */
  predicate Behind(file: Bytes, start: int, p: int, reported: int) {
    (p == start && reported == 0) || (p == |file| && reported == 1)
  }

  /** What the end of the file gives: a torn fragment nothing, a damaged one in the last block one report. */
  ghost predicate Ending(c: Checksum, file: Bytes, verify: bool, start: nat, p: int, fragmented: bool, eof: bool, done: bool,
                         fragmented': bool, pos: int, reported: int)
  {
    && (Torn(file, NextStart(start)) && p == start ==> eof && reported == 0)
    && (verify && LastDamaged(c, file, NextStart(start)) && !fragmented && p == start ==>
          !eof && !done && !fragmented' && pos == |file| && reported == 1)
    && (p == |file| ==> eof && reported == 0)
  }

  lemma {:induction false} ToldEnds(c: Checksum, file: Bytes, verify: bool, start: nat, p: nat, fragmented: bool, scratch: Bytes, r: Outcome,
                                    pos: int, told: int, done: bool, fragmented': bool, before: int, now: int, parts: seq<Part>,
                                    parts': seq<Part>)
    requires Told(c, file, verify, NextStart(p), r, pos, told) && Turned(r, NextStart(p), fragmented, parts, done, fragmented', parts')
    requires now == before + told + if !r.Eof? && Reader.Misplaced(r, scratch, fragmented) then 1 else 0
    ensures Ending(c, file, verify, start, p, fragmented, r.Eof?, done, fragmented', pos, now - before)
  {
    NoneBehind(file);
  }

  lemma {:induction false} NoneBehind(file: Bytes)
    ensures Torn(file, NextStart(|file|))
  {
    NextStartFits(|file|);
  }

  /** A whole record, the beginning of one, or more of one that was begun; anything else ends what was begun. */
  predicate Switched(r: Outcome, scratch: Bytes, fragmented: bool, done: bool, record: Bytes, scratch': Bytes, fragmented': bool)
    requires !r.Eof?
  {
    && (r.Record? && r.t == Full ==> done && record == r.fragment)
    && (r.Record? && r.t == First ==> !done && scratch' == r.fragment && fragmented')
    && (r.Record? && r.t == Middle && fragmented ==> !done && scratch' == scratch + r.fragment && fragmented')
    && (r.Record? && r.t == Last && fragmented ==> done && record == scratch + r.fragment)
    && (r.Record? && r.t in {Middle, Last} && !fragmented ==> !done && !fragmented' && scratch' == scratch)
    && (r.Bad? || r.t == Zero || r.t.Other? ==> !done && !fragmented' && scratch' == (if r.Bad? && !fragmented then scratch else []))
  }

  /** What is put together so far, and what of the record lies ahead. */
  ghost predicate Under(c: Checksum, file: Bytes, p: int, known: Option<bool>, data0: Bytes, scratch: Bytes, fragmented: bool, left: Bytes,
                        coming: Bytes)
  {
    known.Some? ==>
      && p >= 0 && Expected(c, file, p, left, !fragmented, coming, known.value)
      && scratch + left == data0 && (!fragmented ==> scratch == [])
  }

  /** What the expected physical record makes of a record that is known. */
  lemma {:induction false} KnownOn(c: Checksum, file: Bytes, p: int, pos: int, known: Option<bool>, data0: Bytes, left: Bytes, coming: Bytes,
                                   rest: Bytes, r: Outcome, scratch: Bytes, fragmented: bool, done: bool, record: Bytes,
                                   scratch': Bytes, fragmented': bool, told: int)
    requires p >= 0 && !r.Eof? && Under(c, file, p, known, data0, scratch, fragmented, left, coming)
    requires Switched(r, scratch, fragmented, done, record, scratch', fragmented')
    requires AsExpected(c, file, p, pos, known, left, !fragmented, coming, rest, r, told)
    ensures known.Some? ==> told == 0 && !Reader.Misplaced(r, scratch, fragmented)
    ensures known.Some? ==> KnownAfter(p, pos, known.value, data0, coming, false, done, record, rest, 0)
    ensures !done ==> Under(c, file, pos, known, data0, scratch', fragmented', left[Taken(p, left)..], rest)
  {
    Regroup(scratch, left, Taken(p, left));
  }

  /** The physical record read is the next of the record that is known, or the file ends first. */
  ghost predicate AsExpected(c: Checksum, file: Bytes, p: int, pos: int, known: Option<bool>, left: Bytes, begin: bool, coming: Bytes,
                             rest: Bytes, r: Outcome, told: int)
    requires p >= 0
  {
    known.Some? ==>
      && told == 0 && (r.Eof? ==> !known.value)
      && (!r.Eof? ==>
            var n := Taken(p, left);
            && r == Record(FragmentType(begin, n == |left|), left[..n]) && pos >= 0 && pos + |rest| == p + |coming|
            && Remains(c, file, pos, left[n..], n < |left|, rest, known.value))
  }

  /** Of a record that is known, all is read, or the rest lies ahead, or the file ends first. */
  predicate KnownAfter(p: int, pos: int, whole: bool, data0: Bytes, coming: Bytes, eof: bool, done: bool, record: Bytes, rest: Bytes,
                       reported: int)
  {
    && reported == 0 && (eof ==> !whole)
    && (!eof && done ==> whole && record == data0 && pos == p + |coming|)
    && (!eof && !done ==> pos + |rest| == p + |coming|)
  }

  /** What a physical record makes of the parts so far. */
  lemma {:induction false} Joins(c: Checksum, file: Bytes, verify: bool, r: Outcome, p: int, pos: int, start: int, scratch: Bytes,
                                 fragmented: bool, parts: seq<Part>, done: bool, record: Bytes, scratch': Bytes, fragmented': bool,
                                 told: int)
    returns (parts': seq<Part>)
    requires p >= 0 && start <= p && !r.Eof? && Begun(c, file, verify, parts, fragmented, scratch, start, p)
    requires Told(c, file, verify, NextStart(p), r, pos, told)
    requires Switched(r, scratch, fragmented, done, record, scratch', fragmented')
    ensures done ==> MadeOf(c, file, verify, parts', record, start, pos)
    ensures !done ==> Begun(c, file, verify, parts', fragmented', scratch', start, pos)
    ensures Turned(r, NextStart(p), fragmented, parts, done, fragmented', parts') && PartsEnd(fragmented, parts, p)
  {
    parts' := [];
    NextStartFits(p);
    if r.Record? {
      var part := Part(NextStart(p), r.t, r.fragment);
      if r.t in {Full, First} {
        OnePart(c, file, verify, part, r.t == Full);
        parts' := [part];
      } else if r.t in {Middle, Last} && fragmented {
        OnePartMore(c, file, verify, parts, scratch, part, r.t == Last);
        parts' := parts + [part];
      }
    }
  }

  lemma {:induction false} Regroup(a: Bytes, b: Bytes, n: nat)
    requires n <= |b|
    ensures (a + b[..n]) + b[n..] == a + b && b[..n] + b[n..] == b && [] + b == b && a + b[..n] == if n == |b| then a + b else a + b[..n]
  {
    assert n == |b| ==> b[..n] == b;
  }

  /** `coming` is what the writer wrote for the rest of the record, and it lies ahead. */
  ghost predicate Expected(c: Checksum, file: Bytes, p: nat, left: Bytes, begin: bool, coming: Bytes, whole: bool) {
    Comes(c, p, left, begin, true, coming) && Ahead(file, p, coming, whole)
  }

  /** `rest` is what remains of the record after a fragment, and it lies ahead. */
  ghost predicate Remains(c: Checksum, file: Bytes, p: nat, left: Bytes, more: bool, rest: Bytes, whole: bool) {
    Comes(c, p, left, false, more, rest) && Ahead(file, p, rest, whole)
  }

  lemma {:induction false} ExpectedPiece(c: Checksum, file: Bytes, p: nat, left: Bytes, begin: bool, coming: Bytes, whole: bool)
    returns (rest: Bytes)
    requires Expected(c, file, p, left, begin, coming, whole)
    ensures var n := Taken(p, left);
            var next := NextStart(p) + HEADER + n;
            && AheadPhysical(c, file, NextStart(p), FragmentType(begin, n == |left|), left[..n], next <= |file|)
            && (whole ==> next <= |file|) && next + |rest| == p + |coming|
            && (next <= |file| ==> Remains(c, file, next, left[n..], n < |left|, rest, whole))
  {
    rest := UnfoldFragments(c, p, left, begin, coming);
    PieceAhead(c, file, p, left, begin, rest, whole);
    PieceSplits(p, Taken(p, left), coming, Piece(c, p, left, begin), rest);
  }

  lemma {:induction false} PieceSplits(p: nat, n: nat, coming: Bytes, piece: Bytes, rest: Bytes)
    requires coming == piece + rest && |piece| == NextStart(p) - p + HEADER + n
    ensures p + |piece| == NextStart(p) + HEADER + n && NextStart(p) + HEADER + n + |rest| == p + |coming|
  {
  }

  /** What reading the piece tells, whether it was there in full or cut. */
  lemma {:induction false} Concluded(c: Checksum, file: Bytes, p: nat, left: Bytes, begin: bool, coming: Bytes, rest: Bytes,
                                     whole: bool, r: Outcome, pos: int, quiet: bool)
    requires var n := Taken(p, left);
             var next := NextStart(p) + HEADER + n;
             && AheadPhysical(c, file, NextStart(p), FragmentType(begin, n == |left|), left[..n], next <= |file|)
             && (whole ==> next <= |file|) && next + |rest| == p + |coming|
             && (next <= |file| ==> Remains(c, file, next, left[n..], n < |left|, rest, whole))
    requires var n := Taken(p, left);
             var t := FragmentType(begin, n == |left|);
             && (AheadPhysical(c, file, NextStart(p), t, left[..n], true) ==>
                   r == Record(t, left[..n]) && pos == NextStart(p) + HEADER + n && quiet)
             && (AheadPhysical(c, file, NextStart(p), t, left[..n], false) ==> r.Eof? && quiet)
    ensures quiet && (r.Eof? ==> !whole)
    ensures !r.Eof? ==>
              var n := Taken(p, left);
              && r == Record(FragmentType(begin, n == |left|), left[..n])
              && pos >= 0 && pos + |rest| == p + |coming|
              && Remains(c, file, pos, left[n..], n < |left|, rest, whole)
  {
  }

  lemma {:induction false} Window(s: Bytes, a: nat, b: nat, i: nat, k: nat)
    requires a <= b <= |s| && i <= k <= b - a
    ensures s[a..b][i..k] == s[a + i..a + k]
  {
    var x, y := s[a..b][i..k], s[a + i..a + k];
    assert |x| == |y| && forall n | 0 <= n < |x| :: x[n] == y[n];
  }

  /** The buffer of a reader at `q` ends where the data of the block does. */
  lemma {:induction false} BufferEnd(file: Bytes, q: nat, end: nat, eof: bool)
    requires q < end <= |file|
    requires if eof then end == |file| && q % BLOCK + (end - q) < BLOCK else end % BLOCK == 0 && end - q <= BLOCK
    ensures end == DataEnd(file, q) && (eof <==> |file| < BlockEnd(q))
  {
  }

  /** The check of a fragment that is in the buffer, which ends at `end`. */
  ghost predicate Checked(c: Checksum, file: Bytes, verify: bool, q: nat, end: nat, length: nat, code: Byte, r: Outcome, pos: int, reported: int)
    requires q + HEADER + length <= |file|
  {
    var empty := code == 0 && length == 0;
    && (empty ==> r.Bad? && pos == end && reported == 0)
    && (!empty && verify && !CrcHolds(c, file, q, length) ==> r.Bad? && pos == end && reported == 1)
    && (!empty && (verify ==> CrcHolds(c, file, q, length)) ==>
          r == Returned(code, file[q + HEADER..q + HEADER + length]) && pos == q + HEADER + length && reported == 0)
  }

  lemma {:induction false} ToldTooLong(c: Checksum, file: Bytes, verify: bool, q: nat, end: nat, r: Outcome, pos: int, reported: int)
    requires HasHeader(file, q) && end == DataEnd(file, q) && end < q + HEADER + Length(file, q) && pos == end
    requires if |file| < BlockEnd(q) then r == Eof && reported == 0 else r == Bad && reported == 1
    ensures Told(c, file, verify, q, r, pos, reported)
  {
  }

  lemma {:induction false} ToldChecked(c: Checksum, file: Bytes, verify: bool, q: nat, end: nat, r: Outcome, pos: int, reported: int)
    requires Inside(file, q) && end == DataEnd(file, q)
    requires Checked(c, file, verify, q, end, Length(file, q), file[q + 6], r, pos, reported)
    ensures Told(c, file, verify, q, r, pos, reported)
  {
  }

  /** What lies at `q` when a record of the writer does, whole or cut. */
  lemma {:induction false} WhatIsAhead(c: Checksum, file: Bytes, verify: bool, q: nat, t: RecordType, payload: Bytes)
    requires c.Sound()
    ensures AheadPhysical(c, file, q, t, payload, true) ==>
              Intact(c, file, verify, q) && Length(file, q) == |payload| && Returned(file[q + 6], payload) == Record(t, payload)
              && file[q + HEADER..q + HEADER + |payload|] == payload
    ensures AheadPhysical(c, file, q, t, payload, false) ==> Torn(file, q)
  {
    if AheadPhysical(c, file, q, t, payload, true) || AheadPhysical(c, file, q, t, payload, false) {
      var x := Physical(c, t, payload);
      HeaderIs(c, t, payload);
      RoomToEnd(q);
      forall i | 0 <= i < |x| && q + i < |file| ensures file[q + i] == x[i] {
        if AheadPhysical(c, file, q, t, payload, true) {
          assert file[q..q + |x|][i] == x[i];
        } else {
          assert file[q..][i] == x[..|file| - q][i];
        }
      }
      if AheadPhysical(c, file, q, t, payload, true) {
        assert file[q + HEADER..q + HEADER + |payload|] == x[HEADER..];
        assert file[q..q + 4] == x[..4] && file[q + 6..q + HEADER + |payload|] == x[6..];
      }
    }
  }

  /** A physical record of the writer is returned, and one that is cut is the end. */
  lemma {:induction false} ToldAhead(c: Checksum, file: Bytes, verify: bool, q: nat, t: RecordType, payload: Bytes, r: Outcome, pos: int,
                                     reported: int)
    requires c.Sound() && Told(c, file, verify, q, r, pos, reported)
    ensures AheadPhysical(c, file, q, t, payload, true) ==> r == Record(t, payload) && pos == q + HEADER + |payload| && reported == 0
    ensures AheadPhysical(c, file, q, t, payload, false) ==> r.Eof? && reported == 0
  {
    WhatIsAhead(c, file, verify, q, t, payload);
  }

  // ---------- whole logs ----------

  lemma {:induction false} ImageGrows(c: Checksum, records: seq<Bytes>, m: nat, n: nat)
    requires m <= n <= |records|
    ensures Image(c, records, m) <= Image(c, records, n)
  {
    if m < n {
      ImageGrows(c, records, m, n - 1);
    }
  }

  lemma {:induction false} ImageNext(c: Checksum, records: seq<Bytes>, k: nat, before: Bytes)
    requires k < |records| && before == Image(c, records, k)
    ensures Image(c, records, k + 1) == before + Fragments(c, |before|, records[k], true)
  {
  }

  /** AddRecord, when no append fails. */
  method AddWhole(writer: Writer, data: Bytes)
    requires writer.Valid() && writer.pending == [] && writer.at == |writer.dest|
    modifies writer
    ensures writer.Valid() && writer.pending == [] && writer.at == |writer.dest|
    ensures writer.dest == old(writer.dest) + Fragments(writer.checksum, |old(writer.dest)|, data, true)
  {
    var ok := writer.AddRecord(data, None);
  }

  /** A writer adding the records one by one leaves their image. */
  method WriteAll(c: Checksum, records: seq<Bytes>) returns (file: Bytes)
    ensures file == Image(c, records, |records|)
  {
    var writer := new Writer(c, []);
    for k := 0 to |records|
      invariant writer.Valid() && writer.pending == [] && writer.at == |writer.dest|
      invariant writer.checksum == c && writer.dest == Image(c, records, k)
    {
      ImageNext(c, records, k, writer.dest);
      AddWhole(writer, records[k]);
    }
    file := writer.dest;
  }

  /** What a log cut at any byte holds after its first `k` records. */
  lemma {:induction false} NextAhead(c: Checksum, records: seq<Bytes>, file: Bytes, k: nat)
    requires file <= Image(c, records, |records|) && k <= |records| && |Image(c, records, k)| <= |file|
    ensures var p, data := |Image(c, records, k)|, if k < |records| then records[k] else [];
            Ahead(file, p, Fragments(c, p, data, true), k < |records| && |Image(c, records, k + 1)| <= |file|)
  {
    if k < |records| {
      NextCut(c, records, file, k);
    } else {
      NothingAhead(c, file);
    }
  }

  lemma {:induction false} NextCut(c: Checksum, records: seq<Bytes>, file: Bytes, k: nat)
    requires file <= Image(c, records, |records|) && k < |records| && |Image(c, records, k)| <= |file|
    ensures var now := Image(c, records, k);
            Ahead(file, |now|, Fragments(c, |now|, records[k], true), |Image(c, records, k + 1)| <= |file|)
  {
    var all, now, next := Image(c, records, |records|), Image(c, records, k), Image(c, records, k + 1);
    ImageGrows(c, records, k + 1, |records|);
    ImageNext(c, records, k, now);
    CutAhead(all, file, now, Fragments(c, |now|, records[k], true), next);
  }

  /** Behind all of the log there is nothing of a further record. */
  lemma {:induction false} NothingAhead(c: Checksum, file: Bytes)
    ensures Ahead(file, |file|, Fragments(c, |file|, [], true), false)
  {
    var rest := UnfoldFragments(c, |file|, [], true, Fragments(c, |file|, [], true));
    NextStartFits(|file|);
  }

  lemma {:induction false} CutAhead(all: Bytes, file: Bytes, now: Bytes, w: Bytes, next: Bytes)
    requires file <= all && next == now + w && next <= all && |now| <= |file|
    ensures Ahead(file, |now|, w, |next| <= |file|)
  {
    if |next| <= |file| {
      assert forall i | 0 <= i < |w| :: file[|now| + i] == next[|now| + i] == w[i];
    } else {
      assert forall i | 0 <= i < |file| - |now| :: file[|now| + i] == next[|now| + i] == w[i];
    }
  }

  lemma {:induction false} TakeNext(records: seq<Bytes>, k: nat)
    requires k < |records|
    ensures records[..k + 1] == records[..k] + [records[k]]
  {
  }

  /** Of the log cut at some byte, the first `k` records are whole; when `all`, no others are. */
  ghost predicate CutAt(c: Checksum, file: Bytes, records: seq<Bytes>, k: nat, all: bool) {
    && k <= |records| && |Image(c, records, k)| <= |file|
    && (all && k < |records| ==> |file| < |Image(c, records, k + 1)|)
  }

  /** One more record of a log cut at any byte. */
  method ReadCut(reader: Reader, ghost records: seq<Bytes>, ghost k: nat) returns (more: bool, record: Bytes)
    requires reader.Valid() && |reader.buffer| < BLOCK && reader.file <= Image(reader.checksum, records, |records|)
    requires k <= |records| && reader.Pos() == |Image(reader.checksum, records, k)|
    modifies reader
    ensures reader.Valid() && reader.reports == old(reader.reports)
    ensures more ==> |reader.buffer| < BLOCK && k < |records| && record == records[k]
    ensures more ==> reader.Pos() == |Image(reader.checksum, records, k + 1)| <= |reader.file|
    ensures CutAt(reader.checksum, reader.file, records, if more then k + 1 else k, !more)
  {
    NextAhead(reader.checksum, records, reader.file, k);
    ghost var data := if k < |records| then records[k] else [];
    ghost var whole := k < |records| && |Image(reader.checksum, records, k + 1)| <= |reader.file|;
    ghost var parts;
    more, record, parts := reader.ReadRecord(Some(whole), data);
  }

  lemma {:induction false} PrefixMore(records: seq<Bytes>, result: seq<Bytes>, record: Bytes)
    requires result <= records && |result| < |records| && record == records[|result|]
    ensures result + [record] <= records
  {
    assert result == records[..|result|];
  }

  /** One more turn of reading it. */
  method ReadCutOn(reader: Reader, ghost records: seq<Bytes>, result: seq<Bytes>) returns (more: bool, result': seq<Bytes>)
    requires reader.Valid() && |reader.buffer| < BLOCK && reader.file <= Image(reader.checksum, records, |records|)
    requires result <= records && reader.Pos() == |Image(reader.checksum, records, |result|)|
    modifies reader
    ensures reader.Valid() && reader.reports == old(reader.reports) && (more ==> |reader.buffer| < BLOCK)
    ensures result' <= records && |result'| == |result| + if more then 1 else 0
    ensures more ==> reader.Pos() == |Image(reader.checksum, records, |result'|)|
    ensures CutAt(reader.checksum, reader.file, records, |result'|, !more)
  {
    var record;
    more, record := ReadCut(reader, records, |result|);
    result' := result;
    if more {
      PrefixMore(records, result, record);
      result' := result + [record];
    }
  }

  /** Reading any prefix of a log, cut at any byte, gives exactly the records that are wholly inside
      it, and reports no corruption. */
  method ReadAll(c: Checksum, file: Bytes, verify: bool, ghost records: seq<Bytes>)
    returns (result: seq<Bytes>, reports: nat, ghost k: nat)
    requires c.Sound() && file <= Image(c, records, |records|)
    ensures k <= |records| && result == records[..k] && reports == 0
    ensures |Image(c, records, k)| <= |file| && (k < |records| ==> |file| < |Image(c, records, k + 1)|)
  {
    var reader := new Reader(file, c, verify);
    result := [];
    var more := true;
    while more
      invariant result <= records && CutAt(c, file, records, |result|, !more)
      invariant reader.Valid() && reader.file == file && reader.checksum == c && reader.reports == 0
      invariant more ==> |reader.buffer| < BLOCK && reader.Pos() == |Image(c, records, |result|)|
      decreases more, |records| - |result|
    {
      more, result := ReadCutOn(reader, records, result);
    }
    reports, k := reader.reports, |result|;
  }

  // ---------- logs with failed appends ----------

  predicate AllOk(ok: seq<bool>, n: nat) {
    n <= |ok| && forall i | 0 <= i < n :: ok[i]
  }

  lemma {:induction false} ImageOfPrefix(c: Checksum, records: seq<Bytes>, more: seq<Bytes>, n: nat)
    requires n <= |records| && records <= more
    ensures Image(c, records, n) == Image(c, more, n)
  {
    if n > 0 {
      ImageOfPrefix(c, records, more, n - 1);
    }
  }

  /** A writer going on after failed appends: what was added before the first failure is whole in the
      file, whatever the failures left and whatever was added after them. */
  method WriteSome(c: Checksum, records: seq<Bytes>, reach: seq<Option<nat>>) returns (file: Bytes, ok: seq<bool>)
    requires |reach| == |records|
    ensures |ok| == |records| && forall n | 0 <= n <= |records| && AllOk(ok, n) :: Image(c, records, n) <= file
  {
    var writer := new Writer(c, []);
    ok := [];
    for k := 0 to |records|
      invariant writer.Valid() && writer.pending == [] && writer.checksum == c && |ok| == k
      invariant WrittenSome(c, records, ok, writer.dest, writer.at)
    {
      ghost var was, before, at := ok, writer.dest, writer.at;
      var added := writer.AddRecord(records[k], reach[k]);
      ok := ok + [added];
      WritesMore(c, records, was, before, at, added, writer.dest, writer.at);
    }
    file := writer.dest;
  }

  /** What was added before the first failure is in the file; without one it is all of the file. */
  ghost predicate WrittenSome(c: Checksum, records: seq<Bytes>, ok: seq<bool>, dest: Bytes, at: nat) {
    && |ok| <= |records| && (forall n | 0 <= n <= |ok| && AllOk(ok, n) :: Image(c, records, n) <= dest)
    && (AllOk(ok, |ok|) ==> dest == Image(c, records, |ok|) && at == |dest|)
  }

  lemma {:induction false} WritesMore(c: Checksum, records: seq<Bytes>, ok: seq<bool>, before: Bytes, at: nat, added: bool, dest: Bytes,
                                      at': nat)
    requires WrittenSome(c, records, ok, before, at) && |ok| < |records| && before <= dest
    requires added && at == |before| ==> dest == before + Fragments(c, |before|, records[|ok|], true) && at' == |dest|
    ensures WrittenSome(c, records, ok + [added], dest, at')
  {
    var now := ok + [added];
    forall n | 0 <= n <= |now| && AllOk(now, n) ensures Image(c, records, n) <= dest {
      if n <= |ok| {
        assert AllOk(ok, n) by { assert forall i | 0 <= i < n :: ok[i] == now[i]; }
      } else {
        AllOkBefore(ok, added);
      }
    }
    if AllOk(now, |now|) {
      AllOkBefore(ok, added);
    }
  }

  lemma {:induction false} AllOkBefore(ok: seq<bool>, added: bool)
    requires AllOk(ok + [added], |ok| + 1)
    ensures AllOk(ok, |ok|) && added
  {
    assert (ok + [added])[|ok|] == added;
    forall i | 0 <= i < |ok| ensures ok[i] {
      assert (ok + [added])[i] == ok[i];
    }
  }

  /** One more record of a file that begins with a log. */
  method ReadNext(reader: Reader, ghost records: seq<Bytes>, ghost k: nat) returns (more: bool, record: Bytes, ghost parts: seq<Part>)
    requires reader.Valid() && |reader.buffer| < BLOCK && Image(reader.checksum, records, |records|) <= reader.file
    requires k <= |records| ==> reader.Pos() == |Image(reader.checksum, records, k)|
    modifies reader
    ensures reader.Valid() && (more ==> |reader.buffer| < BLOCK && reader.Pos() > old(reader.Pos()))
    ensures more ==> MadeOf(reader.checksum, reader.file, reader.verify, parts, record, old(reader.Pos()), reader.Pos())
    ensures ReadsNext(Source(reader.checksum, reader.file, reader.verify), old(reader.Pos()), more, parts, reader.Pos(),
                      old(reader.reports), reader.reports)
    ensures k < |records| ==>
              more && record == records[k] && reader.Pos() == |Image(reader.checksum, records, k + 1)| && reader.reports == old(reader.reports)
    ensures k == |records| ==> EndsAs(reader.checksum, reader.file, reader.verify, records, more, reader.reports - old(reader.reports))
  {
    if k < |records| {
      LogAhead(reader.checksum, records, reader.file, k);
    }
    more, record, parts := reader.ReadRecord(if k < |records| then Some(true) else None, if k < |records| then records[k] else []);
  }

  /** How reading ends behind a log, if the file ends there in a torn or a damaged fragment. */
  ghost predicate EndsAs(c: Checksum, file: Bytes, verify: bool, records: seq<Bytes>, more: bool, reported: int) {
    && (EndsTorn(c, file, records) ==> !more && reported == 0)
    && (verify && EndsDamaged(c, file, records) ==> !more && reported == 1)
  }

  /** The records of the log come first; reading does not end before the last of them. */
  predicate ReadSoFar(records: seq<Bytes>, result: seq<Bytes>, more: bool) {
    if |result| <= |records| then result == records[..|result|] && (more || |result| == |records|) else records <= result
  }

  lemma {:induction false} ReadMore(records: seq<Bytes>, result: seq<Bytes>, record: Bytes)
    requires ReadSoFar(records, result, true) && (|result| < |records| ==> record == records[|result|])
    ensures ReadSoFar(records, result + [record], true)
  {
    if |result| < |records| {
      TakeNext(records, |result|);
    } else {
      assert result <= result + [record];
    }
  }

  /** A torn physical record, or nothing, follows the log. */
  ghost predicate EndsTorn(c: Checksum, file: Bytes, records: seq<Bytes>) {
    Torn(file, NextStart(|Image(c, records, |records|)|))
  }

  /** A fragment with a wrong checksum follows the log, in the last block. */
  ghost predicate EndsDamaged(c: Checksum, file: Bytes, records: seq<Bytes>) {
    LastDamaged(c, file, NextStart(|Image(c, records, |records|)|))
  }

  /** What is known of the records read so far, up to `p`, and of the reports. */
  ghost predicate LogRead(c: Checksum, file: Bytes, verify: bool, records: seq<Bytes>, result: seq<Bytes>, from: seq<seq<Part>>,
                          more: bool, p: int, reports: int)
  {
    && ReadSoFar(records, result, more) && LogChain.ReadSoFar(Source(c, file, verify), more, p, from, reports)
    && AllAssembled(c, file, verify, from, result) && (more ==> UpTo(from, p))
    && (more && |result| <= |records| ==> p == |Image(c, records, |result|)|)
  }

  lemma {:induction false} LogReadMore(c: Checksum, file: Bytes, verify: bool, records: seq<Bytes>, result: seq<Bytes>,
                                       from: seq<seq<Part>>, p: nat, before: int, more: bool, record: Bytes, parts: seq<Part>, pos: int,
                                       reports: int, result': seq<Bytes>, from': seq<seq<Part>>)
    requires LogRead(c, file, verify, records, result, from, true, p, before) && (more ==> p <= pos)
    requires ReadsNext(Source(c, file, verify), p, more, parts, pos, before, reports)
    requires more ==> MadeOf(c, file, verify, parts, record, p, pos)
    requires |result| < |records| ==> more && record == records[|result|] && pos == |Image(c, records, |result| + 1)|
    requires if more then result' == result + [record] && from' == from + [parts] else result' == result && from' == from
    ensures LogRead(c, file, verify, records, result', from', more, pos, reports)
  {
    LogChain.ReadOneMore(Source(c, file, verify), p, from, before, more, parts, pos, reports);
    if more {
      ReadMore(records, result, record);
      PartsMore(c, file, verify, from, result, parts, record, p, pos);
    }
  }

  /** One more turn of reading such a file. */
  method ReadOn(reader: Reader, ghost records: seq<Bytes>, result: seq<Bytes>, ghost from: seq<seq<Part>>)
    returns (more: bool, result': seq<Bytes>, ghost from': seq<seq<Part>>)
    requires reader.Valid() && |reader.buffer| < BLOCK && Image(reader.checksum, records, |records|) <= reader.file
    requires LogRead(reader.checksum, reader.file, reader.verify, records, result, from, true, reader.Pos(), reader.reports)
    modifies reader
    ensures reader.Valid() && (more ==> |reader.buffer| < BLOCK && reader.Pos() > old(reader.Pos()))
    ensures LogRead(reader.checksum, reader.file, reader.verify, records, result', from', more, reader.Pos(), reader.reports)
    ensures |result| < |records| ==> |result'| <= |records| && reader.reports == old(reader.reports)
    ensures |result| == |records| ==> EndsAs(reader.checksum, reader.file, reader.verify, records, more, reader.reports - old(reader.reports))
    ensures if more then |result'| == |result| + 1 else result' == result
  {
    ghost var p, was := reader.Pos(), reader.reports;
    var record;
    ghost var parts;
    more, record, parts := ReadNext(reader, records, |result|);
    result', from' := if more then result + [record] else result, if more then from + [parts] else from;
    LogReadMore(reader.checksum, reader.file, reader.verify, records, result, from, p, was, more, record, parts, reader.Pos(),
                reader.reports, result', from');
  }

  /** All records so far are made of parts of the file before `p`. */
  ghost predicate MadeOfParts(c: Checksum, file: Bytes, verify: bool, from: seq<seq<Part>>, result: seq<Bytes>, p: int) {
    AllAssembled(c, file, verify, from, result) && UpTo(from, p)
  }

  lemma {:induction false} PartsMore(c: Checksum, file: Bytes, verify: bool, from: seq<seq<Part>>, result: seq<Bytes>,
                                     parts: seq<Part>, record: Bytes, p: int, pos: int)
    requires MadeOfParts(c, file, verify, from, result, p) && MadeOf(c, file, verify, parts, record, p, pos) && p <= pos
    ensures MadeOfParts(c, file, verify, from + [parts], result + [record], pos)
  {
    RecordMore(c, file, verify, from, result, parts, record, p);
    UpToMore(from, p, parts, pos);
  }

  /** What the reader makes of a file that begins with a log: its records first, whatever follows them.
      With no records the file is any bytes: a record is returned for every complete group of fragments
      that lies on the way of the reader, in order and, if checksums are verified, with checksums that
      hold, and no other; no place where bytes are lost goes without a report. */
  method ReadLog(c: Checksum, file: Bytes, verify: bool, ghost records: seq<Bytes>)
    returns (result: seq<Bytes>, reports: nat, ghost from: seq<seq<Part>>)
    requires c.Sound() && Image(c, records, |records|) <= file
    ensures records <= result
    ensures AllAssembled(c, file, verify, from, result) && AllGiven(Source(c, file, verify), from)
    ensures ReportedToEnd(Source(c, file, verify), 0, reports)
    ensures EndsTorn(c, file, records) ==> result == records && reports == 0
    ensures verify && EndsDamaged(c, file, records) ==> result == records && reports == 1
  {
    var reader := new Reader(file, c, verify);
    result, from := [], [];
    var more := true;
    ReadNone(Source(c, file, verify));
    while more
      invariant reader.Valid() && reader.file == file && reader.checksum == c && reader.verify == verify && (more ==> |reader.buffer| < BLOCK)
      invariant LogRead(c, file, verify, records, result, from, more, reader.Pos(), reader.reports)
      invariant EndsSoFar(c, file, verify, records, result, more, reader.reports)
      decreases more, |file| - reader.Pos()
    {
      ghost var before, was := result, reader.reports;
      more, result, from := ReadOn(reader, records, result, from);
      EndsMore(c, file, verify, records, before, was, result, more, reader.reports);
    }
    reports := reader.reports;
  }

  /** What is known of the reports, and of the end, up to the last record of the log. */
  ghost predicate EndsSoFar(c: Checksum, file: Bytes, verify: bool, records: seq<Bytes>, result: seq<Bytes>, more: bool, reports: int) {
    && (|result| <= |records| && more ==> reports == 0)
    && (EndsTorn(c, file, records) ==> |result| <= |records| && reports == 0)
    && (verify && EndsDamaged(c, file, records) ==> |result| <= |records| && reports == if more then 0 else 1)
  }

  lemma {:induction false} EndsMore(c: Checksum, file: Bytes, verify: bool, records: seq<Bytes>, before: seq<Bytes>, was: int,
                                    result: seq<Bytes>, more: bool, reports: int)
    requires EndsSoFar(c, file, verify, records, before, true, was) && ReadSoFar(records, before, true) && ReadSoFar(records, result, more)
    requires |before| < |records| ==> |result| <= |records| && reports == was
    requires |before| == |records| ==> EndsAs(c, file, verify, records, more, reports - was)
    requires if more then |result| == |before| + 1 else result == before
    ensures EndsSoFar(c, file, verify, records, result, more, reports)
  {
  }

  lemma {:induction false} LogAhead(c: Checksum, records: seq<Bytes>, file: Bytes, k: nat)
    requires k < |records| && Image(c, records, |records|) <= file
    ensures var now := Image(c, records, k);
            var w := Fragments(c, |now|, records[k], true);
            Ahead(file, |now|, w, true) && |Image(c, records, k + 1)| == |now| + |w|
  {
    var now, next := Image(c, records, k), Image(c, records, k + 1);
    ImageGrows(c, records, k + 1, |records|);
    assert next <= file;
    CutAhead(file, file, now, Fragments(c, |now|, records[k], true), next);
  }

  /** What was added before the first failed append is read, in order and first. */
  method WriteSomeAndRead(c: Checksum, records: seq<Bytes>, reach: seq<Option<nat>>, verify: bool)
    returns (ok: seq<bool>, result: seq<Bytes>)
    requires c.Sound() && |reach| == |records|
    ensures |ok| == |records| && forall n | 0 <= n <= |records| && AllOk(ok, n) :: records[..n] <= result
  {
    var file;
    file, ok := WriteSome(c, records, reach);
    var first := 0;
    while first < |records| && ok[first]
      invariant first <= |records| && AllOk(ok, first)
    {
      first := first + 1;
    }
    ImageOfPrefix(c, records[..first], records, first);
    var reports;
    ghost var from;
    result, reports, from := ReadLog(c, file, verify, records[..first]);
  }

  /** A failed append of `a` and one of `b` after it, in one block. */
  method AppendBoth(c: Checksum, file: Bytes, a: Bytes, b: Bytes, reach: nat) returns (okA: bool, okB: bool, dest: Bytes)
    requires reach < HEADER + |a| && |a| + HEADER + |b| <= Room(|file|)
    ensures !okA && okB && dest == file + Physical(c, Full, a)[..reach] + Physical(c, Full, b)
  {
    OnePiece(c, |file|, a);
    OnePiece(c, |file| + HEADER + |a|, b);
    var writer := new Writer(c, file);
    okA := writer.AddRecord(a, Some(reach));
    okB := writer.AddRecord(b, None);
    dest := writer.dest;
  }

  /** After a failed append of `a`, another record is appended without an error. What was there before is
      read in any case. If none of `a` got into the file, so is the other record; if the header of `a` did,
      and the file is still shorter than that claims, it is not, and nothing is reported. */
  method AppendAfterFailure(c: Checksum, records: seq<Bytes>, a: Bytes, b: Bytes, reach: nat, verify: bool)
    returns (okA: bool, okB: bool, result: seq<Bytes>, reports: nat)
    requires c.Sound() && reach < HEADER + |a|
    requires |a| + HEADER + |b| <= Room(|Image(c, records, |records|)|)
    ensures !okA && okB && records <= result
    ensures reach == 0 ==> result == records + [b] && reports == 0
    ensures HEADER <= reach && reach + |b| < |a| ==> result == records && reports == 0
  {
    var file := WriteAll(c, records);
    var dest;
    okA, okB, dest := AppendBoth(c, file, a, b, reach);
    if reach == 0 {
      assert Physical(c, Full, a)[..reach] == [] && file + [] == file;
      result, reports := ReadOneMore(c, records, b, dest, verify);
    } else {
      HeaderTorn(c, file, a, dest, reach, Physical(c, Full, b));
      NextStartStays(|file|, |a|);
      ghost var from;
      result, reports, from := ReadLog(c, dest, verify, records);
    }
  }

  lemma {:induction false} NextStartStays(p: nat, n: nat)
    requires n <= Room(p)
    ensures NextStart(p) == p
  {
  }

  method ReadOneMore(c: Checksum, records: seq<Bytes>, b: Bytes, dest: Bytes, verify: bool)
    returns (result: seq<Bytes>, reports: nat)
    requires c.Sound() && |b| <= Room(|Image(c, records, |records|)|)
    requires dest == Image(c, records, |records|) + Physical(c, Full, b)
    ensures result == records + [b] && reports == 0
  {
    ImageOfMore(c, records, b);
    ghost var k;
    result, reports, k := ReadAll(c, dest, verify, records + [b]);
    WholeImage(c, records + [b], k);
  }

  lemma {:induction false} ImageOfMore(c: Checksum, records: seq<Bytes>, b: Bytes)
    requires |b| <= Room(|Image(c, records, |records|)|)
    ensures Image(c, records + [b], |records| + 1) == Image(c, records, |records|) + Physical(c, Full, b)
  {
    ImageOfPrefix(c, records, records + [b], |records|);
    OnePiece(c, |Image(c, records, |records|)|, b);
  }

  /** Only all the records take all of their image. */
  lemma {:induction false} WholeImage(c: Checksum, records: seq<Bytes>, k: nat)
    requires k <= |records| && (k < |records| ==> |Image(c, records, |records|)| < |Image(c, records, k + 1)|)
    ensures records[..k] == records
  {
    if k < |records| {
      ImageGrows(c, records, k + 1, |records|);
    }
  }

  /** The header of `a`, some of `a` and what came after it, all shorter than the header claims. */
  lemma {:induction false} HeaderTorn(c: Checksum, file: Bytes, a: Bytes, dest: Bytes, reach: nat, tail: Bytes)
    requires c.Sound() && |a| <= Room(|file|) && reach <= HEADER + |a| && dest == file + Physical(c, Full, a)[..reach] + tail
    ensures file <= dest
    ensures HEADER <= reach && reach + |tail| < HEADER + |a| ==> Torn(dest, |file|)
  {
    HeaderIs(c, Full, a);
    var x := Physical(c, Full, a);
    assert dest[..|file|] == file;
    if HEADER <= reach {
      assert dest[|file| + 4] == x[4] && dest[|file| + 5] == x[5];
      RoomToEnd(|file|);
    }
  }

  /** A record that fits the rest of the block is one physical record, without zeros before it. */
  lemma {:induction false} OnePiece(c: Checksum, p: nat, data: Bytes)
    requires |data| <= Room(p)
    ensures NextStart(p) == p && Taken(p, data) == |data| && Fragments(c, p, data, true) == Physical(c, Full, data)
  {
    assert data[..|data|] == data;
    assert Zeros(0) + Physical(c, Full, data) == Physical(c, Full, data);
  }

  function CrcExtend(x: nat, a: Bytes): nat {
    if x < TWO32 then Crc32c.Crc(x, a) else x
  }

  function CrcMask(x: nat): nat {
    if x < TWO32 then Crc32c.Mask(x) else x
  }

  function CrcUnmask(x: nat): nat {
    if x < TWO32 then Crc32c.Unmask(x) else x
  }

  lemma {:induction false} CrcExtends(x: nat, a: Bytes, b: Bytes)
    ensures CrcExtend(CrcExtend(x, a), b) == CrcExtend(x, a + b)
    ensures x < TWO32 ==> CrcExtend(x, a) < TWO32
  {
    if x < TWO32 {
      Crc32c.CrcBound(x, a);
      Crc32c.ExtendTwice(x, a, b);
    }
  }

  lemma {:induction false} CrcMasks(x: nat)
    requires x < TWO32
    ensures CrcMask(x) < TWO32 && CrcUnmask(CrcMask(x)) == x
  {
    Crc32c.UnmaskMask(x);
  }

  /** The masked CRC32C that the log is written with is a sound checksum. */
  lemma {:induction false} Crc32cIsSound()
    ensures Checksum(CrcExtend, CrcMask, CrcUnmask).Sound()
  {
    var c := Checksum(CrcExtend, CrcMask, CrcUnmask);
    forall x: nat, a, b ensures c.extend(c.extend(x, a), b) == c.extend(x, a + b) {
      CrcExtends(x, a, b);
    }
    forall x: nat, a | x < TWO32 ensures c.extend(x, a) < TWO32 {
      CrcExtends(x, a, []);
    }
    forall x: nat | x < TWO32 ensures c.mask(x) < TWO32 && c.unmask(c.mask(x)) == x {
      CrcMasks(x);
    }
  }
}
