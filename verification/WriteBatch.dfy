/** Write batches: a sequence number, a count and the operations, as bytes (db/write_batch.cc). */
module WriteBatch {
  import opened Dbformat
  import opened Coding

  const BATCH_HEADER: nat := 12

  datatype Op = Put(key: Bytes, value: Bytes) | Delete(key: Bytes)

  datatype Status = Ok | TooSmall | BadPut | BadDelete | UnknownTag | WrongCount

  // ---------- the format ----------

  function OpBytes(op: Op): (r: Bytes)
    ensures |r| > 0
  {
    match op
    case Put(key, value) => [1] + (LengthPrefixed(key) + LengthPrefixed(value))
    case Delete(key) => [0] + LengthPrefixed(key)
  }

  function OpsBytes(ops: seq<Op>): Bytes {
    if ops == [] then [] else OpBytes(ops[0]) + OpsBytes(ops[1..])
  }

  function BatchBytes(sequence: nat, ops: seq<Op>): Bytes {
    Header(sequence, |ops|) + OpsBytes(ops)
  }

  function Header(sequence: nat, count: nat): (r: Bytes)
    ensures |r| == BATCH_HEADER
  {
    Fixed(sequence, 8) + Fixed(count, 4)
  }

  /** SetCount: only the four bytes of the count change. */
  function Recount(rep: Bytes, n: nat): Bytes
    requires |rep| >= BATCH_HEADER
  {
    rep[..8] + Fixed(n, 4) + rep[12..]
  }

  lemma {:induction false} Recounted(sequence: nat, count: nat, n: nat, body: Bytes)
    ensures Recount(Header(sequence, count) + body, n) == Header(sequence, n) + body
  {
    assert (Header(sequence, count) + body)[..8] == Fixed(sequence, 8);
    assert (Header(sequence, count) + body)[12..] == body;
  }

  lemma {:induction false} Renumbered(sequence: nat, number: nat, count: nat, body: Bytes)
    ensures |Header(sequence, count) + body| >= 8
    ensures Fixed(number, 8) + (Header(sequence, count) + body)[8..] == Header(number, count) + body
  {
    assert (Header(sequence, count) + body)[8..] == Fixed(count, 4) + body;
    Assoc(Fixed(number, 8), Fixed(count, 4), body);
  }

  /** Keys and values whose lengths fit their prefixes. */
  predicate Fits(op: Op) {
    |op.key| < TWO32 && (op.Put? ==> |op.value| < TWO32)
  }

  predicate AllFit(ops: seq<Op>) {
    forall i | 0 <= i < |ops| :: Fits(ops[i])
  }

  lemma {:induction false} AllFitBoth(a: seq<Op>, b: seq<Op>, all: seq<Op>)
    requires AllFit(a) && AllFit(b) && all == a + b
    ensures AllFit(all)
  {
  }

  lemma {:induction false} OpsConcat(a: seq<Op>, b: seq<Op>)
    ensures OpsBytes(a + b) == OpsBytes(a) + OpsBytes(b)
  {
    if a == [] {
      assert a + b == b;
    } else {
      assert (a + b)[1..] == a[1..] + b;
      OpsConcat(a[1..], b);
    }
  }

  lemma {:induction false} Assoc<T>(a: seq<T>, b: seq<T>, c: seq<T>)
    ensures (a + b) + c == a + (b + c)
  {
  }

  lemma {:induction false} Appended<T>(a: seq<T>, b: seq<T>, c: seq<T>, d: seq<T>)
    ensures a + b + c + d == a + (b + (c + d))
  {
  }

  lemma {:induction false} Slices(a: Bytes, b: Bytes, c: Bytes)
    ensures (a + b + c)[..|a|] == a && (a + b + c)[|a|..|a| + |b|] == b && (a + b + c)[|a| + |b|..] == c
    ensures (a + b + c)[|a|..] == b + c
  {
  }

  lemma {:induction false} OneOp(op: Op)
    ensures OpsBytes([op]) == OpBytes(op)
  {
    assert [op][1..] == [];
  }

  lemma {:induction false} HeaderParts(sequence: nat, ops: seq<Op>)
    requires |ops| < TWO32 && sequence < TWO64
    ensures var rep := BatchBytes(sequence, ops);
            && |rep| >= BATCH_HEADER && DecodeFixed(rep[..8]) == sequence && DecodeFixed(rep[8..12]) == |ops|
            && rep[..8] == Fixed(sequence, 8) && rep[12..] == OpsBytes(ops)
  {
    var rep := BatchBytes(sequence, ops);
    Pow256Eight();
    assert Pow256(4) == TWO32;
    FixedRoundTrip(sequence, 8);
    FixedRoundTrip(|ops|, 4);
    Slices(Fixed(sequence, 8), Fixed(|ops|, 4), OpsBytes(ops));
  }

  lemma {:induction false} ZeroFixed(n: nat)
    ensures Fixed(0, n) == seq(n, _ => 0)
  {
    if n > 0 {
      ZeroFixed(n - 1);
    }
  }

  lemma {:induction false} ZeroHeader()
    ensures seq(BATCH_HEADER, _ => 0) == BatchBytes(0, [])
  {
    ZeroFixed(8);
    ZeroFixed(4);
  }

  lemma {:induction false} AppendOps(sequence: nat, ops: seq<Op>, more: seq<Op>, all: seq<Op>)
    requires all == ops + more
    ensures Recount(BatchBytes(sequence, ops), |ops| + |more|) + OpsBytes(more) == BatchBytes(sequence, all)
  {
    OpsConcat(ops, more);
    AppendBytes(sequence, ops, OpsBytes(more), all, |ops| + |more|);
  }

  /** Another batch's operations behind those of this one. */
  lemma {:induction false} AppendsBatch(rep: Bytes, sequence: nat, ops: seq<Op>, added: seq<Op>, body: Bytes, all: seq<Op>, rep': Bytes)
    requires rep == BatchBytes(sequence, ops) && body == OpsBytes(added) && all == ops + added
    requires AllFit(ops) && AllFit(added) && rep' == Recount(rep, |ops| + |added|) + body
    ensures rep' == BatchBytes(sequence, all) && AllFit(all)
  {
    AppendOps(sequence, ops, added, all);
    AllFitBoth(ops, added, all);
  }

  lemma {:induction false} BodyIs(rep: Bytes, sequence: nat, ops: seq<Op>)
    requires rep == BatchBytes(sequence, ops)
    ensures |rep| >= BATCH_HEADER && rep[BATCH_HEADER..] == OpsBytes(ops)
  {
  }

  lemma {:induction false} AppendBytes(sequence: nat, ops: seq<Op>, tail: Bytes, all: seq<Op>, n: nat)
    requires OpsBytes(all) == OpsBytes(ops) + tail && n == |all|
    ensures Recount(BatchBytes(sequence, ops), n) + tail == BatchBytes(sequence, all)
  {
    var head, body, x := Header(sequence, n), OpsBytes(ops), Recount(BatchBytes(sequence, ops), n);
    RecountedBatch(sequence, ops, n);
    assert x == head + body;
    Joined(x, head, body, tail, OpsBytes(all));
  }

  lemma {:induction false} RecountedBatch(sequence: nat, ops: seq<Op>, n: nat)
    ensures Recount(BatchBytes(sequence, ops), n) == Header(sequence, n) + OpsBytes(ops)
  {
    Recounted(sequence, |ops|, n, OpsBytes(ops));
  }

  lemma {:induction false} Joined(x: Bytes, head: Bytes, a: Bytes, b: Bytes, both: Bytes)
    requires x == head + a && both == a + b
    ensures x + b == head + both
  {
    Assoc(head, a, b);
  }

  // ---------- parsing ----------

  /** GetLengthPrefixedSlice consumes at least the length. */
  lemma {:induction false} PrefixConsumes(s: Bytes)
    ensures ParseLengthPrefixed(s).Some? ==> |ParseLengthPrefixed(s).value.1| < |s|
  {
  }

  datatype ParsedOp = One(op: Op, rest: Bytes) | Failed(error: Status)

  function ParseOp(input: Bytes): (r: ParsedOp)
    requires input != []
    ensures r.One? ==> |r.rest| < |input|
  {
    PrefixConsumes(input[1..]);
    if input[0] == 1 then
      match ParseLengthPrefixed(input[1..])
      case None => Failed(BadPut)
      case Some((key, rest)) =>
        PrefixConsumes(rest);
        match ParseLengthPrefixed(rest)
        case None => Failed(BadPut)
        case Some((value, rest')) => One(Put(key, value), rest')
    else if input[0] == 0 then
      match ParseLengthPrefixed(input[1..])
      case None => Failed(BadDelete)
      case Some((key, rest)) => One(Delete(key), rest)
    else Failed(UnknownTag)
  }

  /** What the loop over `input` hands to the handler, and the error that stops it. */
  function Handed(input: Bytes): (r: (seq<Op>, Status))
    decreases |input|
  {
    if input == [] then ([], Ok)
    else match ParseOp(input)
      case Failed(error) => ([], error)
      case One(op, rest) => var (ops, status) := Handed(rest); ([op] + ops, status)
  }

  lemma {:induction false} ParsesOp(op: Op, rest: Bytes)
    requires Fits(op)
    ensures ParseOp(OpBytes(op) + rest) == One(op, rest)
  {
    match op
    case Put(key, value) => ParsesPut(key, value, rest);
    case Delete(key) =>
      var input := OpBytes(op) + rest;
      assert input[0] == 0 && input[1..] == LengthPrefixed(key) + rest;
      LengthPrefixedRoundTrip(key, rest);
  }

  lemma {:induction false} ParsesPut(key: Bytes, value: Bytes, rest: Bytes)
    requires |key| < TWO32 && |value| < TWO32
    ensures ParseOp(OpBytes(Put(key, value)) + rest) == One(Put(key, value), rest)
  {
    var first, second := LengthPrefixed(key), LengthPrefixed(value);
    PutTail(first, second, rest);
    LengthPrefixedRoundTrip(key, second + rest);
    LengthPrefixedRoundTrip(value, rest);
  }

  lemma {:induction false} PutTail(first: Bytes, second: Bytes, rest: Bytes)
    ensures [1] + (first + second) + rest == [1] + (first + (second + rest))
    ensures ([1] + (first + (second + rest)))[1..] == first + (second + rest)
  {
  }

  /** What was written is handed on in order, whatever bytes follow. */
  lemma {:induction false} HandsOnAll(ops: seq<Op>, rest: Bytes)
    requires AllFit(ops)
    ensures Handed(OpsBytes(ops) + rest) == (ops + Handed(rest).0, Handed(rest).1)
  {
    if ops == [] {
      assert OpsBytes(ops) + rest == rest && ops + Handed(rest).0 == Handed(rest).0;
    } else {
      var input := OpsBytes(ops) + rest;
      Assoc(OpBytes(ops[0]), OpsBytes(ops[1..]), rest);
      ParsesOp(ops[0], OpsBytes(ops[1..]) + rest);
      HandsOnAll(ops[1..], rest);
      Assoc([ops[0]], ops[1..], Handed(rest).0);
      assert ops == [ops[0]] + ops[1..];
    }
  }

  // ---------- truncated batches ----------

  lemma {:induction false} CutPut(key: Bytes, value: Bytes, n: nat)
    requires |key| < TWO32 && |value| < TWO32 && n < |LengthPrefixed(key) + LengthPrefixed(value)|
    ensures var s := (LengthPrefixed(key) + LengthPrefixed(value))[..n];
            ParseLengthPrefixed(s).Some? ==> ParseLengthPrefixed(ParseLengthPrefixed(s).value.1) == None
  {
    var first, second := LengthPrefixed(key), LengthPrefixed(value);
    if n < |first| {
      assert (first + second)[..n] == first[..n];
      PrefixedCut(key, n);
    } else {
      assert (first + second)[..n] == first + second[..n - |first|];
      LengthPrefixedRoundTrip(key, second[..n - |first|]);
      PrefixedCut(value, n - |first|);
    }
  }

  lemma {:induction false} CutOp(op: Op, n: nat)
    requires Fits(op) && 0 < n < |OpBytes(op)|
    ensures ParseOp(OpBytes(op)[..n]).Failed? && ParseOp(OpBytes(op)[..n]).error != Ok
  {
    match op
    case Put(key, value) => CutPutOp(key, value, OpBytes(op)[..n]);
    case Delete(key) => CutDeleteOp(key, OpBytes(op)[..n]);
  }

  lemma {:induction false} CutPutOp(key: Bytes, value: Bytes, input: Bytes)
    requires |key| < TWO32 && |value| < TWO32 && input != [] && input < OpBytes(Put(key, value))
    ensures ParseOp(input) == Failed(BadPut)
  {
    var body := LengthPrefixed(key) + LengthPrefixed(value);
    CutPut(key, value, |input| - 1);
    assert input[1..] == body[..|input| - 1];
    assert input[0] == 1;
  }

  lemma {:induction false} CutDeleteOp(key: Bytes, input: Bytes)
    requires |key| < TWO32 && input != [] && input < OpBytes(Delete(key))
    ensures ParseOp(input) == Failed(BadDelete)
  {
    PrefixedCut(key, |input| - 1);
    assert input[1..] == LengthPrefixed(key)[..|input| - 1];
    assert input[0] == 0;
  }

  /** A cut anywhere inside the operations loses at least one of them, and hands on no other. */
  lemma {:induction false} CutHandsOnFewer(ops: seq<Op>, n: nat)
    requires AllFit(ops) && n < |OpsBytes(ops)|
    ensures var (handed, _) := Handed(OpsBytes(ops)[..n]); |handed| < |ops| && handed == ops[..|handed|]
  {
    var first := OpBytes(ops[0]);
    if n < |first| {
      if n > 0 {
        assert OpsBytes(ops)[..n] == first[..n];
        CutOp(ops[0], n);
      }
    } else {
      var rest := OpsBytes(ops[1..])[..n - |first|];
      assert OpsBytes(ops)[..n] == first + rest;
      CutHandsOnFewer(ops[1..], n - |first|);
      OneMoreHanded(ops, rest);
    }
  }

  lemma {:induction false} OneMoreHanded(ops: seq<Op>, rest: Bytes)
    requires ops != [] && Fits(ops[0])
    requires |Handed(rest).0| < |ops| - 1 && Handed(rest).0 == ops[1..][..|Handed(rest).0|]
    ensures var handed := Handed(OpBytes(ops[0]) + rest).0; |handed| < |ops| && handed == ops[..|handed|]
  {
    ParsesOp(ops[0], rest);
    var handed := Handed(rest).0;
    assert [ops[0]] + handed == ops[..1 + |handed|];
  }

  /** A tag that is neither that of a put nor that of a delete stops the iteration, after all that
      precedes it. */
  lemma {:induction false} UnknownTagStops(ops: seq<Op>, tag: Byte, rest: Bytes)
    requires AllFit(ops) && tag > 1
    ensures Handed(OpsBytes(ops) + ([tag] + rest)) == (ops, UnknownTag)
  {
    HandsOnAll(ops, [tag] + rest);
    assert ops + [] == ops;
  }

  // ---------- iterating ----------

  /** The whole of Iterate: the operations handed on and the status. */
  function Iterated(rep: Bytes): (seq<Op>, Status) {
    if |rep| < BATCH_HEADER then ([], TooSmall)
    else
      var (ops, status) := Handed(rep[12..]);
      (ops, if status == Ok && |ops| != DecodeFixed(rep[8..12]) then WrongCount else status)
  }

  /** A batch whose header counts otherwise is handed on in full, and then refused. */
  lemma {:induction false} WrongCountIsNoticed(sequence: nat, count: nat, ops: seq<Op>)
    requires AllFit(ops) && count < TWO32 && sequence < TWO64
    ensures Iterated(Header(sequence, count) + OpsBytes(ops)) == (ops, if count == |ops| then Ok else WrongCount)
  {
    var rep := Header(sequence, count) + OpsBytes(ops);
    assert Pow256(4) == TWO32;
    FixedRoundTrip(count, 4);
    Slices(Fixed(sequence, 8), Fixed(count, 4), OpsBytes(ops));
    HandsOnAll(ops, []);
    assert rep[12..] == OpsBytes(ops) + [] && ops + [] == ops;
  }

  /** Any batch is iterated in full; any strict prefix of one fails after a strict prefix of it,
      or inside the header without a call. */
  lemma {:induction false} IterateWholeOrFail(sequence: nat, ops: seq<Op>, n: nat)
    requires AllFit(ops) && |ops| < TWO32 && sequence < TWO64 && n <= |BatchBytes(sequence, ops)|
    ensures var rep := BatchBytes(sequence, ops);
            var (handed, status) := Iterated(rep[..n]);
            && (status == Ok <==> n == |rep|)
            && |handed| <= |ops| && handed == ops[..|handed|]
            && (n == |rep| ==> handed == ops)
            && (n < |rep| && ops != [] ==> |handed| < |ops|)
  {
    var rep := BatchBytes(sequence, ops);
    if n == |rep| {
      assert rep[..n] == rep && ops[..|ops|] == ops;
      IterateWhole(sequence, ops, rep);
    } else {
      IterateCut(sequence, ops, rep, rep[..n]);
    }
  }

  lemma {:induction false} IterateWhole(sequence: nat, ops: seq<Op>, rep: Bytes)
    requires AllFit(ops) && |ops| < TWO32 && sequence < TWO64 && rep == BatchBytes(sequence, ops)
    ensures Iterated(rep) == (ops, Ok)
  {
    HeaderParts(sequence, ops);
    HandsOnAll(ops, []);
    assert rep[12..] == OpsBytes(ops) + [] && ops + [] == ops;
  }

  lemma {:induction false} IterateCut(sequence: nat, ops: seq<Op>, rep: Bytes, cut: Bytes)
    requires AllFit(ops) && |ops| < TWO32 && sequence < TWO64 && rep == BatchBytes(sequence, ops) && cut < rep
    ensures var (handed, status) := Iterated(cut);
            status != Ok && handed <= ops && (ops != [] ==> |handed| < |ops|)
  {
    if |cut| >= BATCH_HEADER {
      HeaderParts(sequence, ops);
      assert cut[12..] == OpsBytes(ops)[..|cut| - 12] && cut[8..12] == rep[8..12];
      CutHandsOnFewer(ops, |cut| - 12);
    }
  }

  /** MemTableInserter: the operations numbered from the sequence of the batch. */
  function Numbered(sequence: nat, ops: seq<Op>): (r: seq<(nat, Op)>)
    ensures |r| == |ops| && forall i | 0 <= i < |ops| :: r[i] == (sequence + i, ops[i])
  {
    seq(|ops|, i requires 0 <= i < |ops| => (sequence + i, ops[i]))
  }

  lemma {:induction false} NumberedConcat(sequence: nat, a: seq<Op>, b: seq<Op>)
    ensures Numbered(sequence, a + b) == Numbered(sequence, a) + Numbered(sequence + |a|, b)
  {
  }

  lemma {:induction false} OneMore(table: seq<(nat, Op)>, sequence: nat, done: seq<Op>, op: Op)
    ensures table + Numbered(sequence, done) + [(sequence + |done|, op)] == table + Numbered(sequence, done + [op])
  {
  }

  /** After `done` the loop goes on with `input`. */
  predicate HandedSoFar(body: Bytes, done: seq<Op>, input: Bytes) {
    Handed(body).0 == done + Handed(input).0 && Handed(body).1 == Handed(input).1
  }

  lemma {:induction false} HandedFirst(body: Bytes)
    ensures HandedSoFar(body, [], body)
  {
    assert [] + Handed(body).0 == Handed(body).0;
  }

  lemma {:induction false} HandedNext(body: Bytes, done: seq<Op>, input: Bytes, op: Op, rest: Bytes, more: seq<Op>)
    requires HandedSoFar(body, done, input) && input != [] && ParseOp(input) == One(op, rest) && more == done + [op]
    ensures HandedSoFar(body, more, rest)
  {
    Assoc(done, [op], Handed(rest).0);
  }

  /** Nothing left, or an error: that was all. */
  lemma {:induction false} HandedLast(body: Bytes, done: seq<Op>, input: Bytes)
    requires HandedSoFar(body, done, input) && (input == [] || ParseOp(input).Failed?)
    ensures Handed(body) == (done, Handed(input).1)
  {
    assert done + [] == done;
  }

  /** WriteBatchInternal::InsertInto, with the handler's calls in line: what it adds to the table,
      for any bytes whatever, is what precedes the first error. */
  method InsertInto(rep: Bytes, table: seq<(nat, Op)>) returns (result: seq<(nat, Op)>, status: Status)
    ensures status == Iterated(rep).1
    ensures |rep| >= BATCH_HEADER ==> result == table + Numbered(DecodeFixed(rep[..8]), Iterated(rep).0)
    ensures |rep| < BATCH_HEADER ==> result == table
  {
    result := table;
    if |rep| < BATCH_HEADER {
      return result, TooSmall;
    }
    var sequence := DecodeFixed(rep[..8]);
    var body := rep[12..];
    var input, found := body, 0;
    ghost var done: seq<Op> := [];
    HandedFirst(body);
    while input != []
      invariant found == |done| && result == table + Numbered(sequence, done)
      invariant HandedSoFar(body, done, input)
      decreases |input|
    {
      match ParseOp(input) {
        case Failed(error) =>
          HandedLast(body, done, input);
          return result, error;
        case One(op, rest) =>
          OneMore(table, sequence, done, op);
          HandedNext(body, done, input, op, rest, done + [op]);
          result := result + [(sequence + found, op)];
          found := found + 1;
          done := done + [op];
          input := rest;
      }
    }
    HandedLast(body, done, input);
    status := if found != DecodeFixed(rep[8..12]) then WrongCount else Ok;
  }

  class Batch {
    var rep: Bytes
    ghost var sequence: nat
    ghost var ops: seq<Op>

    ghost predicate Valid()
      reads this
    {
      && rep == BatchBytes(sequence, ops) && |ops| < TWO32 && sequence < TWO64 && AllFit(ops)
    }

    constructor ()
      ensures Valid() && ops == [] && sequence == 0
    {
      rep := seq(BATCH_HEADER, _ => 0);
      sequence, ops := 0, [];
      ZeroHeader();
    }

    method Clear()
      modifies this
      ensures Valid() && ops == [] && sequence == 0
    {
      rep := seq(BATCH_HEADER, _ => 0);
      sequence, ops := 0, [];
      ZeroHeader();
    }

    method Count() returns (n: nat)
      requires Valid()
      ensures n == |ops|
    {
      HeaderParts(sequence, ops);
      n := DecodeFixed(rep[8..12]);
    }

    /** ApproximateSize. */
    method Size() returns (n: nat)
      requires Valid()
      ensures n == BATCH_HEADER + |OpsBytes(ops)|
    {
      n := |rep|;
    }

    method SetCount(n: nat)
      requires |rep| >= BATCH_HEADER
      modifies this`rep
      ensures rep == Recount(old(rep), n)
    {
      rep := rep[..8] + Fixed(n, 4) + rep[12..];
    }

    method SetSequence(number: nat)
      requires Valid() && number < TWO64
      modifies this`rep, this`sequence
      ensures Valid() && sequence == number
    {
      Renumbered(sequence, number, |ops|, OpsBytes(ops));
      rep := Fixed(number, 8) + rep[8..];
      sequence := number;
    }

    method AddPut(key: Bytes, value: Bytes)
      requires Valid() && |ops| + 1 < TWO32 && Fits(Put(key, value))
      modifies this
      ensures Valid() && ops == old(ops) + [Put(key, value)] && sequence == old(sequence)
    {
      var n := Count();
      HeaderParts(sequence, ops);
      AppendOps(sequence, ops, [Put(key, value)], ops + [Put(key, value)]);
      OneOp(Put(key, value));
      SetCount(n + 1);
      ghost var head := rep;
      rep := rep + [1];
      rep := rep + LengthPrefixed(key);
      rep := rep + LengthPrefixed(value);
      Appended(head, [1], LengthPrefixed(key), LengthPrefixed(value));
      ops := ops + [Put(key, value)];
    }

    method AddDelete(key: Bytes)
      requires Valid() && |ops| + 1 < TWO32 && Fits(Delete(key))
      modifies this
      ensures Valid() && ops == old(ops) + [Delete(key)] && sequence == old(sequence)
    {
      var n := Count();
      HeaderParts(sequence, ops);
      AppendOps(sequence, ops, [Delete(key)], ops + [Delete(key)]);
      OneOp(Delete(key));
      SetCount(n + 1);
      Assoc(rep, [0], LengthPrefixed(key));
      rep := rep + [0];
      rep := rep + LengthPrefixed(key);
      ops := ops + [Delete(key)];
    }

    /** Append adds the operations of the other batch behind those of this one. */
    method Append(source: Batch)
      requires Valid() && source.Valid() && |ops| + |source.ops| < TWO32
      modifies this
      ensures Valid() && ops == old(ops) + old(source.ops) && sequence == old(sequence)
    {
      var n := Count();
      var more := source.Count();
      BodyIs(source.rep, source.sequence, source.ops);
      Attach(n + more, source.rep[BATCH_HEADER..], source.ops);
    }

    /** The new count and the bytes of more operations. */
    method Attach(n: nat, body: Bytes, ghost added: seq<Op>)
      requires Valid() && AllFit(added) && body == OpsBytes(added) && n == |ops| + |added| < TWO32
      modifies this
      ensures Valid() && ops == old(ops) + added && sequence == old(sequence)
    {
      ghost var before, all := rep, ops + added;
      SetCount(n);
      rep := rep + body;
      AppendsBatch(before, sequence, ops, added, body, all, rep);
      ops := all;
    }
  }
}
