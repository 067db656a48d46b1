/** The record log: fragments over 32 KiB blocks, written, and read back from any prefix of the
    file (db/log_writer.cc, db/log_reader.cc). */
module Log {
  import opened Dbformat
  import opened Coding

  const BLOCK: nat := 32768
  const HEADER: nat := 7

  datatype RecordType = Zero | Full | First | Middle | Last | Other(code: Byte)

  function Code(t: RecordType): Byte {
    match t case Zero => 0 case Full => 1 case First => 2 case Middle => 3 case Last => 4 case Other(code) => code
  }

  function TypeOf(code: Byte): RecordType {
    if code == 0 then Zero else if code == 1 then Full else if code == 2 then First
    else if code == 3 then Middle else if code == 4 then Last else Other(code)
  }

  /** The checksum the log is written with. */
  datatype Checksum = Checksum(extend: (nat, Bytes) -> nat, mask: nat -> nat, unmask: nat -> nat) {
    ghost predicate Sound() {
      && (forall x: nat, a, b {:trigger extend(extend(x, a), b)} :: extend(extend(x, a), b) == extend(x, a + b))
      && (forall x: nat, a | x < TWO32 :: extend(x, a) < TWO32)
      && forall x: nat | x < TWO32 :: mask(x) < TWO32 && unmask(mask(x)) == x
    }
  }

  // ---------- the format ----------

  function Zeros(n: nat): Bytes {
    seq(n, _ => 0)
  }

  /** Where the next physical record starts: blocks never end in a record of fewer bytes than a header. */
  function NextStart(p: nat): nat {
    if BLOCK - p % BLOCK < HEADER then p + (BLOCK - p % BLOCK) else p
  }

  function Room(q: nat): int {
    BLOCK - q % BLOCK - HEADER
  }

  /** A physical record. */
  function Physical(c: Checksum, t: RecordType, payload: Bytes): (r: Bytes)
    ensures |r| == HEADER + |payload|
  {
    Fixed(c.mask(c.extend(c.extend(0, [Code(t)]), payload)), 4) + [|payload| % 256, |payload| / 256 % 256, Code(t)] + payload
  }

  function FragmentType(begin: bool, end: bool): RecordType {
    if begin && end then Full else if begin then First else if end then Last else Middle
  }

  lemma {:induction false} NextStartFits(p: nat)
    ensures NextStart(p) >= p && Room(NextStart(p)) >= 0
    ensures Room(NextStart(p)) == 0 ==> Room(NextStart(NextStart(p) + HEADER)) > 0
  {
  }

  /** Whether the next physical record can only be a header. */
  function Stuck(p: nat): nat {
    if Room(NextStart(p)) == 0 then 1 else 0
  }

  /** How much of `data` goes into the next physical record. */
  function Taken(p: nat, data: Bytes): (n: nat)
    ensures n <= |data|
  {
    NextStartFits(p);
    if |data| < Room(NextStart(p)) then |data| else Room(NextStart(p))
  }

  /** The next physical record, with the zeros that end the block before it. */
  function Piece(c: Checksum, p: nat, data: Bytes, begin: bool): (r: Bytes)
    ensures |r| == NextStart(p) - p + HEADER + Taken(p, data)
  {
    NextStartFits(p);
    Zeros(NextStart(p) - p) + Physical(c, FragmentType(begin, |data| == Taken(p, data)), data[..Taken(p, data)])
  }

  /** What is written for the rest of a record, from position `p` on. */
  function Fragments(c: Checksum, p: nat, data: Bytes, begin: bool): Bytes
    decreases |data|, Stuck(p)
  {
    NextStartFits(p);
    var n := Taken(p, data);
    if n == |data| then Piece(c, p, data, begin)
    else Piece(c, p, data, begin) + Fragments(c, NextStart(p) + HEADER + n, data[n..], false)
  }

  /** The log of the first `n` records. */
  function Image(c: Checksum, records: seq<Bytes>, n: nat): Bytes
    requires n <= |records|
  {
    if n == 0 then [] else
      var before := Image(c, records, n - 1);
      before + Fragments(c, |before|, records[n - 1], true)
  }

  // ---------- writing ----------

  class Writer {
    const checksum: Checksum
    var dest: Bytes /* the file, from its beginning */
    var pending: Bytes /* handed over, but not yet flushed to the file */
    var blockOffset: nat
    ghost var at: nat /* where the file would end if every append had succeeded */

    ghost predicate Valid()
      reads this
    {
      blockOffset <= BLOCK && blockOffset % BLOCK == at % BLOCK
    }

    constructor (checksum: Checksum, dest: Bytes)
      ensures Valid() && this.checksum == checksum && this.dest == dest && pending == [] && at == |dest|
    {
      this.checksum, this.dest, pending, blockOffset, at := checksum, dest, [], |dest| % BLOCK, |dest|;
    }

    /** WritableFile::Flush. The file takes `reach` bytes before an error, if any; what it did not take
        is forgotten. */
    method Flush(reach: Option<nat>) returns (ok: bool, reach': Option<nat>)
      modifies this`dest, this`pending
      ensures ok <==> Reached(old(pending), reach)
      ensures dest == old(dest) + Landed(old(pending), reach) && pending == []
      ensures ok ==> reach' == Left(reach, |old(pending)|)
    {
      ok := reach.None? || |pending| <= reach.value;
      dest := dest + if ok then pending else pending[..reach.value];
      reach' := if ok then Left(reach, |pending|) else Some(0);
      pending := [];
    }

    /** Fill the end of a block too small for a header. */
    method SwitchBlock()
      requires Valid()
      modifies this`pending, this`blockOffset, this`at
      ensures Valid() && at == NextStart(old(at)) && pending == old(pending) + Zeros(at - old(at))
      ensures BLOCK - blockOffset - HEADER == Room(at) >= 0
    {
      NextStartFits(at);
      var leftover := BLOCK - blockOffset;
      if leftover < HEADER {
        if leftover > 0 {
          pending := pending + Zeros(leftover);
        }
        blockOffset, at := 0, at + leftover;
      }
    }

    /** One fragment: as much of the rest of the record as the block takes. */
    method EmitFragment(left: Bytes, begin: bool, reach: Option<nat>) returns (n: nat, ok: bool, reach': Option<nat>)
      requires Valid() && pending == []
      modifies this
      ensures Valid() && pending == [] && n == Taken(old(at), left)
      ensures var piece := Piece(checksum, old(at), left, begin);
              && at == old(at) + |piece| && (ok <==> Reached(piece, reach))
              && dest == old(dest) + Landed(piece, reach) && (ok ==> reach' == Left(reach, |piece|))
    {
      NextStartFits(at);
      SwitchBlock();
      var avail := BLOCK - blockOffset - HEADER;
      n := if |left| < avail then |left| else avail;
      assert n == Taken(old(at), left);
      ghost var was, before := pending, dest;
      ok, reach' := EmitPhysicalRecord(FragmentType(begin, |left| == n), left[..n], reach);
      assert was + Physical(checksum, FragmentType(begin, |left| == n), left[..n]) == Piece(checksum, old(at), left, begin);
      assert dest == before + Landed(Piece(checksum, old(at), left, begin), reach);
    }

    /** One round of the loop: a fragment less to come. */
    method EmitNext(left: Bytes, begin: bool, reach: Option<nat>, ghost coming: Bytes)
      returns (rest: Bytes, ok: bool, reach': Option<nat>, ghost coming': Bytes)
      requires Valid() && pending == [] && Comes(checksum, at, left, begin, true, coming)
      modifies this
      ensures Valid() && pending == [] && at + |coming'| == old(at) + |coming| && at > old(at)
      ensures ok ==> Reached(coming, reach) == Reached(coming', reach') && dest + Landed(coming', reach') == old(dest) + Landed(coming, reach)
      ensures ok && reach.Some? ==> reach'.Some? && old(at) + reach.value == at + reach'.value
      ensures ok ==> (reach.None? <==> reach'.None?)
      ensures !ok ==> !Reached(coming, reach) && dest == old(dest) + Landed(coming, reach) && old(at) + reach.value < at
      ensures Comes(checksum, at, rest, false, rest != [], coming') && rest == left[Taken(old(at), left)..]
      ensures rest == [] || |rest| < |left| || (|rest| == |left| && Stuck(at) < Stuck(old(at)))
    {
      ghost var was, piece := at, Piece(checksum, at, left, begin);
      coming' := UnfoldFragments(checksum, was, left, begin, coming);
      ghost var before := dest;
      var n;
      n, ok, reach' := EmitFragment(left, begin, reach);
      LandedPieces(before, piece, coming', reach);
      rest := left[n..];
    }

    /** AddRecord: at least one fragment, even for an empty record. It stops at the first error, and then
        the file ends wherever the error left it, while the writer goes on as if all had been written. */
    method AddRecord(data: Bytes, reach: Option<nat>) returns (ok: bool)
      requires Valid() && pending == []
      modifies this
      ensures Valid() && pending == []
      ensures var w := Fragments(checksum, old(at), data, true);
              && (ok <==> Reached(w, reach)) && dest == old(dest) + Landed(w, reach)
              && (ok ==> at == old(at) + |w|)
              && (!ok ==> old(at) + reach.value < at <= old(at) + |w|)
              && (Taken(old(at), data) == |data| ==> at == old(at) + |w|)
    {
      var left, begin, more, reach' := data, true, true, reach;
      ghost var coming := Fragments(checksum, at, data, true);
      ghost var w := coming;
      ok := true;
      while more
        invariant Valid() && pending == []
        invariant Comes(checksum, at, left, begin, begin || left != [], coming) && at + |coming| == old(at) + |w|
        invariant ok ==> more == (begin || left != [])
        invariant if begin then left == data && at == old(at) else Taken(old(at), data) == |data| ==> left == []
        invariant ok ==> Reached(coming, reach') == Reached(w, reach) && dest + Landed(coming, reach') == old(dest) + Landed(w, reach)
        invariant ok ==> (reach.None? <==> reach'.None?) && (reach.Some? ==> old(at) + reach.value == at + reach'.value)
        invariant !ok ==> !more && !Reached(w, reach) && dest == old(dest) + Landed(w, reach)
        invariant !ok ==> old(at) + reach.value < at <= old(at) + |w|
        decreases more, |left|, Stuck(at)
      {
        left, ok, reach', coming := EmitNext(left, begin, reach', coming);
        begin, more := false, ok && left != [];
      }
    }

    /** The header and the payload, handed over and flushed; the offset moves on even when that fails. */
    method EmitPhysicalRecord(t: RecordType, payload: Bytes, reach: Option<nat>) returns (ok: bool, reach': Option<nat>)
      requires Valid() && blockOffset + HEADER + |payload| <= BLOCK
      modifies this
      ensures Valid() && pending == [] && blockOffset == old(blockOffset) + HEADER + |payload| && at == old(at) + HEADER + |payload|
      ensures var w := old(pending) + Physical(checksum, t, payload);
              && (ok <==> Reached(w, reach)) && dest == old(dest) + Landed(w, reach) && (ok ==> reach' == Left(reach, |w|))
    {
      var crc := checksum.mask(checksum.extend(checksum.extend(0, [Code(t)]), payload));
      ghost var was := pending;
      pending := pending + (Fixed(crc, 4) + [|payload| % 256, |payload| / 256 % 256, Code(t)]);
      pending := pending + payload;
      assert pending == was + Physical(checksum, t, payload);
      ok, reach' := Flush(reach);
      blockOffset, at := blockOffset + HEADER + |payload|, at + HEADER + |payload|;
    }
  }

  /** Whether a file that takes `reach` bytes before an error takes all of `w`. */
  predicate Reached(w: Bytes, reach: Option<nat>) {
    reach.None? || |w| <= reach.value
  }

  /** What of `w` gets into the file. */
  function Landed(w: Bytes, reach: Option<nat>): (r: Bytes)
    ensures r <= w
  {
    if reach.None? || |w| <= reach.value then w else w[..reach.value]
  }

  function Left(reach: Option<nat>, n: nat): Option<nat>
    requires reach.None? || n <= reach.value
  {
    match reach case None => None case Some(r) => Some(r - n)
  }

  lemma {:induction false} LandedPieces(before: Bytes, piece: Bytes, rest: Bytes, reach: Option<nat>)
    ensures !Reached(piece, reach) ==> !Reached(piece + rest, reach) && Landed(piece + rest, reach) == Landed(piece, reach)
    ensures Reached(piece, reach) ==>
              var left := Left(reach, |piece|);
              && Reached(piece + rest, reach) == Reached(rest, left)
              && before + Landed(piece, reach) + Landed(rest, left) == before + Landed(piece + rest, reach)
  {
    if Reached(piece, reach) {
      var left := Left(reach, |piece|);
      assert piece + Landed(rest, left) == Landed(piece + rest, reach);
      Associate(before, piece, Landed(rest, left));
    }
  }

  lemma {:induction false} Associate(a: Bytes, b: Bytes, c: Bytes)
    ensures a + b + c == a + (b + c)
  {
  }

  /** `bytes` are still to be written. */
  ghost predicate Comes(c: Checksum, p: nat, data: Bytes, begin: bool, more: bool, bytes: Bytes) {
    bytes == if more then Fragments(c, p, data, begin) else []
  }

  /** The first piece of the fragments, and the rest of them. */
  lemma {:induction false} UnfoldFragments(c: Checksum, p: nat, data: Bytes, begin: bool, coming: Bytes) returns (rest: Bytes)
    requires Comes(c, p, data, begin, true, coming)
    ensures var n, piece := Taken(p, data), Piece(c, p, data, begin);
            && coming == piece + rest
            && Comes(c, p + |piece|, data[n..], false, n < |data|, rest)
            && (n == 0 < |data| ==> Stuck(p + |piece|) < Stuck(p))
  {
    NextStartFits(p);
    rest := if Taken(p, data) == |data| then [] else Fragments(c, p + |Piece(c, p, data, begin)|, data[Taken(p, data)..], false);
  }
}
