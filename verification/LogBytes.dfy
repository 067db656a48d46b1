/** What a file of any bytes holds for a reader of the record log: at one place, and over the places
    that a record is put together from (db/log_format.h, db/log_reader.cc). */
module LogBytes {
  import opened Dbformat
  import opened Coding
  import opened Log

  // ---------- one place ----------

  predicate HasHeader(file: Bytes, q: nat) {
    q + HEADER <= |file|
  }

  /** The length that the header at `q` claims. */
  function Length(file: Bytes, q: nat): nat
    requires HasHeader(file, q)
  {
    file[q + 4] as nat + 256 * file[q + 5] as nat
  }

  /** Where the block of `q` ends. */
  function BlockEnd(q: nat): nat {
    q - q % BLOCK + BLOCK
  }

  /** Where the data of the block of `q` ends. */
  function DataEnd(file: Bytes, q: nat): nat {
    if BlockEnd(q) <= |file| then BlockEnd(q) else |file|
  }

  /** The block holds all that the header at `q` claims. */
  predicate Inside(file: Bytes, q: nat) {
    HasHeader(file, q) && q + HEADER + Length(file, q) <= DataEnd(file, q)
  }

  /** The file ends within the block, before what the header at `q` claims or within that header. */
  predicate Torn(file: Bytes, q: nat) {
    |file| < BlockEnd(q) && (HasHeader(file, q) ==> |file| < q + HEADER + Length(file, q))
  }

  /** The block is all there, and the header at `q` claims more than it holds. */
  predicate Overlong(file: Bytes, q: nat) {
    HasHeader(file, q) && BlockEnd(q) <= |file| && BlockEnd(q) < q + HEADER + Length(file, q)
  }

  /** A header of zeros, as space that was allocated ahead gives it. */
  predicate Filler(file: Bytes, q: nat) {
    Inside(file, q) && file[q + 6] == 0 && Length(file, q) == 0
  }

  /** The checksum in the header at `q` is that of the type and the `length` bytes behind it. */
  predicate CrcHolds(c: Checksum, file: Bytes, q: nat, length: nat)
    requires q + HEADER + length <= |file|
  {
    c.unmask(DecodeFixed(file[q..q + 4])) == c.extend(0, file[q + 6..q + HEADER + length])
  }

  /** A fragment whose checksum is wrong. */
  predicate Damaged(c: Checksum, file: Bytes, q: nat) {
    Inside(file, q) && !Filler(file, q) && !CrcHolds(c, file, q, Length(file, q))
  }

  /** A fragment to be returned, if checksums are verified or not. */
  predicate Intact(c: Checksum, file: Bytes, verify: bool, q: nat) {
    Inside(file, q) && !Filler(file, q) && (verify ==> CrcHolds(c, file, q, Length(file, q)))
  }

  /** The damaged fragment is in the last block of the file. */
  predicate LastDamaged(c: Checksum, file: Bytes, q: nat) {
    Damaged(c, file, q) && |file| <= BlockEnd(q)
  }

  /** The bytes at `q` are this physical record, within its block; under a right checksum if that is verified. */
  ghost predicate Found(c: Checksum, file: Bytes, verify: bool, q: nat, t: RecordType, fragment: Bytes) {
    && HasHeader(file, q) && Length(file, q) == |fragment| && q + HEADER + |fragment| <= DataEnd(file, q)
    && file[q + 6] == Code(t) && file[q + HEADER..q + HEADER + |fragment|] == fragment
    && (verify ==> CrcHolds(c, file, q, |fragment|))
  }

  // ---------- reading at one place ----------

  datatype Outcome = Record(t: RecordType, fragment: Bytes) | Eof | Bad

  const EOF_CODE: nat := 5 /* kEof, one more than the last record type */
  const BAD_CODE: nat := 6 /* kBadRecord */

  /** What reading the physical record at `q` tells, moving to `pos`: only what the bytes there are is
      returned, and everything there that cannot be is passed over as the block demands. */
  ghost predicate Told(c: Checksum, file: Bytes, verify: bool, q: nat, r: Outcome, pos: int, reported: int) {
    && (r.Record? ==> Found(c, file, verify, q, r.t, r.fragment) && pos == q + HEADER + |r.fragment|)
    && (Intact(c, file, verify, q) ==>
          && r == Returned(file[q + 6], file[q + HEADER..q + HEADER + Length(file, q)])
          && pos == q + HEADER + Length(file, q) && reported == 0)
    && (verify && Damaged(c, file, q) ==> r.Bad? && pos == DataEnd(file, q) && reported == 1)
    && (Filler(file, q) ==> r.Bad? && pos == DataEnd(file, q) && reported == 0)
    && (Overlong(file, q) ==> r.Bad? && pos == BlockEnd(q) && reported == 1)
    && (Torn(file, q) ==> r.Eof? && reported == 0)
  }

  /** What an intact fragment is returned as: two type codes are those the reader uses for its own results. */
  function Returned(code: Byte, fragment: Bytes): Outcome {
    if code == EOF_CODE then Eof else if code == BAD_CODE then Bad else Record(TypeOf(code), fragment)
  }

  lemma {:induction false} RoomToEnd(q: nat)
    ensures q + HEADER + Room(q) == BlockEnd(q)
  {
  }

  // ---------- the places of one record ----------

  datatype Part = Part(at: nat, t: RecordType, data: Bytes)

  function End(part: Part): nat {
    part.at + HEADER + |part.data|
  }

  function Joined(parts: seq<Part>): Bytes {
    if parts == [] then [] else Joined(parts[..|parts| - 1]) + parts[|parts| - 1].data
  }

  /** Fragments that the file holds, each at the place that comes next after the one before. */
  ghost predicate Row(c: Checksum, file: Bytes, verify: bool, parts: seq<Part>) {
    && (forall i | 0 <= i < |parts| :: Found(c, file, verify, parts[i].at, parts[i].t, parts[i].data))
    && forall i: nat | 0 < i < |parts| :: Adjoins(parts, i)
  }

  predicate Adjoins(parts: seq<Part>, i: nat)
    requires 0 < i < |parts|
  {
    parts[i].at == NextStart(End(parts[i - 1]))
  }

  /** The first begins the record, and only the last ends it, if one does. */
  predicate Typed(parts: seq<Part>, closed: bool) {
    forall i | 0 <= i < |parts| :: parts[i].t == FragmentType(i == 0, closed && i == |parts| - 1)
  }

  /** `data` is put together from the parts: all of a record, or, when not closed, the beginning of one. */
  ghost predicate Assembled(c: Checksum, file: Bytes, verify: bool, parts: seq<Part>, closed: bool, data: Bytes) {
    parts != [] && Row(c, file, verify, parts) && Typed(parts, closed) && data == Joined(parts)
  }

  lemma {:induction false} OnePart(c: Checksum, file: Bytes, verify: bool, part: Part, closed: bool)
    requires Found(c, file, verify, part.at, part.t, part.data) && part.t == FragmentType(true, closed)
    ensures Assembled(c, file, verify, [part], closed, part.data)
  {
    assert [part][..0] == [];
  }

  lemma {:induction false} OnePartMore(c: Checksum, file: Bytes, verify: bool, parts: seq<Part>, data: Bytes, part: Part, closed: bool)
    requires Assembled(c, file, verify, parts, false, data)
    requires Found(c, file, verify, part.at, part.t, part.data) && part.t == FragmentType(false, closed)
    requires part.at == NextStart(End(parts[|parts| - 1]))
    ensures Assembled(c, file, verify, parts + [part], closed, data + part.data)
  {
    var all := parts + [part];
    assert all[..|all| - 1] == parts;
    forall i | 0 <= i < |all| ensures Found(c, file, verify, all[i].at, all[i].t, all[i].data) {
      assert i < |parts| ==> all[i] == parts[i];
    }
    forall i: nat | 0 < i < |all| ensures Adjoins(all, i) {
      assert i < |parts| ==> Adjoins(parts, i);
    }
  }

  /** The parts all lie before `p`. */
  predicate EndsBy(parts: seq<Part>, p: int) {
    parts != [] && End(parts[|parts| - 1]) <= p
  }

  predicate Later(parts: seq<Part>, others: seq<Part>) {
    others != [] && EndsBy(parts, others[0].at)
  }

  /** Each record is put together from parts of the file, and later ones from later parts. */
  ghost predicate AllAssembled(c: Checksum, file: Bytes, verify: bool, from: seq<seq<Part>>, records: seq<Bytes>) {
    && |from| == |records|
    && (forall i | 0 <= i < |from| :: Assembled(c, file, verify, from[i], true, records[i]))
    && forall i, j | 0 <= i < j < |from| :: Later(from[i], from[j])
  }

  /** Only parts before `p` are used. */
  predicate UpTo(from: seq<seq<Part>>, p: int) {
    forall i | 0 <= i < |from| :: EndsBy(from[i], p)
  }

  lemma {:induction false} RecordMore(c: Checksum, file: Bytes, verify: bool, from: seq<seq<Part>>, records: seq<Bytes>,
                                      parts: seq<Part>, record: Bytes, p: int)
    requires AllAssembled(c, file, verify, from, records) && UpTo(from, p)
    requires Assembled(c, file, verify, parts, true, record) && p <= parts[0].at
    ensures AllAssembled(c, file, verify, from + [parts], records + [record])
  {
    var all, rs := from + [parts], records + [record];
    forall i | 0 <= i < |all| ensures Assembled(c, file, verify, all[i], true, rs[i]) {
      if i < |from| {
        assert all[i] == from[i] && rs[i] == records[i];
      }
    }
    forall i, j | 0 <= i < j < |all| ensures Later(all[i], all[j]) {
      assert all[i] == from[i] && EndsBy(from[i], p);
      if j < |from| {
        assert all[j] == from[j];
      }
    }
  }

  lemma {:induction false} UpToMore(from: seq<seq<Part>>, p: int, parts: seq<Part>, pos: int)
    requires UpTo(from, p) && EndsBy(parts, pos) && p <= pos
    ensures UpTo(from + [parts], pos)
  {
    forall i | 0 <= i < |from| + 1 ensures EndsBy((from + [parts])[i], pos) {
      assert i < |from| ==> (from + [parts])[i] == from[i] && EndsBy(from[i], p);
    }
  }
}
