/** The decoding loop of nanopb: the circular field iterator, the bitmap of required fields, and
    pb_decode_noinit over them (pb_common.c, pb_decode.c). */
module NanopbDecode {
  import opened Dbformat
  import opened Coding
  import opened NanopbWire
  import opened Nanopb
  import opened NanopbRoundTrip

  // ---------- the field iterator ----------

  /** pb_field_iter_t. Behind the fields of a descriptor is an entry of tag 0, where the iterator stands
      only if there are no fields. */
  class FieldIter {
    const fields: seq<Field>
    var pos: nat
    var requiredIndex: nat

    ghost predicate Valid()
      reads this
    {
      if fields == [] then pos == 0 && requiredIndex == 0 else pos < |fields| && requiredIndex == RequiredBefore(fields, pos)
    }

    /** pb_field_iter_begin. */
    constructor (fields: seq<Field>)
      ensures Valid() && this.fields == fields && pos == 0
    {
      this.fields, pos, requiredIndex := fields, 0, 0;
    }

    function Tag(): nat
      reads this
    {
      if pos < |fields| then fields[pos].tag else 0
    }

    /** pb_field_iter_next: false when it wraps around to the first field. */
    method Next() returns (more: bool)
      requires Valid()
      modifies this
      ensures Valid() && more == (old(pos) + 1 < |fields|)
      ensures pos == if more then old(pos) + 1 else 0
    {
      if fields == [] {
        return false;
      }
      var previous := fields[pos];
      if pos + 1 == |fields| {
        pos, requiredIndex := 0, 0;
        return false;
      }
      pos := pos + 1;
      if previous.htype.Required? {
        requiredIndex := requiredIndex + 1;
      }
      return true;
    }

    /** pb_field_iter_find: once around from where it is; it stays there if there is no such field. */
    method FindTag(tag: nat) returns (found: bool)
      requires Valid()
      modifies this
      ensures Valid()
      ensures found <==> (exists i :: 0 <= i < |fields| && fields[i].tag == tag) || (fields == [] && tag == 0)
      ensures if found then Tag() == tag else pos == old(pos)
    {
      var start := pos;
      ghost var wrapped := false;
      while true
        invariant Valid()
        invariant if wrapped then pos < start else pos >= start
        invariant forall i | start <= i < |fields| && (wrapped || i < pos) :: fields[i].tag != tag
        invariant wrapped ==> forall i | 0 <= i < pos :: fields[i].tag != tag
        decreases if wrapped then start - pos else |fields| - pos + start
      {
        if Tag() == tag {
          return true;
        }
        var more := Next();
        wrapped := wrapped || !more;
        if pos == start {
          break;
        }
      }
      return false;
    }
  }

  // ---------- the bitmap of required fields ----------

  /** The word whose bit `i` says whether `base + i` is in the set. */
  function Word(seen: set<nat>, base: nat, n: nat): nat
    decreases n
  {
    if n == 0 then 0 else (if base in seen then 1 else 0) + 2 * Word(seen, base + 1, n - 1)
  }

  /** `word | 1 << bit`. */
  function SetBit(word: nat, bit: nat): nat {
    if bit == 0 then word - word % 2 + 1 else word % 2 + 2 * SetBit(word / 2, bit - 1)
  }

  /** `n` one bits. */
  function Ones(n: nat): nat {
    if n == 0 then 0 else 1 + 2 * Ones(n - 1)
  }

  lemma {:induction false} SetsBit(seen: set<nat>, base: nat, n: nat, bit: nat, i: nat)
    requires bit < n && i == base + bit
    ensures SetBit(Word(seen, base, n), bit) == Word(seen + {i}, base, n)
    decreases n
  {
    if bit > 0 {
      SetsBit(seen, base + 1, n - 1, bit - 1, i);
    } else {
      SameWord(seen, seen + {i}, base + 1, n - 1);
    }
  }

  /** Only membership from `base` to `base + n` matters. */
  lemma {:induction false} SameWord(a: set<nat>, b: set<nat>, base: nat, n: nat)
    requires forall i | base <= i < base + n :: i in a <==> i in b
    ensures Word(a, base, n) == Word(b, base, n)
    decreases n
  {
    if n > 0 {
      SameWord(a, b, base + 1, n - 1);
    }
  }

  lemma {:induction false} AllOnes(seen: set<nat>, base: nat, n: nat)
    ensures Word(seen, base, n) <= Ones(n)
    ensures Word(seen, base, n) == Ones(n) <==> forall i | base <= i < base + n :: i in seen
    decreases n
  {
    if n > 0 {
      AllOnes(seen, base + 1, n - 1);
    }
  }

  lemma {:induction false} NoHigherBits(seen: set<nat>, base: nat, k: nat, n: nat)
    requires k <= n && forall i | i in seen :: i < base + k
    ensures Word(seen, base, n) == Word(seen, base, k)
    decreases n
  {
    if k > 0 {
      NoHigherBits(seen, base + 1, k - 1, n - 1);
    } else if n > 0 {
      assert base !in seen;
      NoHigherBits(seen, base + 1, 0, n - 1);
    }
  }

  /** `word >> n`. */
  function ShiftRight(word: nat, n: nat): nat {
    if n == 0 then word else ShiftRight(word / 2, n - 1)
  }

  lemma {:induction false} ShiftsOnes(n: nat, k: nat)
    requires k <= n
    ensures ShiftRight(Ones(n), n - k) == Ones(k)
    decreases n
  {
    if k < n {
      ShiftsOnes(n - 1, k);
    }
  }

  const ALL_BITS: nat := 0xFFFF_FFFF

  lemma {:induction false} AllBitsAre(n: nat)
    requires n == 32
    ensures Ones(n) == ALL_BITS
  {
    assert Ones(8) == 0xFF;
    assert Ones(16) == 0xFFFF;
    assert Ones(24) == 0xFF_FFFF;
    assert Ones(32) == ALL_BITS;
  }

  /** Setting the bit of `i` in its word, the other word staying as it is. */
  lemma {:induction false} MarkedWords(seen: set<nat>, i: nat, width: nat, bit: nat)
    requires i < 2 * width && bit == if i < width then i else i - width
    ensures i < width ==> SetBit(Word(seen, 0, width), bit) == Word(seen + {i}, 0, width)
    ensures i < width ==> Word(seen + {i}, width, width) == Word(seen, width, width)
    ensures i >= width ==> SetBit(Word(seen, width, width), bit) == Word(seen + {i}, width, width)
    ensures i >= width ==> Word(seen + {i}, 0, width) == Word(seen, 0, width)
  {
    if i < width {
      SetsBit(seen, 0, width, bit, i);
      SameWord(seen + {i}, seen, width, width);
    } else {
      SetsBit(seen, width, width, bit, i);
      SameWord(seen + {i}, seen, 0, width);
    }
  }

  /** fields_seen: two words of 32 bits. */
  class SeenFields {
    var word0: nat
    var word1: nat
    ghost const width: nat
    ghost var seen: set<nat>

    ghost predicate Valid()
      reads this
    {
      && width == 32
      && word0 == Word(seen, 0, width) && word1 == Word(seen, width, width) && forall i | i in seen :: i < MAX_REQUIRED_FIELDS
    }

    constructor ()
      ensures Valid() && seen == {}
    {
      word0, word1, seen, width := 0, 0, {}, 32;
      new;
      NoHigherBits({}, 0, 0, width);
      NoHigherBits({}, width, 0, width);
    }

    method Mark(i: nat)
      requires Valid() && i < MAX_REQUIRED_FIELDS
      modifies this
      ensures Valid() && seen == old(seen) + {i}
    {
      var bit := i % 32;
      MarkedWords(seen, i, width, bit);
      if i / 32 == 0 {
        word0 := SetBit(word0, bit);
      } else {
        word1 := SetBit(word1, bit);
      }
      seen := seen + {i};
    }

    /** The check of the first `count` bits: whole words, then the remaining bits of the next one. */
    method Complete(count: nat) returns (all: bool)
      requires Valid() && count <= MAX_REQUIRED_FIELDS && (count > 0 ==> forall i | i in seen :: i < count)
      ensures all <==> forall i | 0 <= i < count :: i in seen
    {
      if count == 0 {
        return true;
      }
      var whole, left := count / 32, count % 32;
      WholeWords(count);
      AllBitsAre(width);
      WordsComplete(seen, count, width, whole, left);
      all := WordsFull(whole, left);
    }

    method WordsFull(whole: nat, left: nat) returns (all: bool)
      requires left < 32
      ensures all == AllSet(word0, word1, whole, left, 32, ALL_BITS)
    {
      if whole >= 1 && word0 != ALL_BITS {
        return false;
      }
      if whole >= 2 && word1 != ALL_BITS {
        return false;
      }
      if left != 0 && (if whole == 0 then word0 else word1) != ShiftRight(ALL_BITS, 32 - left) {
        return false;
      }
      return true;
    }
  }

  lemma {:induction false} WordsComplete(seen: set<nat>, count: nat, width: nat, whole: nat, left: nat)
    requires 0 < width && whole <= 2 && left < width && count <= 2 * width && forall i | i in seen :: i < count
    requires count == (if whole == 0 then 0 else if whole == 1 then width else 2 * width) + left
    ensures (forall i | 0 <= i < count :: i in seen)
      <==> AllSet(Word(seen, 0, width), Word(seen, width, width), whole, left, width, Ones(width))
  {
    AllOnes(seen, 0, width);
    AllOnes(seen, width, width);
    if left != 0 {
      var base := if whole == 0 then 0 else width;
      NoHigherBits(seen, base, left, width);
      AllOnes(seen, base, left);
      ShiftsOnes(width, left);
    }
  }

  /** Whole words have all bits, the next one its lowest `left`. */
  predicate AllSet(word0: nat, word1: nat, whole: nat, left: nat, width: nat, ones: nat)
    requires left < width
  {
    && (whole >= 1 ==> word0 == ones) && (whole >= 2 ==> word1 == ones)
    && (left != 0 ==> (if whole == 0 then word0 else word1) == ShiftRight(ones, width - left))
  }

  lemma {:induction false} WholeWords(count: nat)
    requires count <= 64
    ensures count / 32 <= 2 && count % 32 < 32
    ensures count == (if count / 32 == 0 then 0 else if count / 32 == 1 then 32 else 64) + count % 32
  {
  }

  // ---------- the loop ----------

  lemma {:induction false} RequiredIncreases(fields: seq<Field>, k: nat)
    requires k < |fields| && fields[k].htype.Required?
    ensures RequiredBefore(fields, k) < RequiredBefore(fields, |fields|)
  {
    var n := k + 1;
    while n < |fields|
      invariant k < n <= |fields| && RequiredBefore(fields, k) < RequiredBefore(fields, n)
    {
      n := n + 1;
    }
  }

  /** The number of required fields, found by running the iterator to the end of the descriptor. */
  method CountRequired(iter: FieldIter) returns (count: nat)
    requires iter.Valid()
    modifies iter
    ensures count == RequiredBefore(iter.fields, |iter.fields|)
  {
    var lastRequired := false;
    while true
      invariant iter.Valid()
      decreases |iter.fields| - iter.pos
    {
      count := iter.requiredIndex;
      lastRequired := iter.pos == |iter.fields| || iter.fields[iter.pos].htype.Required?;
      ghost var at := iter.pos;
      var more := iter.Next();
      if !more {
        assert iter.fields != [] ==> at + 1 == |iter.fields|;
        break;
      }
    }
    if lastRequired && iter.fields != [] {
      count := count + 1;
    }
  }

  predicate Distinct(fields: seq<Field>) {
    forall i, j | 0 <= i < j < |fields| :: fields[i].tag != fields[j].tag
  }

  lemma {:induction false} FindIs(fields: seq<Field>, tag: nat, pos: nat)
    requires pos < |fields| && fields[pos].tag == tag
    requires Distinct(fields)
    ensures Find(fields, tag) == pos
  {
    assert fields[Find(fields, tag)].tag == tag;
  }

  lemma {:induction false} SeenUnused(fields: seq<Field>, k: nat, cs: seq<Content>, seen: set<nat>, fixed: Option<nat>)
    requires k < |fields| && |cs| == |fields|
    ensures var a, b := BeginFixed(fields, k, Progress(cs, {}, fixed)), BeginFixed(fields, k, Progress(cs, seen, fixed));
            (a.Some? <==> b.Some?) && (a.Some? ==> b.value == a.value.(seen := seen))
  {
  }

  /** A key that the iterator does not find. */
  lemma {:induction false} FindsNone(fields: seq<Field>, tag: nat)
    requires forall i | 0 <= i < |fields| :: fields[i].tag != tag
    ensures Find(fields, tag) == |fields|
  {
  }

  /** pb_dec_bool, into a message without fields. */
  function TakeBoolean(s: Bytes): Option<Bytes> {
    match DecodeVarint32(s) case None => None case Some((_, rest)) => Some(rest)
  }

  /** One turn of the loop. */
  function Turn(fields: seq<Field>, st: Progress, s: Bytes): (r: Option<(Progress, Bytes)>)
    requires |st.cs| == |fields|
    ensures r.Some? ==> |r.value.0.cs| == |fields| && |r.value.1| < |s|
  {
    match DecodeVarint32(s)
    case None => None
    case Some((key, rest)) =>
      var k := Find(fields, key / 8);
      if k == |fields| then
        (match PassOver(fields, key, rest) case None => None case Some(rest') => Some((PassedOver(fields, key, st), rest')))
      else
        match BeginFixed(fields, k, st)
        case None => None
        case Some(st') =>
          match DecField(fields[k], st'.cs[k], key % 8, rest)
          case None => None
          case Some((c, rest')) => Some((Stored(fields, k, st', c), rest'))
  }

  /** Only bits of required fields are set. */
  ghost predicate SeenFits(fields: seq<Field>, seen: set<nat>) {
    fields != [] ==> forall i | i in seen :: i < RequiredBefore(fields, |fields|)
  }

  /** A key of the field the iterator is on. */
  method TakeField(fields: seq<Field>, iter: FieldIter, bits: SeenFields, key: nat, cs: seq<Content>, fixed: Option<nat>, rest: Bytes)
    returns (ok: bool, cs': seq<Content>, fixed': Option<nat>, input': Bytes)
    requires iter.Valid() && iter.fields == fields && bits.Valid() && |cs| == |fields| && SeenFits(fields, bits.seen)
    requires fields != [] && iter.pos < |fields| && fields[iter.pos].tag == key / 8
    modifies bits
    ensures bits.Valid() && SeenFits(fields, bits.seen) && |cs'| == |fields| && (ok ==> |input'| <= |rest|)
    ensures var k := iter.pos;
            match BeginFixed(fields, k, Progress(cs, old(bits.seen), fixed))
            case None => !ok
            case Some(st) =>
              match DecField(fields[k], st.cs[k], key % 8, rest)
              case None => !ok
              case Some((c, rest')) => ok && input' == rest' && Progress(cs', bits.seen, fixed') == Stored(fields, k, st, c)
  {
    var k := iter.pos;
    ok, cs', fixed', input' := false, cs, fixed, rest;
    var begun := BeginFixed(fields, k, Progress(cs, {}, fixed));
    SeenUnused(fields, k, cs, bits.seen, fixed);
    if begun.None? {
      return;
    }
    cs', fixed' := begun.value.cs, begun.value.fixed;
    if fields[k].htype.Required? && iter.requiredIndex < MAX_REQUIRED_FIELDS {
      RequiredIncreases(fields, k);
      bits.Mark(iter.requiredIndex);
    }
    assert bits.seen == Seen(fields, k, old(bits.seen));
    var decoded := DecField(fields[k], cs'[k], key % 8, rest);
    if decoded.None? {
      return;
    }
    ok, cs', input' := true, Replace(fields, k, cs', decoded.value.0), decoded.value.1;
  }

  /** What one turn of the loop comes to: the end, an error, or less input to go on with. */
  datatype Outcome = Halt | Bad | On(cs: seq<Content>, fixed: Option<nat>, input: Bytes)

  predicate Turned(fields: seq<Field>, st: Progress, input: Bytes, turn: Outcome, seen: set<nat>)
    requires |st.cs| == |fields|
  {
    match DecodeVarint32(input)
    case None => turn == Bad
    case Some((key, _)) =>
      if key == 0 then turn == Halt && seen == st.seen
      else
        match Turn(fields, st, input)
        case None => turn == Bad
        case Some((st', rest)) => turn.On? && st' == Progress(turn.cs, seen, turn.fixed) && turn.input == rest
  }

  /** The turn leaves the rest of the walk to do, or ends it. */
  lemma {:induction false} TurnWalks(fields: seq<Field>, st: Progress, input: Bytes, turn: Outcome, seen: set<nat>)
    requires |st.cs| == |fields| && input != [] && Turned(fields, st, input, turn, seen)
    ensures turn.Halt? ==> Walk(fields, st, input) == Some(st) && seen == st.seen
    ensures turn.Bad? ==> Walk(fields, st, input) == None
    ensures turn.On? ==> |turn.cs| == |fields| && |turn.input| < |input|
    ensures turn.On? ==> Walk(fields, st, input) == Walk(fields, Progress(turn.cs, seen, turn.fixed), turn.input)
  {
  }

  /** A key that no field has. */
  method TakeUnknown(fields: seq<Field>, bits: SeenFields, key: nat, found: bool, rest: Bytes) returns (input: Option<Bytes>)
    requires bits.Valid() && SeenFits(fields, bits.seen) && (found <==> fields == [] && key / 8 == 0)
    modifies bits
    ensures bits.Valid() && SeenFits(fields, bits.seen) && input == PassOver(fields, key, rest)
    ensures bits.seen == if found then old(bits.seen) + {0} else old(bits.seen)
  {
    input := if found then TakeBoolean(rest) else SkipField(rest, key % 8);
    if found {
      bits.Mark(0);
    }
  }

  /** One turn of the loop, for one key of the input. */
  method DecodeNext(fields: seq<Field>, iter: FieldIter, bits: SeenFields, cs: seq<Content>, fixed: Option<nat>, input: Bytes)
    returns (turn: Outcome)
    requires iter.Valid() && iter.fields == fields && bits.Valid() && |cs| == |fields| && SeenFits(fields, bits.seen)
    requires input != [] && Distinct(fields)
    modifies iter, bits
    ensures iter.Valid() && bits.Valid() && SeenFits(fields, bits.seen)
    ensures Turned(fields, Progress(cs, old(bits.seen), fixed), input, turn, bits.seen)
  {
    var parsed := ReadVarint32(input);
    if parsed.None? {
      return Bad;
    }
    var (key, rest) := parsed.value;
    if key == 0 {
      return Halt;
    }
    var found := iter.FindTag(key / 8);
    if found && fields != [] {
      FindIs(fields, key / 8, iter.pos);
      var ok, cs', fixed', input' := TakeField(fields, iter, bits, key, cs, fixed, rest);
      return if ok then On(cs', fixed', input') else Bad;
    }
    FindsNone(fields, key / 8);
    var skipped := TakeUnknown(fields, bits, key, found, rest);
    return if skipped.Some? then On(cs, fixed, skipped.value) else Bad;
  }

  /** pb_decode_noinit: the loop with its iterator and bitmap computes what the recursive definition
      says, for any descriptor and any input. */
  method DecodeNoinit(fields: seq<Field>, initial: seq<Content>, s: Bytes) returns (r: Option<seq<Content>>)
    requires |initial| == |fields| && Distinct(fields)
    ensures r == DecLoop(fields, Progress(initial, {}, None), s)
  {
    var iter := new FieldIter(fields);
    var bits := new SeenFields();
    var cs, fixed, input := initial, None, s;
    while input != []
      invariant iter.Valid() && iter.fields == fields && bits.Valid() && |cs| == |fields| && SeenFits(fields, bits.seen)
      invariant Walk(fields, Progress(cs, bits.seen, fixed), input) == Walk(fields, Progress(initial, {}, None), s)
      decreases |input|
    {
      ghost var st := Progress(cs, bits.seen, fixed);
      var turn := DecodeNext(fields, iter, bits, cs, fixed, input);
      TurnWalks(fields, st, input, turn, bits.seen);
      match turn {
        case Bad => return None;
        case Halt =>
          input := [];
          break;
        case On(cs', fixed', rest) => cs, fixed, input := cs', fixed', rest;
      }
    }
    r := CheckDone(fields, iter, bits, cs, fixed);
  }

  /** The checks after the loop. */
  method CheckDone(fields: seq<Field>, iter: FieldIter, bits: SeenFields, cs: seq<Content>, fixed: Option<nat>)
    returns (r: Option<seq<Content>>)
    requires iter.Valid() && iter.fields == fields && bits.Valid() && |cs| == |fields| && SeenFits(fields, bits.seen)
    modifies iter
    ensures r == Finish(fields, Progress(cs, bits.seen, fixed))
  {
    if !Filled(fields, Progress(cs, {}, fixed)) {
      return None;
    }
    var count := CountRequired(iter);
    if count > MAX_REQUIRED_FIELDS {
      count := MAX_REQUIRED_FIELDS;
    }
    var all := bits.Complete(count);
    return if all then Some(cs) else None;
  }

  lemma {:induction false} RequiredAt(fields: seq<Field>, n: nat, i: nat) returns (k: nat)
    requires n <= |fields| && i < RequiredBefore(fields, n)
    ensures k < n && fields[k].htype.Required? && RequiredBefore(fields, k) == i
    decreases n
  {
    if fields[n - 1].htype.Required? && i == RequiredBefore(fields, n - 1) {
      k := n - 1;
    } else {
      k := RequiredAt(fields, n - 1, i);
    }
  }

  /** The checks after the loop, field by field. */
  lemma {:induction false} FinishesExactlyWhen(fields: seq<Field>, st: Progress)
    requires |st.cs| == |fields|
    ensures Finish(fields, st).Some?
      <==> && Filled(fields, st)
           && forall k | 0 <= k < |fields| && Checked(fields, k) :: RequiredBefore(fields, k) in st.seen
  {
    var count := RequiredBefore(fields, |fields|);
    if Finish(fields, st).Some? {
      forall k | 0 <= k < |fields| && Checked(fields, k) ensures RequiredBefore(fields, k) in st.seen {
        RequiredIncreases(fields, k);
      }
    } else if Filled(fields, st) {
      var i :| 0 <= i < Min(count, MAX_REQUIRED_FIELDS) && i !in st.seen;
      var k := RequiredAt(fields, |fields|, i);
      assert RequiredBefore(fields, k) !in st.seen;
    }
  }

  // ---------- what the input says ----------

  /** One of the first 64 required fields. */
  predicate Checked(fields: seq<Field>, k: nat)
    requires k < |fields|
  {
    fields[k].htype.Required? && RequiredBefore(fields, k) < MAX_REQUIRED_FIELDS
  }

  /** What follows a value of the type in the input. */
  function AfterValue(lt: LType, s: Bytes): (r: Option<Bytes>)
    ensures r.Some? ==> |r.value| < |s|
  {
    match lt
    case BoolType => (match DecodeVarint32(s) case None => None case Some((_, rest)) => Some(rest))
    case SIntType(_) => (match DecodeVarint(s) case None => None case Some((_, rest)) => Some(rest))
    case UIntType(_) => (match DecodeVarint(s) case None => None case Some((_, rest)) => Some(rest))
    case ZigZagType(_) => (match DecodeVarint(s) case None => None case Some((_, rest)) => Some(rest))
    case Fixed32Type => if |s| < 4 then None else Some(s[4..])
    case Fixed64Type => if |s| < 8 then None else Some(s[8..])
    case _ => (match Substream(s) case None => None case Some((_, rest)) => Some(rest))
  }

  /** What follows the field in the input. */
  function AfterField(f: Field, wireType: nat, s: Bytes): (r: Option<Bytes>)
    ensures r.Some? ==> |r.value| < |s|
  {
    if f.htype.Repeated? && wireType == WT_STRING && Packable(f.ltype) then
      (match Substream(s) case None => None case Some((_, rest)) => Some(rest))
    else AfterValue(f.ltype, s)
  }

  /** The first key of the input, and what follows the field it is the key of. */
  function FirstField(fields: seq<Field>, s: Bytes): (r: Option<(nat, Option<Bytes>)>)
    ensures r.Some? && r.value.1.Some? ==> |r.value.1.value| < |s|
  {
    match DecodeVarint32(s)
    case None => None
    case Some((key, rest)) =>
      if key == 0 then None
      else
        var k := Find(fields, key / 8);
        Some((key / 8, if k == |fields| then PassOver(fields, key, rest) else AfterField(fields[k], key % 8, rest)))
  }

  /** The tags of the keys in the input. */
  function TagsIn(fields: seq<Field>, s: Bytes): set<nat>
    decreases |s|
  {
    match FirstField(fields, s)
    case None => {}
    case Some((tag, None)) => {tag}
    case Some((tag, Some(rest))) => {tag} + TagsIn(fields, rest)
  }

  predicate FixedArray(f: Field) {
    f.htype.Repeated? && !f.htype.counted
  }

  /** The array without a count whose key comes last in the input, or else `before`. */
  function LastArray(fields: seq<Field>, before: Option<nat>, s: Bytes): Option<nat>
    decreases |s|
  {
    match FirstField(fields, s)
    case None => before
    case Some((tag, rest)) =>
      var k := Find(fields, tag);
      var now := if k < |fields| && FixedArray(fields[k]) then Some(k) else before;
      match rest case None => now case Some(more) => LastArray(fields, now, more)
  }

  lemma {:induction false} IntAdvances(lt: LType, s: Bytes)
    ensures DecInt(lt, s).Some? ==> AfterValue(lt, s) == Some(DecInt(lt, s).value.1)
  {
  }

  lemma {:induction false} ValueAdvances(lt: LType, prior: Value, s: Bytes)
    ensures DecValue(lt, prior, s).Some? ==> AfterValue(lt, s) == Some(DecValue(lt, prior, s).value.1)
  {
    IntAdvances(lt, s);
  }

  lemma {:induction false} FieldAdvances(f: Field, c: Content, wireType: nat, s: Bytes)
    ensures DecField(f, c, wireType, s).Some? ==> AfterField(f, wireType, s) == Some(DecField(f, c, wireType, s).value.1)
  {
    ValueAdvances(f.ltype, ZeroOf(f.ltype), s);
    if c.Single? {
      ValueAdvances(f.ltype, Prior(f, c), s);
    }
  }

  lemma {:induction false} WalkTurns(fields: seq<Field>, st: Progress, s: Bytes)
    requires |st.cs| == |fields| && FirstField(fields, s).Some?
    ensures match Turn(fields, st, s)
            case None => Walk(fields, st, s) == None
            case Some((st', rest)) => Walk(fields, st, s) == Walk(fields, st', rest)
  {
  }

  lemma {:induction false} WalkEnds(fields: seq<Field>, st: Progress, s: Bytes)
    requires |st.cs| == |fields| && FirstField(fields, s).None? && Walk(fields, st, s).Some?
    ensures Walk(fields, st, s) == Some(st)
  {
  }

  /** What one turn does to the bits and to the array being filled. */
  lemma {:induction false} TurnMarks(fields: seq<Field>, st: Progress, s: Bytes)
    requires |st.cs| == |fields| && FirstField(fields, s).Some? && Turn(fields, st, s).Some?
    ensures var (tag, rest) := FirstField(fields, s).value;
            var st' := Turn(fields, st, s).value.0;
            var k := Find(fields, tag);
            && rest == Some(Turn(fields, st, s).value.1)
            && st'.fixed == (if k < |fields| && FixedArray(fields[k]) then Some(k) else st.fixed)
            && st'.seen == (if k < |fields| && Checked(fields, k) then st.seen + {RequiredBefore(fields, k)}
                            else if fields == [] && tag == 0 then st.seen + {0} else st.seen)
  {
    var (key, rest) := DecodeVarint32(s).value;
    var k := Find(fields, key / 8);
    if k < |fields| {
      FieldAdvances(fields[k], BeginFixed(fields, k, st).value.cs[k], key % 8, rest);
    }
  }

  lemma {:induction false} RequiredDiffer(fields: seq<Field>, k: nat, j: nat)
    requires k < |fields| && j < |fields| && fields[k].htype.Required? && fields[j].htype.Required?
    requires RequiredBefore(fields, k) == RequiredBefore(fields, j)
    ensures k == j
  {
    if k < j {
      RequiredStrict(fields, k, j);
    } else if j < k {
      RequiredStrict(fields, j, k);
    }
  }

  lemma {:induction false} RequiredStrict(fields: seq<Field>, k: nat, n: nat)
    requires k < n <= |fields| && fields[k].htype.Required?
    ensures RequiredBefore(fields, k) < RequiredBefore(fields, n)
  {
    if k + 1 < n {
      RequiredStrict(fields, k, n - 1);
    }
  }

  /** At the end the bit of a required field is set exactly if its key is in the input. */
  lemma {:induction false} WalkSees(fields: seq<Field>, st: Progress, s: Bytes, k: nat)
    requires |st.cs| == |fields| && Distinct(fields) && Walk(fields, st, s).Some? && k < |fields| && Checked(fields, k)
    ensures RequiredBefore(fields, k) in Walk(fields, st, s).value.seen
            <==> RequiredBefore(fields, k) in st.seen || fields[k].tag in TagsIn(fields, s)
    decreases |s|
  {
    if FirstField(fields, s).None? {
      WalkEnds(fields, st, s);
    } else {
      WalkTurns(fields, st, s);
      TurnMarks(fields, st, s);
      var (st', rest) := Turn(fields, st, s).value;
      var j := Find(fields, FirstField(fields, s).value.0);
      WalkSees(fields, st', rest, k);
      FindIs(fields, fields[k].tag, k);
      if j < |fields| && Checked(fields, j) && RequiredBefore(fields, j) == RequiredBefore(fields, k) {
        RequiredDiffer(fields, j, k);
      }
    }
  }

  lemma {:induction false} WalkArrays(fields: seq<Field>, st: Progress, s: Bytes)
    requires |st.cs| == |fields| && Walk(fields, st, s).Some?
    ensures Walk(fields, st, s).value.fixed == LastArray(fields, st.fixed, s)
    decreases |s|
  {
    if FirstField(fields, s).None? {
      WalkEnds(fields, st, s);
    } else {
      WalkTurns(fields, st, s);
      TurnMarks(fields, st, s);
      WalkArrays(fields, Turn(fields, st, s).value.0, Turn(fields, st, s).value.1);
    }
  }

  /** What the fields of the input add up to, when all of them can be read. */
  function Parsed(fields: seq<Field>, s: Bytes): (r: Option<seq<Content>>)
    ensures r.Some? ==> |r.value| == |fields|
  {
    match Walk(fields, Progress(Defaults(fields), {}, None), s) case None => None case Some(end) => Some(end.cs)
  }

  /** The array without a count that comes last in the input has all its items. */
  predicate ArrayComplete(fields: seq<Field>, cs: seq<Content>, s: Bytes)
    requires |cs| == |fields|
  {
    match LastArray(fields, None, s)
    case None => true
    case Some(k) => k < |fields| && fields[k].htype.Repeated? && cs[k].Many? && |cs[k].items| == fields[k].htype.max
  }

  /** An input of which every field can be read is accepted exactly if the key of each of the first 64
      required fields is in it and the array without a count that comes last has all its items: a
      required field beyond the 64th may be missing. */
  lemma {:induction false} AcceptedExactlyWhen(fields: seq<Field>, s: Bytes)
    requires Distinct(fields)
    ensures Decode(fields, s).Some?
      <==> && Parsed(fields, s).Some? && ArrayComplete(fields, Parsed(fields, s).value, s)
           && forall k | 0 <= k < |fields| && Checked(fields, k) :: fields[k].tag in TagsIn(fields, s)
    ensures Decode(fields, s).Some? ==> Decode(fields, s) == Parsed(fields, s)
  {
    var st := Progress(Defaults(fields), {}, None);
    if Walk(fields, st, s).Some? {
      var end := Walk(fields, st, s).value;
      FinishesExactlyWhen(fields, end);
      WalkArrays(fields, st, s);
      forall k | 0 <= k < |fields| && Checked(fields, k)
        ensures RequiredBefore(fields, k) in end.seen <==> fields[k].tag in TagsIn(fields, s)
      {
        WalkSees(fields, st, s, k);
      }
    }
  }

  // ---------- a required field too many ----------

  /** A message of which only the fields from `k` up to `n` are written. */
  function EncRange(fields: seq<Field>, cs: seq<Content>, k: nat, n: nat): Bytes
    requires n <= |fields| && n <= |cs|
    decreases n - k
  {
    if k >= n then [] else EncField(fields[k], cs[k]) + EncRange(fields, cs, k + 1, n)
  }

  lemma {:induction false} ReadsRange(fields: seq<Field>, cs: seq<Content>, k: nat, n: nat, st: Progress) returns (end: Progress)
    requires MessageOk(fields, cs) && k <= n <= |fields| && NanopbRoundTrip.Before(fields, cs, k, st)
    ensures NanopbRoundTrip.Before(fields, cs, n, end) && DecLoop(fields, st, EncRange(fields, cs, k, n)) == Finish(fields, end)
    decreases n - k
  {
    if k == n {
      end := st;
    } else {
      var next := FieldStep(fields, cs, k, st, EncRange(fields, cs, k + 1, n));
      end := ReadsRange(fields, cs, k + 1, n, next);
    }
  }

  lemma {:induction false} RequiredGrows(fields: seq<Field>, n: nat, m: nat)
    requires n <= m <= |fields|
    ensures RequiredBefore(fields, n) <= RequiredBefore(fields, m)
  {
    if n < m {
      RequiredGrows(fields, n, m - 1);
    }
  }

  /** Any message may be cut behind its 64th required field: what is left is accepted. */
  lemma {:induction false} CutIsAccepted(fields: seq<Field>, cs: seq<Content>, n: nat)
    requires MessageOk(fields, cs) && n <= |fields| && RequiredBefore(fields, n) >= MAX_REQUIRED_FIELDS
    ensures Decode(fields, EncRange(fields, cs, 0, n)).Some?
  {
    assert Defaults(fields) == Mixed(fields, cs, 0);
    var end := ReadsRange(fields, cs, 0, n, Progress(Defaults(fields), {}, None));
    RequiredGrows(fields, n, |fields|);
  }

  /** A descriptor with `n` required fields, and a message of it. */
  function RequiredFields(n: nat): seq<Field> {
    seq(n, i requires 0 <= i < n => Field(i + 1, Required, BoolType))
  }

  function Falses(n: nat): seq<Content> {
    seq(n, i => Single(true, Int(0)))
  }

  lemma {:induction false} RequiredCount(n: nat, k: nat)
    requires k <= n
    ensures RequiredBefore(RequiredFields(n), k) == k
    decreases k
  {
    if k > 0 {
      RequiredCount(n, k - 1);
    }
  }

  /** The keys in the cut message are those of the fields in it. */
  /** The key of one field and what follows its value. */
  lemma {:induction false} RangeFirst(n: nat, k: nat, rest: Bytes, input: Bytes)
    requires k < n < 0x2000_0000 - 1 && input == EncField(RequiredFields(n)[k], Falses(n)[k]) + rest
    ensures FirstField(RequiredFields(n), input) == Some((k + 1, Some(rest)))
  {
    var fields, key, value := RequiredFields(n), (k + 1) * 8, Varint(0);
    ReadsVarint32(key, value + rest);
    ReadsVarint32(0, rest);
    FindIs(fields, k + 1, k);
    assert input == Varint(key) + (value + rest);
  }

  lemma {:induction false} FirstTag(fields: seq<Field>, input: Bytes, tag: nat, rest: Bytes)
    requires FirstField(fields, input) == Some((tag, Some(rest)))
    ensures TagsIn(fields, input) == {tag} + TagsIn(fields, rest)
  {
  }

  lemma {:induction false} RangeTags(n: nat, k: nat, m: nat, input: Bytes)
    requires k <= m <= n < 0x2000_0000 - 1 && input == EncRange(RequiredFields(n), Falses(n), k, m)
    ensures forall t | t in TagsIn(RequiredFields(n), input) :: t <= m
    decreases m - k
  {
    if k < m {
      var rest := EncRange(RequiredFields(n), Falses(n), k + 1, m);
      RangeFirst(n, k, rest, input);
      FirstTag(RequiredFields(n), input, k + 1, rest);
      RangeTags(n, k + 1, m, rest);
    }
  }

  lemma {:induction false} RequiredOk(n: nat)
    requires n < 0x2000_0000 - 1
    ensures MessageOk(RequiredFields(n), Falses(n))
  {
  }

  lemma {:induction false} RequiredCut(n: nat, k: nat)
    requires 64 <= k <= n < 0x2000_0000 - 1
    ensures Decode(RequiredFields(n), EncRange(RequiredFields(n), Falses(n), 0, k)).Some?
  {
    RequiredOk(n);
    RequiredCount(n, k);
    CutIsAccepted(RequiredFields(n), Falses(n), k);
  }

  /** Of 65 required fields only the first 64 are written: the key of the last is not in the input, and
      the input is accepted. */
  lemma {:induction false} LastRequiredMissed(n: nat)
    requires n == 65
    ensures var fields, bytes := RequiredFields(n), EncRange(RequiredFields(n), Falses(n), 0, 64);
            && fields[64].htype.Required? && fields[64].tag !in TagsIn(fields, bytes) && Decode(fields, bytes).Some?
  {
    RequiredCut(n, 64);
    RangeTags(n, 0, 64, EncRange(RequiredFields(n), Falses(n), 0, 64));
  }
}
