/** Where a compaction closes its output tables (db/db_impl.cc, db/version_set.cc). */
module CompactionCuts {
  import opened Dbformat
  import opened Version

  // ---------- the keys before which a table is to be closed ----------

  /** The bytes of the files from `a` up to `b`. */
  function SizeBetween(files: seq<File>, a: nat, b: nat): nat
    requires a <= b <= |files|
  {
    if a == b then 0 else SizeBetween(files, a, b - 1) + files[b - 1].size
  }

  /** `n` is the place of the first file that does not end before the key. */
  ghost predicate PassedBy(files: seq<File>, key: InternalKey, n: nat)
    requires ValidFiles(files)
  {
    && n <= |files| && (forall i | 0 <= i < n :: Less(files[i].Largest(), key))
    && (n < |files| ==> !Less(files[n].Largest(), key))
  }

  function PassedFiles(files: seq<File>, key: InternalKey): (n: nat)
    requires ValidFiles(files)
    ensures PassedBy(files, key, n)
  {
    if files == [] || !Less(files[0].Largest(), key) then 0
    else
      assert ValidFiles(files[1..]);
      1 + PassedFiles(files[1..], key)
  }

  lemma {:induction false} PassedByUnique(files: seq<File>, key: InternalKey, m: nat, n: nat)
    requires ValidFiles(files) && PassedBy(files, key, m) && PassedBy(files, key, n)
    ensures m == n
  {
  }

  lemma {:induction false} LessTransits(a: InternalKey, b: InternalKey, c: InternalKey)
    requires Less(a, b) && Less(b, c)
    ensures Less(a, c)
  {
  }

  lemma {:induction false} PassedMore(files: seq<File>, k: InternalKey, k': InternalKey)
    requires ValidFiles(files) && Less(k, k')
    ensures PassedFiles(files, k) <= PassedFiles(files, k')
    ensures forall i | 0 <= i < PassedFiles(files, k) :: Less(files[i].Largest(), k')
  {
    forall i | 0 <= i < PassedFiles(files, k) ensures Less(files[i].Largest(), k') {
      LessTransits(files[i].Largest(), k, k');
    }
  }

  /** The grandparents and how many bytes of them one output table may overlap. */
  datatype Limits = Limits(grandparents: seq<File>, maxOverlap: nat)

  /** More grandparents lie between the first and the last of these places than one table may overlap. */
  predicate Over(l: Limits, a: nat, b: nat) {
    a <= b <= |l.grandparents| && SizeBetween(l.grandparents, a, b) > l.maxOverlap
  }

  /** The grandparents passed at the last key up to `i` that was to begin a table; the first key always is. */
  function Since(l: Limits, input: seq<Entry>, i: nat): nat
    requires ValidFiles(l.grandparents) && i < |input|
  {
    if i == 0 || Over(l, Since(l, input, i - 1), PassedFiles(l.grandparents, input[i].key)) then
      PassedFiles(l.grandparents, input[i].key)
    else Since(l, input, i - 1)
  }

  /** Before this key a table is to be closed: since the first key, or the last such one, more grandparents
      were passed than one table may overlap. */
  predicate StopsAt(l: Limits, input: seq<Entry>, i: nat)
    requires ValidFiles(l.grandparents) && i < |input|
  {
    i > 0 && Over(l, Since(l, input, i - 1), PassedFiles(l.grandparents, input[i].key))
  }

  lemma {:induction false} SincePassed(l: Limits, input: seq<Entry>, i: nat)
    requires ValidFiles(l.grandparents) && i < |input| && Ordered(input)
    ensures Since(l, input, i) <= PassedFiles(l.grandparents, input[i].key)
  {
    if i > 0 {
      SincePassed(l, input, i - 1);
      assert Before(input[i - 1], input[i]);
      PassedMore(l.grandparents, input[i - 1].key, input[i].key);
    }
  }

  function Stops(l: Limits, input: seq<Entry>): (r: seq<bool>)
    requires ValidFiles(l.grandparents)
    ensures |r| == |input|
  {
    seq(|input|, i requires 0 <= i < |input| => StopsAt(l, input, i))
  }

  // ---------- tables ----------

  /** How large a table of some entries is, and how large it may become. */
  datatype Size = Size(of: seq<Entry> -> nat, max: nat)

  /** There is a stop behind the key at `a` and not behind the one at `b`. */
  predicate StopIn(stops: seq<bool>, a: int, b: int) {
    exists i | 0 <= i < |stops| :: a < i <= b && stops[i]
  }

  /** The entries stand in the input at these places. */
  predicate InPlace(input: seq<Entry>, out: seq<Entry>, at: seq<nat>) {
    |at| == |out| && forall j | 0 <= j < |out| :: at[j] < |input| && input[at[j]] == out[j]
  }

  /** No reason to close the table within it: no proper part of it from its beginning is large enough, and
      no stop lies between its entries. */
  predicate Unbroken(size: Size, stops: seq<bool>, out: seq<Entry>, at: seq<nat>) {
    |at| == |out| && forall n | 0 < n < |out| :: size.of(out[..n]) < size.max && !StopIn(stops, at[n - 1], at[n])
  }

  /** A table of the output, with the places of its entries. */
  predicate IsTable(size: Size, stops: seq<bool>, input: seq<Entry>, out: seq<Entry>, at: seq<nat>) {
    InPlace(input, out, at) && Unbroken(size, stops, out, at)
  }

  /** A reason to close the table before the key at `next`: it is large enough, or there is a stop. */
  predicate Full(size: Size, stops: seq<bool>, out: seq<Entry>, at: seq<nat>, next: int) {
    size.of(out) >= size.max || (at != [] && StopIn(stops, at[|at| - 1], next))
  }

  /** The tables are closed where there is a reason to, and only there. */
  predicate WellCut(size: Size, stops: seq<bool>, input: seq<Entry>, outs: seq<seq<Entry>>, ats: seq<seq<nat>>) {
    && |ats| == |outs| && (forall k | 0 <= k < |outs| :: outs[k] != [] && IsTable(size, stops, input, outs[k], ats[k]))
    && forall k | 0 < k < |outs| :: |ats[k]| > 0 && Full(size, stops, outs[k - 1], ats[k - 1], ats[k][0])
  }

  /** The tables closed so far and the one under construction, stops being looked at up to `p`. */
  predicate Cutting(size: Size, stops: seq<bool>, input: seq<Entry>, outs: seq<seq<Entry>>, ats: seq<seq<nat>>,
                    builder: seq<Entry>, now: seq<nat>, p: int)
  {
    && WellCut(size, stops, input, outs, ats) && IsTable(size, stops, input, builder, now)
    && (builder != [] ==> size.of(builder) < size.max && now[|now| - 1] <= p && !StopIn(stops, now[|now| - 1], p))
    && (outs != [] ==> Full(size, stops, outs[|outs| - 1], ats[|ats| - 1], if builder == [] then p else now[0]))
  }

  lemma {:induction false} NothingCut(size: Size, stops: seq<bool>, input: seq<Entry>, outs: seq<seq<Entry>>, ats: seq<seq<nat>>,
                                      builder: seq<Entry>, now: seq<nat>)
    requires outs == [] && ats == [] && builder == [] && now == []
    ensures Cutting(size, stops, input, outs, ats, builder, now, -1)
  {
  }

  lemma {:induction false} StopMore(stops: seq<bool>, a: int, b: int, c: int)
    requires b <= c && StopIn(stops, a, b)
    ensures StopIn(stops, a, c)
  {
    var i :| 0 <= i < |stops| && a < i <= b && stops[i];
  }

  lemma {:induction false} FullMore(size: Size, stops: seq<bool>, out: seq<Entry>, at: seq<nat>, p: int, q: int)
    requires p <= q && Full(size, stops, out, at, p)
    ensures Full(size, stops, out, at, q)
  {
    if size.of(out) < size.max {
      StopMore(stops, at[|at| - 1], p, q);
    }
  }

  /** The next key is no stop, or there is nothing to close. */
  lemma {:induction false} CutNothing(size: Size, stops: seq<bool>, input: seq<Entry>, outs: seq<seq<Entry>>, ats: seq<seq<nat>>,
                                      builder: seq<Entry>, now: seq<nat>, p: int)
    requires Cutting(size, stops, input, outs, ats, builder, now, p) && 0 <= p + 1 < |stops| && (builder == [] || !stops[p + 1])
    ensures Cutting(size, stops, input, outs, ats, builder, now, p + 1)
  {
    if outs != [] && builder == [] {
      FullMore(size, stops, outs[|outs| - 1], ats[|ats| - 1], p, p + 1);
    }
  }

  lemma {:induction false} ClosedWellCut(size: Size, stops: seq<bool>, input: seq<Entry>, outs: seq<seq<Entry>>, ats: seq<seq<nat>>,
                                         builder: seq<Entry>, now: seq<nat>)
    requires WellCut(size, stops, input, outs, ats) && IsTable(size, stops, input, builder, now) && builder != []
    requires outs != [] ==> Full(size, stops, outs[|outs| - 1], ats[|ats| - 1], now[0])
    ensures WellCut(size, stops, input, outs + [builder], ats + [now])
  {
    var all, places := outs + [builder], ats + [now];
    forall k | 0 <= k < |all| ensures all[k] != [] && IsTable(size, stops, input, all[k], places[k]) {
      assert k < |outs| ==> all[k] == outs[k] && places[k] == ats[k];
    }
    forall k | 0 < k < |all| ensures |places[k]| > 0 && Full(size, stops, all[k - 1], places[k - 1], places[k][0]) {
      assert all[k - 1] == outs[k - 1] && places[k - 1] == ats[k - 1];
      assert k < |outs| ==> places[k] == ats[k];
    }
  }

  /** The next key is a stop, and the table under construction is closed before it. */
  lemma {:induction false} CutAtStop(size: Size, stops: seq<bool>, input: seq<Entry>, outs: seq<seq<Entry>>, ats: seq<seq<nat>>,
                                     builder: seq<Entry>, now: seq<nat>, p: int)
    requires Cutting(size, stops, input, outs, ats, builder, now, p) && 0 <= p + 1 < |stops| && builder != [] && stops[p + 1]
    ensures Cutting(size, stops, input, outs + [builder], ats + [now], [], [], p + 1)
  {
    ClosedWellCut(size, stops, input, outs, ats, builder, now);
  }

  /** An entry more. */
  lemma {:induction false} TableMore(size: Size, stops: seq<bool>, input: seq<Entry>, builder: seq<Entry>, now: seq<nat>, p: nat)
    requires IsTable(size, stops, input, builder, now) && p < |input|
    requires builder != [] ==> size.of(builder) < size.max && !StopIn(stops, now[|now| - 1], p)
    ensures IsTable(size, stops, input, builder + [input[p]], now + [p])
  {
    var out, at := builder + [input[p]], now + [p];
    forall n | 0 < n < |out| ensures size.of(out[..n]) < size.max && !StopIn(stops, at[n - 1], at[n]) {
      assert out[..n] == builder[..n];
      if n == |builder| {
        assert builder[..n] == builder;
      }
    }
  }

  lemma {:induction false} CutNotYet(size: Size, stops: seq<bool>, input: seq<Entry>, outs: seq<seq<Entry>>, ats: seq<seq<nat>>,
                                     builder: seq<Entry>, now: seq<nat>, p: nat)
    requires Cutting(size, stops, input, outs, ats, builder, now, p) && p < |input| && size.of(builder + [input[p]]) < size.max
    ensures Cutting(size, stops, input, outs, ats, builder + [input[p]], now + [p], p)
  {
    TableMore(size, stops, input, builder, now, p);
  }

  lemma {:induction false} CutAtSize(size: Size, stops: seq<bool>, input: seq<Entry>, outs: seq<seq<Entry>>, ats: seq<seq<nat>>,
                                     builder: seq<Entry>, now: seq<nat>, p: nat)
    requires Cutting(size, stops, input, outs, ats, builder, now, p) && p < |input| && size.of(builder + [input[p]]) >= size.max
    ensures Cutting(size, stops, input, outs + [builder + [input[p]]], ats + [now + [p]], [], [], p)
  {
    TableMore(size, stops, input, builder, now, p);
    ClosedWellCut(size, stops, input, outs, ats, builder + [input[p]], now + [p]);
  }

  // ---------- the cuts are decided ----------

  function Concat(outputs: seq<seq<Entry>>): seq<Entry> {
    if outputs == [] then [] else Concat(outputs[..|outputs| - 1]) + outputs[|outputs| - 1]
  }

  lemma {:induction false} ConcatLast(outs: seq<seq<Entry>>, init: seq<seq<Entry>>, last: seq<Entry>)
    requires outs == init + [last]
    ensures Concat(outs) == Concat(init) + last
  {
    assert outs[..|outs| - 1] == init;
  }

  lemma {:induction false} ConcatFront(outs: seq<seq<Entry>>)
    requires outs != []
    ensures Concat(outs) == outs[0] + Concat(outs[1..])
  {
    var init, last := outs[..|outs| - 1], outs[|outs| - 1];
    assert outs == init + [last];
    ConcatLast(outs, init, last);
    if init != [] {
      ConcatFront(init);
      assert outs[1..] == init[1..] + [last];
      ConcatLast(outs[1..], init[1..], last);
      Regroup(outs[0], Concat(init[1..]), last);
    }
  }

  lemma {:induction false} Regroup(a: seq<Entry>, b: seq<Entry>, c: seq<Entry>)
    ensures (a + b) + c == a + (b + c)
  {
  }

  lemma {:induction false} PlaceUnique(input: seq<Entry>, a: seq<Entry>, at: seq<nat>, b: seq<Entry>, bt: seq<nat>, i: nat, j: nat)
    requires Ordered(input) && InPlace(input, a, at) && InPlace(input, b, bt) && i < |a| && j < |b| && a[i] == b[j]
    ensures at[i] == bt[j]
  {
  }

  /** A table cannot go on where another was closed. */
  lemma {:induction false} NotLonger(size: Size, stops: seq<bool>, input: seq<Entry>, outs: seq<seq<Entry>>, ats: seq<seq<nat>>,
                                     long: seq<Entry>, at: seq<nat>)
    requires Ordered(input) && outs != [] && WellCut(size, stops, input, outs, ats) && IsTable(size, stops, input, long, at)
    requires outs[0] <= long && |outs[0]| < |long| && (|outs| > 1 ==> outs[1][0] == long[|outs[0]|])
    ensures |outs| == 1
  {
    if |outs| > 1 {
      var n := |outs[0]|;
      assert long[..n] == outs[0];
      PlaceUnique(input, outs[0], ats[0], long, at, n - 1, n - 1);
    }
  }

  lemma {:induction false} WellCutRest(size: Size, stops: seq<bool>, input: seq<Entry>, outs: seq<seq<Entry>>, ats: seq<seq<nat>>)
    requires WellCut(size, stops, input, outs, ats) && outs != []
    ensures WellCut(size, stops, input, outs[1..], ats[1..])
  {
    forall k | 0 < k < |outs[1..]| ensures |ats[1..][k]| > 0 && Full(size, stops, outs[1..][k - 1], ats[1..][k - 1], ats[1..][k][0]) {
      assert outs[1..][k - 1] == outs[k] && ats[1..][k - 1] == ats[k] && ats[1..][k] == ats[k + 1];
    }
  }

  lemma {:induction false} FirstNotShorter(size: Size, stops: seq<bool>, input: seq<Entry>, a: seq<seq<Entry>>, at: seq<seq<nat>>,
                                           b: seq<seq<Entry>>, bt: seq<seq<nat>>)
    requires Ordered(input) && a != [] && b != [] && WellCut(size, stops, input, a, at) && WellCut(size, stops, input, b, bt)
    requires Concat(a) == Concat(b)
    ensures |a[0]| >= |b[0]|
  {
    ConcatFront(a);
    ConcatFront(b);
    assert a[0] == Concat(a)[..|a[0]|] && b[0] == Concat(b)[..|b[0]|];
    if |a| > 1 {
      ConcatFront(a[1..]);
      assert a[1][0] == Concat(a)[|a[0]|];
    }
    if |a[0]| < |b[0]| {
      NotLonger(size, stops, input, a, at, b[0], bt[0]);
    }
  }

  /** Whatever is cut where there is a reason to, and only there, is cut in the same places. */
  lemma {:induction false} CutsUnique(size: Size, stops: seq<bool>, input: seq<Entry>, a: seq<seq<Entry>>, at: seq<seq<nat>>,
                                      b: seq<seq<Entry>>, bt: seq<seq<nat>>)
    requires Ordered(input) && WellCut(size, stops, input, a, at) && WellCut(size, stops, input, b, bt) && Concat(a) == Concat(b)
    ensures a == b
    decreases |a|
  {
    if a != [] {
      ConcatFront(a);
    }
    if b != [] {
      ConcatFront(b);
    }
    if a != [] && b != [] {
      FirstNotShorter(size, stops, input, a, at, b, bt);
      FirstNotShorter(size, stops, input, b, bt, a, at);
      assert a[0] == Concat(a)[..|a[0]|] && Concat(a[1..]) == Concat(a)[|a[0]|..];
      assert b[0] == Concat(b)[..|b[0]|] && Concat(b[1..]) == Concat(b)[|b[0]|..];
      WellCutRest(size, stops, input, a, at);
      WellCutRest(size, stops, input, b, bt);
      CutsUnique(size, stops, input, a[1..], at[1..], b[1..], bt[1..]);
    }
  }
}
