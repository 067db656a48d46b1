/** The two-way cursor over the keys a snapshot sees (db/db_iter.cc). */
module DbIter {
  import opened Dbformat

  // ---------- the snapshot view ----------

  predicate Seen(es: seq<Entry>, snap: nat, i: nat)
    requires i < |es|
  {
    es[i].key.sequence <= snap
  }

  /** Entry `i` is the newest visible version of its user key, and not a deletion. */
  predicate Live(es: seq<Entry>, snap: nat, i: nat)
    requires i < |es|
  {
    && Seen(es, snap, i) && es[i].key.typ.Value?
    && forall j | 0 <= j < i && Seen(es, snap, j) :: es[j].key.ukey != es[i].key.ukey
  }

  /** The view of the snapshot: the indices of the live entries below `n`, in order. */
  function View(es: seq<Entry>, snap: nat, n: nat): (r: seq<nat>)
    requires n <= |es|
    ensures forall k | 0 <= k < |r| :: r[k] < n && Live(es, snap, r[k])
  {
    if n == 0 then []
    else if Live(es, snap, n - 1) then View(es, snap, n - 1) + [n - 1]
    else View(es, snap, n - 1)
  }

  lemma {:induction false} ViewPrefix(es: seq<Entry>, snap: nat, m: nat, n: nat)
    requires m <= n <= |es|
    ensures View(es, snap, m) <= View(es, snap, n)
    ensures (forall i | m <= i < n :: !Live(es, snap, i)) ==> View(es, snap, n) == View(es, snap, m)
  {
    if m < n {
      ViewPrefix(es, snap, m, n - 1);
    }
  }

  /** A live entry's place in the view. */
  lemma {:induction false} Placed(es: seq<Entry>, snap: nat, i: nat)
    requires i < |es| && Live(es, snap, i)
    ensures var k := |View(es, snap, i)|; k < |View(es, snap, |es|)| && View(es, snap, |es|)[k] == i
  {
    ViewPrefix(es, snap, i + 1, |es|);
    assert View(es, snap, i + 1)[|View(es, snap, i)|] == i;
  }

  /** The view lists every live entry, by ascending user key. */
  lemma {:induction false} ViewAscends(es: seq<Entry>, snap: nat, j: nat, k: nat)
    requires Ordered(es) && j < k < |View(es, snap, |es|)|
    ensures var v := View(es, snap, |es|); v[j] < v[k] && es[v[j]].key.ukey < es[v[k]].key.ukey
  {
    IndicesAscend(es, snap, |es|, j, k);
    var v := View(es, snap, |es|);
    assert Before(es[v[j]], es[v[k]]) && Live(es, snap, v[k]) && Live(es, snap, v[j]);
  }

  lemma {:induction false} IndicesAscend(es: seq<Entry>, snap: nat, n: nat, j: nat, k: nat)
    requires n <= |es| && j < k < |View(es, snap, n)|
    ensures View(es, snap, n)[j] < View(es, snap, n)[k]
  {
    if n > 0 && k < |View(es, snap, n - 1)| {
      IndicesAscend(es, snap, n - 1, j, k);
    }
  }

  /** The view is what reads return: a key is in it exactly when a read at the snapshot finds a
      value, and then with that value. */
  lemma {:induction false} ViewIsRead(es: seq<Entry>, snap: nat, u: UserKey, val: Bytes)
    requires Ordered(es)
    ensures Read(Elements(es), u, snap) == Some(val) <==>
            exists k :: 0 <= k < |View(es, snap, |es|)|
                        && es[View(es, snap, |es|)[k]].key.ukey == u && es[View(es, snap, |es|)[k]].val == val
  {
    var s, v := Elements(es), View(es, snap, |es|);
    SeekFindsNewest(es, u, snap);
    NewestNone(s, u, snap);
    if Read(s, u, snap) == Some(val) {
      var i := SeekIndex(es, LookupKey(u, snap));
      assert es[i] in s && forall j | 0 <= j < i :: Less(es[j].key, LookupKey(u, snap));
      Placed(es, snap, i);
    }
    forall k | 0 <= k < |v| && es[v[k]].key.ukey == u ensures Read(s, u, snap) == Some(es[v[k]].val) {
      LiveIsNewest(es, snap, v[k]);
      NewestIs(es[v[k]], s, u, snap);
    }
  }

  lemma {:induction false} LiveIsNewest(es: seq<Entry>, snap: nat, i: nat)
    requires Ordered(es) && i < |es| && Live(es, snap, i)
    ensures IsNewest(es[i], Elements(es), es[i].key.ukey, snap)
  {
    forall d | d in Elements(es) && Visible(d, es[i].key.ukey, snap) ensures d.key.sequence <= es[i].key.sequence {
      var j :| 0 <= j < |es| && es[j] == d;
      assert Seen(es, snap, j);
      assert i <= j;
    }
  }

  // ---------- scanning forward ----------

  /** User key `u` is to be skipped. */
  predicate Hides(skip: Option<UserKey>, u: UserKey) {
    skip.Some? && u <= skip.value
  }

  /** `c` is the first live entry from `p` on whose key is not hidden by `skip`. */
  ghost predicate FirstAfter(es: seq<Entry>, snap: nat, p: nat, skip: Option<UserKey>, c: nat) {
    && p <= c <= |es|
    && (c < |es| ==> Live(es, snap, c) && !Hides(skip, es[c].key.ukey))
    && forall i | p <= i < c :: Live(es, snap, i) ==> Hides(skip, es[i].key.ukey)
  }

  /** Everything visible before `p` is hidden or of an earlier key; what is visible from `p` on
      is not before the hidden keys. */
  ghost predicate SkipInv(es: seq<Entry>, snap: nat, p: nat, skip: Option<UserKey>)
    requires p <= |es|
  {
    && (forall j, i | 0 <= j < p <= i < |es| && Seen(es, snap, j) ::
          Hides(skip, es[j].key.ukey) || es[j].key.ukey < es[i].key.ukey)
    && (skip.Some? ==> forall i | p <= i < |es| && Seen(es, snap, i) :: es[i].key.ukey >= skip.value)
  }

  /** What the scan has established on reaching `at`. */
  ghost predicate Scanned(es: seq<Entry>, snap: nat, start: nat, skip: Option<UserKey>, at: nat, skip1: Option<UserKey>) {
    && start <= at <= |es| && SkipInv(es, snap, at, skip1)
    && (skip.Some? ==> skip1.Some? && skip1.value >= skip.value)
    && (forall i | start <= i < at :: Live(es, snap, i) ==> Hides(skip, es[i].key.ukey))
    && (forall i | at <= i < |es| && Live(es, snap, i) && Hides(skip1, es[i].key.ukey) :: Hides(skip, es[i].key.ukey))
  }

  lemma {:induction false} SkipPassed(es: seq<Entry>, snap: nat, start: nat, skip: Option<UserKey>, at: nat, skip1: Option<UserKey>)
    requires Ordered(es) && at < |es| && Scanned(es, snap, start, skip, at, skip1)
    requires Seen(es, snap, at) ==> Hides(skip1, es[at].key.ukey)
    ensures Scanned(es, snap, start, skip, at + 1, skip1)
  {
  }

  lemma {:induction false} DeletionPassed(es: seq<Entry>, snap: nat, start: nat, skip: Option<UserKey>, at: nat, skip1: Option<UserKey>)
    requires Ordered(es) && at < |es| && Scanned(es, snap, start, skip, at, skip1)
    requires Seen(es, snap, at) && es[at].key.typ.Deletion?
    ensures Scanned(es, snap, start, skip, at + 1, Some(es[at].key.ukey))
  {
    var skip2 := Some(es[at].key.ukey);
    forall i | at < i < |es| ensures es[at].key.ukey <= es[i].key.ukey
      ensures Live(es, snap, i) ==> es[i].key.ukey != es[at].key.ukey
    {
      assert Before(es[at], es[i]);
    }
    forall j | 0 <= j < at ensures es[j].key.ukey <= es[at].key.ukey {
      assert Before(es[j], es[at]);
    }
  }

  lemma {:induction false} FoundLive(es: seq<Entry>, snap: nat, start: nat, skip: Option<UserKey>, at: nat, skip1: Option<UserKey>)
    requires Ordered(es) && at < |es| && Scanned(es, snap, start, skip, at, skip1)
    requires Seen(es, snap, at) && es[at].key.typ.Value? && !Hides(skip1, es[at].key.ukey)
    ensures FirstAfter(es, snap, start, skip, at)
  {
  }

  // ---------- scanning backward ----------

  /** What the backward scan from `start` has established on reaching `p`: nothing live has been
      passed except perhaps the newest version visited, `c`. */
  ghost predicate ScannedBack(es: seq<Entry>, snap: nat, start: int, p: int, value: bool, c: nat) {
    && -1 <= p <= start < |es|
    && (value ==> p < c <= start && Seen(es, snap, c) && es[c].key.typ.Value?
                  && forall j | p < j < c :: !Seen(es, snap, j))
    && forall i | p < i <= start && Live(es, snap, i) :: value && i == c
  }

  /** `c` is the last live entry at or before `start`, if there is one. */
  ghost predicate LastBefore(es: seq<Entry>, snap: nat, start: int, found: bool, c: nat)
    requires start < |es|
  {
    && (found ==> c <= start && Live(es, snap, c))
    && forall i | 0 <= i <= start && Live(es, snap, i) :: found && i <= c
  }

  lemma {:induction false} BackPassed(es: seq<Entry>, snap: nat, start: int, p: nat, value: bool, c: nat)
    requires Ordered(es) && ScannedBack(es, snap, start, p, value, c)
    requires Seen(es, snap, p) && value ==> es[p].key.ukey == es[c].key.ukey
    ensures if Seen(es, snap, p) then ScannedBack(es, snap, start, p - 1, es[p].key.typ.Value?, p)
            else ScannedBack(es, snap, start, p - 1, value, c)
  {
  }

  lemma {:induction false} BackFound(es: seq<Entry>, snap: nat, start: int, p: int, value: bool, c: nat)
    requires Ordered(es) && ScannedBack(es, snap, start, p, value, c)
    requires p == -1 || (value && es[p].key.ukey < es[c].key.ukey)
    ensures LastBefore(es, snap, start, value, c) && (value ==> Behind(es, snap, p, c))
  {
    if value {
      forall j | 0 <= j < c && Seen(es, snap, j) ensures es[j].key.ukey < es[c].key.ukey {
        assert j < p ==> Before(es[j], es[p]);
      }
    }
  }

  /** `p` is before every entry of the user key of `c`, and everything between it and `c` is newer
      than the snapshot. */
  ghost predicate Behind(es: seq<Entry>, snap: nat, p: int, c: nat) {
    && -1 <= p < c < |es| && (p >= 0 ==> es[p].key.ukey < es[c].key.ukey)
    && forall k | p < k < c :: !Seen(es, snap, k)
  }

  // ---------- the cursor ----------

  datatype Direction = Forward | Reverse

  class DBIter {
    const es: seq<Entry>
    const snap: nat
    var pos: int /* of the internal iterator, -1 when it is not valid */
    var direction: Direction
    var valid: bool
    var savedKey: Option<UserKey> /* None when cleared */
    var savedValue: Bytes
    ghost var cur: nat /* the entry whose key and value the iterator yields */

    ghost predicate Valid()
      reads this
    {
      && Ordered(es) && -1 <= pos < |es|
      && (valid ==> cur < |es| && Live(es, snap, cur))
      && (valid && direction.Forward? ==> pos == cur)
      && (valid && direction.Reverse? ==> Behind(es, snap, pos, cur) && savedKey == Some(es[cur].key.ukey) && savedValue == es[cur].val)
    }

    /** The current place in the view. */
    ghost function Index(): nat
      requires Valid() && valid
      reads this
    {
      |View(es, snap, cur)|
    }

    ghost function Pairs(): seq<nat>
      reads this
    {
      View(es, snap, |es|)
    }

    constructor (es: seq<Entry>, snap: nat)
      requires Ordered(es)
      ensures Valid() && !valid && this.es == es && this.snap == snap
    {
      this.es, this.snap := es, snap;
      pos, direction, valid, savedKey, savedValue := -1, Forward, false, None, [];
    }

    method Key() returns (u: UserKey)
      requires Valid() && valid
      ensures Index() < |Pairs()| && u == es[Pairs()[Index()]].key.ukey
    {
      Placed(es, snap, cur);
      return if direction.Forward? then es[pos].key.ukey else savedKey.value;
    }

    method Value() returns (v: Bytes)
      requires Valid() && valid
      ensures Index() < |Pairs()| && v == es[Pairs()[Index()]].val
    {
      Placed(es, snap, cur);
      return if direction.Forward? then es[pos].val else savedValue;
    }

    // ---------- the internal iterator ----------

    method IterNext()
      requires 0 <= pos < |es|
      modifies this`pos
      ensures pos == if old(pos) + 1 < |es| then old(pos) + 1 else -1
    {
      pos := if pos + 1 < |es| then pos + 1 else -1;
    }

    method IterPrev()
      requires 0 <= pos < |es|
      modifies this`pos
      ensures pos == old(pos) - 1
    {
      pos := pos - 1;
    }

    // ---------- searching for the next and the previous user key ----------

    method FindNextUserEntry(skipping: bool, ghost skip: Option<UserKey>) returns (ghost c: nat)
      requires Ordered(es) && 0 <= pos < |es| && direction.Forward?
      requires (skipping ==> savedKey.Some?) && skip == if skipping then savedKey else None
      requires SkipInv(es, snap, pos, skip)
      modifies this
      ensures Valid() && direction.Forward?
      ensures FirstAfter(es, snap, old(pos), skip, c) && if c < |es| then valid && cur == c else !valid
    {
      ghost var start, at := pos, pos;
      var skipping1 := skipping;
      while true
        invariant at < |es| && pos == at && direction.Forward? && (skipping1 ==> savedKey.Some?)
        invariant Scanned(es, snap, start, skip, at, if skipping1 then savedKey else None)
        decreases |es| - at
      {
        ghost var skip1 := if skipping1 then savedKey else None;
        if es[pos].key.sequence <= snap {
          match es[pos].key.typ {
            case Deletion =>
              DeletionPassed(es, snap, start, skip, at, skip1);
              savedKey := Some(es[pos].key.ukey);
              skipping1 := true;
            case Value =>
              if skipping1 && es[pos].key.ukey <= savedKey.value {
                SkipPassed(es, snap, start, skip, at, skip1);
              } else {
                FoundLive(es, snap, start, skip, at, skip1);
                valid, savedKey := true, None;
                cur, c := at, at;
                return;
              }
          }
        } else {
          SkipPassed(es, snap, start, skip, at, skip1);
        }
        IterNext();
        at := at + 1;
        if pos < 0 {
          break;
        }
      }
      savedKey, valid := None, false;
      c := |es|;
    }

    method FindPrevUserEntry() returns (ghost c: nat)
      requires Ordered(es) && -1 <= pos < |es| && direction.Reverse?
      modifies this
      ensures Valid() && (valid ==> direction.Reverse? && cur == c)
      ensures LastBefore(es, snap, old(pos), valid, c)
    {
      ghost var start := pos;
      var valueType := Deletion;
      c := 0;
      while pos >= 0
        invariant -1 <= pos <= start && direction.Reverse?
        invariant ScannedBack(es, snap, start, pos, valueType.Value?, c)
        invariant valueType.Value? ==> savedKey == Some(es[c].key.ukey) && savedValue == es[c].val
        decreases pos
      {
        if es[pos].key.sequence <= snap {
          if valueType.Value? && es[pos].key.ukey < savedKey.value {
            break;
          }
          assert valueType.Value? ==> pos < c && Before(es[pos], es[c]);
          BackPassed(es, snap, start, pos, valueType.Value?, c);
          valueType := es[pos].key.typ;
          c := pos;
          if valueType.Deletion? {
            savedKey, savedValue := None, [];
          } else {
            savedKey, savedValue := Some(es[pos].key.ukey), es[pos].val;
          }
        } else {
          BackPassed(es, snap, start, pos, valueType.Value?, c);
        }
        IterPrev();
      }
      BackFound(es, snap, start, pos, valueType.Value?, c);
      if valueType.Deletion? {
        valid, savedKey, savedValue, direction := false, None, [], Forward;
      } else {
        valid := true;
        cur := c;
      }
    }

    // ---------- the public operations ----------

    /** Next moves one place down the view, whichever way the iterator was moving. */
    method Next()
      requires Valid() && valid
      modifies this
      ensures Valid() && (valid <==> old(Index()) + 1 < |Pairs()|)
      ensures valid ==> Index() == old(Index()) + 1
    {
      ghost var was := cur;
      if direction.Reverse? {
        direction := Forward;
        if pos < 0 {
          pos := 0;
        } else {
          IterNext();
        }
      } else {
        savedKey := Some(es[pos].key.ukey);
        IterNext();
      }
      if pos < 0 {
        valid, savedKey := false, None;
        LastInView(es, snap, was);
        return;
      }
      ghost var start := pos;
      NextSkips(es, snap, was, start);
      ghost var c := FindNextUserEntry(true, savedKey);
      NextInView(es, snap, was, start, c);
    }

    /** Prev moves one place up the view, whichever way the iterator was moving. */
    method Prev()
      requires Valid() && valid
      modifies this
      ensures Valid() && (valid <==> old(Index()) > 0)
      ensures valid ==> Index() == old(Index()) - 1
    {
      ghost var was := cur;
      if direction.Forward? {
        savedKey := Some(es[pos].key.ukey);
        while true
          invariant 0 <= pos <= was && valid && savedKey == Some(es[was].key.ukey) && direction.Forward?
          invariant forall k | pos <= k <= was :: es[k].key.ukey == es[was].key.ukey
          decreases pos
        {
          IterPrev();
          if pos < 0 {
            valid, savedKey, savedValue := false, None, [];
            PrevInView(es, snap, was, -1, false, 0);
            return;
          }
          if es[pos].key.ukey < savedKey.value {
            break;
          }
          assert Before(es[pos], es[was]);
        }
        direction := Reverse;
      }
      ghost var start := pos;
      ghost var c := FindPrevUserEntry();
      PrevInView(es, snap, was, start, valid, c);
    }

    /** Seek lands on the first pair of the view at or after the target. */
    method Seek(target: UserKey)
      requires Valid()
      modifies this
      ensures Valid() && (!valid ==> forall k | 0 <= k < |Pairs()| :: es[Pairs()[k]].key.ukey < target)
      ensures valid ==> Index() < |Pairs()| && es[Pairs()[Index()]].key.ukey >= target
                        && forall k | 0 <= k < Index() :: es[Pairs()[k]].key.ukey < target
    {
      direction, savedValue, savedKey := Forward, [], None;
      var p := SeekIndex(es, LookupKey(target, snap));
      pos := if p < |es| then p else -1;
      SeekSkips(es, snap, target);
      if pos >= 0 {
        ghost var c := FindNextUserEntry(false, None);
        SeekInView(es, snap, target, c);
      } else {
        valid := false;
        SeekInView(es, snap, target, |es|);
      }
    }

    method SeekToFirst()
      requires Valid()
      modifies this
      ensures Valid() && (valid <==> Pairs() != []) && (valid ==> Index() == 0)
    {
      direction, savedValue := Forward, [];
      pos := if es == [] then -1 else 0;
      if pos >= 0 {
        ghost var c := FindNextUserEntry(false, None);
        ViewPrefix(es, snap, 0, c);
        if c < |es| {
          Placed(es, snap, c);
        }
      } else {
        valid := false;
      }
    }

    method SeekToLast()
      requires Valid()
      modifies this
      ensures Valid() && (valid <==> Pairs() != []) && (valid ==> Index() == |Pairs()| - 1)
    {
      direction, savedValue := Reverse, [];
      pos := |es| - 1;
      ghost var c := FindPrevUserEntry();
      if valid {
        ViewPrefix(es, snap, c + 1, |es|);
      } else {
        ViewPrefix(es, snap, 0, |es|);
      }
    }
  }

  // ---------- places in the view ----------

  lemma {:induction false} LastInView(es: seq<Entry>, snap: nat, was: nat)
    requires was < |es| && Live(es, snap, was) && was == |es| - 1
    ensures |View(es, snap, |es|)| == |View(es, snap, was)| + 1
  {
  }

  /** What Next has to skip: the current key, from anywhere just after the internal iterator. */
  lemma {:induction false} NextSkips(es: seq<Entry>, snap: nat, was: nat, start: nat)
    requires Ordered(es) && was < |es| && Live(es, snap, was) && start < |es|
    requires start == was + 1 || (start >= 0 && Behind(es, snap, start - 1, was))
    ensures SkipInv(es, snap, start, Some(es[was].key.ukey))
  {
    forall i | 0 <= i < |es| && i != was ensures if i < was then Before(es[i], es[was]) else Before(es[was], es[i]) {
    }
  }

  lemma {:induction false} NextInView(es: seq<Entry>, snap: nat, was: nat, start: nat, c: nat)
    requires Ordered(es) && was < |es| && Live(es, snap, was) && start < |es|
    requires start == was + 1 || (start >= 0 && Behind(es, snap, start - 1, was))
    requires FirstAfter(es, snap, start, Some(es[was].key.ukey), c)
    ensures c < |es| ==> |View(es, snap, c)| == |View(es, snap, was)| + 1 < |View(es, snap, |es|)|
    ensures c == |es| ==> |View(es, snap, |es|)| == |View(es, snap, was)| + 1
  {
    assert was < c;
    forall i | was < i < c ensures !Live(es, snap, i) {
      assert Before(es[was], es[i]);
    }
    ViewPrefix(es, snap, was + 1, c);
    if c < |es| {
      Placed(es, snap, c);
    }
  }

  lemma {:induction false} PrevInView(es: seq<Entry>, snap: nat, was: nat, start: int, found: bool, c: nat)
    requires Ordered(es) && was < |es| && Live(es, snap, was) && -1 <= start < was
    requires forall k | start < k < was :: !Seen(es, snap, k) || es[k].key.ukey == es[was].key.ukey
    requires LastBefore(es, snap, start, found, c)
    ensures found <==> |View(es, snap, was)| > 0
    ensures found ==> |View(es, snap, c)| == |View(es, snap, was)| - 1
  {
    if found {
      ViewPrefix(es, snap, c + 1, was);
    } else {
      ViewPrefix(es, snap, 0, was);
    }
  }

  lemma {:induction false} SeekSkips(es: seq<Entry>, snap: nat, target: UserKey)
    requires Ordered(es)
    ensures SkipInv(es, snap, SeekIndex(es, LookupKey(target, snap)), None)
    ensures forall i | 0 <= i < SeekIndex(es, LookupKey(target, snap)) && Seen(es, snap, i) :: es[i].key.ukey < target
    ensures forall i | SeekIndex(es, LookupKey(target, snap)) <= i < |es| :: es[i].key.ukey >= target
  {
    var p := SeekIndex(es, LookupKey(target, snap));
    forall i | p < i < |es| ensures Before(es[p], es[i]) {
    }
  }

  lemma {:induction false} SeekInView(es: seq<Entry>, snap: nat, target: UserKey, c: nat)
    requires Ordered(es) && FirstAfter(es, snap, SeekIndex(es, LookupKey(target, snap)), None, c)
    ensures var v := View(es, snap, |es|);
            && (c < |es| ==> |View(es, snap, c)| < |v| && v[|View(es, snap, c)|] == c && es[c].key.ukey >= target)
            && (forall k | 0 <= k < |v| :: es[v[k]].key.ukey >= target ==> c < |es| && k >= |View(es, snap, c)|)
  {
    SeekSkips(es, snap, target);
    var v := View(es, snap, |es|);
    ViewPrefix(es, snap, c, |es|);
    if c < |es| {
      Placed(es, snap, c);
    }
    forall k | 0 <= k < |View(es, snap, c)| ensures v[k] == View(es, snap, c)[k] && es[v[k]].key.ukey < target {
      assert Live(es, snap, v[k]);
    }
  }
}
