/** The reference-counted LRU cache (util/cache.cc). Handles are identified by number; the two
    circular lists are sequences, oldest entry first. */
module LruCache {
  import opened Dbformat
  import opened LruHistory
  import HandleTable

  type Key = HandleTable.Key

  datatype Handle = Handle(key: Bytes, hash: nat, charge: nat, refs: nat, inCache: bool)

  type Handles = map<nat, Handle>

  predicate Distinct(s: seq<nat>) {
    forall i, j | 0 <= i < j < |s| :: s[i] != s[j]
  }

  /** LRU_Remove. */
  function Without(s: seq<nat>, x: nat): (r: seq<nat>)
    ensures forall y :: y in r <==> y in s && y != x
  {
    if s == [] then [] else if s[0] == x then Without(s[1..], x) else [s[0]] + Without(s[1..], x)
  }

  lemma {:induction false} WithoutDistinct(s: seq<nat>, x: nat)
    requires Distinct(s)
    ensures Distinct(Without(s, x))
    ensures x !in s ==> Without(s, x) == s
    ensures s != [] && s[0] == x ==> Without(s, x) == s[1..]
  {
    if s != [] {
      WithoutDistinct(s[1..], x);
      if s[0] != x {
        ConsDistinct(s[0], Without(s[1..], x));
      } else {
        assert forall j | 0 < j < |s| :: s[j] != s[0];
      }
    }
  }

  lemma {:induction false} ConsDistinct(x: nat, s: seq<nat>)
    requires Distinct(s) && x !in s
    ensures Distinct([x] + s) && Distinct(s + [x])
  {
  }

  /** The charges of the entries of a list. */
  function Charges(handles: Handles, s: seq<nat>): nat {
    if s == [] then 0 else (if s[0] in handles then handles[s[0]].charge else 0) + Charges(handles, s[1..])
  }

  lemma {:induction false} ChargesAppend(handles: Handles, s: seq<nat>, x: nat)
    ensures Charges(handles, s + [x]) == Charges(handles, s) + Charges(handles, [x])
  {
    if s != [] {
      assert (s + [x])[1..] == s[1..] + [x];
      ChargesAppend(handles, s[1..], x);
    }
  }

  lemma {:induction false} ChargesWithout(handles: Handles, s: seq<nat>, x: nat)
    requires Distinct(s) && x in s
    ensures Charges(handles, Without(s, x)) + Charges(handles, [x]) == Charges(handles, s)
  {
    if s[0] == x {
      WithoutDistinct(s, x);
    } else {
      ChargesWithout(handles, s[1..], x);
    }
  }

  lemma {:induction false} ChargesSame(handles: Handles, handles': Handles, s: seq<nat>)
    requires forall x | x in s :: x in handles && x in handles' && handles[x].charge == handles'[x].charge
    ensures Charges(handles, s) == Charges(handles', s)
  {
    if s != [] {
      ChargesSame(handles, handles', s[1..]);
    }
  }

  function HandleKey(h: Handle): Key {
    (h.key, h.hash)
  }

  predicate IsCached(handles: Handles, id: nat) {
    id in handles && handles[id].inCache
  }

  /** Cached entries that no client uses (`idle`), or that some client uses. */
  predicate Belongs(handles: Handles, id: nat, idle: bool) {
    IsCached(handles, id) && if idle then handles[id].refs == 1 else handles[id].refs >= 2
  }

  /** The list holds each of these entries once, and no others. */
  ghost predicate Lists(s: seq<nat>, handles: Handles, idle: bool) {
    Distinct(s) && forall id {:trigger id in s} :: id in s <==> Belongs(handles, id, idle)
  }

  /** The table holds exactly the cached entries, under their keys. */
  ghost predicate Tabled(handles: Handles, cached: map<Key, nat>) {
    && (forall id | IsCached(handles, id) :: HandleKey(handles[id]) in cached && cached[HandleKey(handles[id])] == id)
    && forall k {:trigger k in cached} | k in cached :: IsCached(handles, cached[k]) && HandleKey(handles[cached[k]]) == k
  }

  /** Every handle ever made is still referenced or has been passed to its deleter, once. */
  ghost predicate Accounted(handles: Handles, nextId: nat, deleted: seq<nat>) {
    && (forall id | id in handles :: id < nextId && handles[id].refs > 0)
    && Distinct(deleted) && (forall id | id in deleted :: id < nextId)
    && forall id: nat | id < nextId :: id in handles <==> id !in deleted
  }

  /** How many references clients hold. */
  function ClientRefs(handles: Handles, id: nat): int
    requires id in handles
  {
    handles[id].refs - if handles[id].inCache then 1 else 0
  }

  /** The state of the cache, its table a map from (key, hash) to handle. */
  datatype State = State(lru: seq<nat>, inUse: seq<nat>, handles: Handles, nextId: nat, deleted: seq<nat>, usage: int, cached: map<Key, nat>)

  ghost predicate Good(s: State) {
    && Lists(s.lru, s.handles, true) && Lists(s.inUse, s.handles, false)
    && Tabled(s.handles, s.cached) && Accounted(s.handles, s.nextId, s.deleted)
    && s.usage == Charges(s.handles, s.lru) + Charges(s.handles, s.inUse)
  }

  // ---------- what the primitives do ----------

  function Ref(s: State, e: nat): State
    requires e in s.handles
  {
    var h := s.handles[e];
    var moved := if h.refs == 1 && h.inCache then s.(lru := Without(s.lru, e), inUse := s.inUse + [e]) else s;
    moved.(handles := s.handles[e := h.(refs := h.refs + 1)])
  }

  function Unref(s: State, e: nat): State
    requires e in s.handles && s.handles[e].refs > 0
  {
    var h := s.handles[e].(refs := s.handles[e].refs - 1);
    if h.refs == 0 then s.(handles := s.handles - {e}, deleted := s.deleted + [e])
    else if h.inCache && h.refs == 1 then
      s.(handles := s.handles[e := h], inUse := Without(s.inUse, e), lru := s.lru + [e])
    else s.(handles := s.handles[e := h])
  }

  /** FinishErase of an entry already taken out of the table. */
  function Erased(s: State, e: nat): State
    requires e in s.handles && s.handles[e].refs > 0
  {
    var out := s.(lru := Without(s.lru, e), inUse := Without(s.inUse, e),
                  handles := s.handles[e := s.handles[e].(inCache := false)], usage := s.usage - s.handles[e].charge);
    Unref(out, e)
  }

  /** A new handle, listed as in use when it is cached. */
  function Added(s: State, h: Handle): State {
    s.(handles := s.handles[s.nextId := h], nextId := s.nextId + 1,
       inUse := if h.inCache then s.inUse + [s.nextId] else s.inUse,
       usage := if h.inCache then s.usage + h.charge else s.usage,
       cached := if h.inCache then s.cached[HandleKey(h) := s.nextId] else s.cached)
  }

  // ---------- what a change to one handle does to a list ----------

  /** Only handle `e` differs, and not in its charge. */
  ghost predicate Differ(handles: Handles, handles': Handles, e: nat) {
    && (forall id | id != e :: (id in handles <==> id in handles') && (id in handles ==> handles[id] == handles'[id]))
    && (e in handles && e in handles' ==> handles[e].charge == handles'[e].charge)
  }

  lemma {:induction false} ListSame(s: seq<nat>, handles: Handles, handles': Handles, idle: bool, e: nat)
    requires Lists(s, handles, idle) && Differ(handles, handles', e) && (Belongs(handles, e, idle) <==> Belongs(handles', e, idle))
    ensures Lists(s, handles', idle) && Charges(handles', s) == Charges(handles, s)
  {
    forall id ensures Belongs(handles, id, idle) <==> Belongs(handles', id, idle) {
    }
    ChargesSame(handles, handles', s);
  }

  lemma {:induction false} ListAppend(s: seq<nat>, handles: Handles, handles': Handles, idle: bool, e: nat)
    requires Lists(s, handles, idle) && Differ(handles, handles', e)
    requires !Belongs(handles, e, idle) && Belongs(handles', e, idle)
    ensures Lists(s + [e], handles', idle) && Charges(handles', s + [e]) == Charges(handles, s) + handles'[e].charge
  {
    forall id | id != e ensures Belongs(handles, id, idle) <==> Belongs(handles', id, idle) {
    }
    ConsDistinct(e, s);
    ChargesSame(handles, handles', s);
    ChargesAppend(handles', s, e);
  }

  lemma {:induction false} ListRemove(s: seq<nat>, handles: Handles, handles': Handles, idle: bool, e: nat)
    requires Lists(s, handles, idle) && Differ(handles, handles', e)
    requires Belongs(handles, e, idle) && !Belongs(handles', e, idle)
    ensures Lists(Without(s, e), handles', idle) && Charges(handles', Without(s, e)) == Charges(handles, s) - handles[e].charge
  {
    forall id | id != e ensures Belongs(handles, id, idle) <==> Belongs(handles', id, idle) {
    }
    WithoutDistinct(s, e);
    ChargesWithout(handles, s, e);
    ChargesSame(handles, handles', Without(s, e));
  }

  /** Removing what is not there changes nothing. */
  lemma {:induction false} ListAbsent(s: seq<nat>, handles: Handles, idle: bool, e: nat)
    requires Lists(s, handles, idle) && !Belongs(handles, e, idle)
    ensures Without(s, e) == s
  {
    WithoutDistinct(s, e);
  }

  lemma {:induction false} TableSame(handles: Handles, handles': Handles, cached: map<Key, nat>, e: nat)
    requires Tabled(handles, cached) && Differ(handles, handles', e)
    requires IsCached(handles, e) <==> IsCached(handles', e)
    requires IsCached(handles, e) ==> HandleKey(handles[e]) == HandleKey(handles'[e])
    ensures Tabled(handles', cached)
  {
    forall id ensures IsCached(handles, id) <==> IsCached(handles', id) {
    }
  }

  // ---------- the primitives keep the invariant ----------

  lemma {:induction false} RefKeeps(s: State, e: nat)
    requires Good(s) && e in s.handles
    ensures Good(Ref(s, e))
  {
    var s' := Ref(s, e);
    TableSame(s.handles, s'.handles, s.cached, e);
    if Belongs(s.handles, e, true) {
      ListRemove(s.lru, s.handles, s'.handles, true, e);
      ListAppend(s.inUse, s.handles, s'.handles, false, e);
    } else {
      ListSame(s.lru, s.handles, s'.handles, true, e);
      ListSame(s.inUse, s.handles, s'.handles, false, e);
    }
  }

  lemma {:induction false} UnrefKeeps(s: State, e: nat)
    requires Good(s) && e in s.handles && ClientRefs(s.handles, e) > 0
    ensures Good(Unref(s, e))
  {
    var s' := Unref(s, e);
    TableSame(s.handles, s'.handles, s.cached, e);
    UnrefAccounted(s, e);
    if s.handles[e].inCache && s.handles[e].refs == 2 {
      ListRemove(s.inUse, s.handles, s'.handles, false, e);
      ListAppend(s.lru, s.handles, s'.handles, true, e);
    } else {
      ListSame(s.lru, s.handles, s'.handles, true, e);
      ListSame(s.inUse, s.handles, s'.handles, false, e);
    }
  }

  lemma {:induction false} UnrefAccounted(s: State, e: nat)
    requires Accounted(s.handles, s.nextId, s.deleted) && e in s.handles
    ensures Accounted(Unref(s, e).handles, s.nextId, Unref(s, e).deleted)
  {
    if s.handles[e].refs == 1 {
      ConsDistinct(e, s.deleted);
    }
  }

  /** Erasing an entry from the table and then from the lists. */
  lemma {:induction false} EraseKeeps(s: State, k: Key)
    requires Good(s) && k in s.cached
    ensures s.cached[k] in s.handles && s.handles[s.cached[k]].refs > 0
    ensures Good(Erased(s.(cached := s.cached - {k}), s.cached[k]))
  {
    var e := s.cached[k];
    assert IsCached(s.handles, e);
    var s' := Erased(s.(cached := s.cached - {k}), e);
    EraseTable(s.handles, s'.handles, s.cached, k);
    EraseAccounted(s, e, s'.cached);
    if s.handles[e].refs == 1 {
      ListRemove(s.lru, s.handles, s'.handles, true, e);
      ListSame(s.inUse, s.handles, s'.handles, false, e);
      ListAbsent(s.inUse, s.handles, false, e);
    } else {
      ListRemove(s.inUse, s.handles, s'.handles, false, e);
      ListSame(s.lru, s.handles, s'.handles, true, e);
      ListAbsent(s.lru, s.handles, true, e);
    }
  }

  lemma {:induction false} EraseTable(handles: Handles, handles': Handles, cached: map<Key, nat>, k: Key)
    requires Tabled(handles, cached) && k in cached && Differ(handles, handles', cached[k]) && !IsCached(handles', cached[k])
    ensures Tabled(handles', cached - {k})
  {
    forall id | id != cached[k] ensures IsCached(handles, id) <==> IsCached(handles', id) {
    }
  }

  lemma {:induction false} EraseAccounted(s: State, e: nat, cached: map<Key, nat>)
    requires Accounted(s.handles, s.nextId, s.deleted) && e in s.handles
    ensures var s' := Erased(s.(cached := cached), e); Accounted(s'.handles, s'.nextId, s'.deleted)
  {
    if s.handles[e].refs == 1 {
      ConsDistinct(e, s.deleted);
    }
  }

  lemma {:induction false} AddKeeps(s: State, h: Handle)
    requires Good(s) && h.refs == (if h.inCache then 2 else 1) && (h.inCache ==> HandleKey(h) !in s.cached)
    ensures Good(Added(s, h))
  {
    var s', e := Added(s, h), s.nextId;
    assert e !in s.handles;
    ListSame(s.lru, s.handles, s'.handles, true, e);
    if h.inCache {
      ListAppend(s.inUse, s.handles, s'.handles, false, e);
    } else {
      ListSame(s.inUse, s.handles, s'.handles, false, e);
      TableSame(s.handles, s'.handles, s.cached, e);
    }
  }

  // ---------- inserting ----------

  /** A new handle: one reference for the caller, one for the cache if it keeps the entry. */
  function NewHandle(key: Bytes, hash: nat, charge: nat, keep: bool): Handle {
    Handle(key, hash, charge, if keep then 2 else 1, keep)
  }

  /** A new handle under a key that may already be taken: the old entry is erased afterwards. */
  function Replaced(s: State, h: Handle, previous: Option<nat>): State
    requires previous.Some? ==> previous.value in s.handles && s.handles[previous.value].refs > 0 && previous.value != s.nextId
  {
    if previous.Some? then Erased(Added(s, h), previous.value) else Added(s, h)
  }

  function Find(cached: map<Key, nat>, k: Key): Option<nat> {
    if k in cached then Some(cached[k]) else None
  }

  ghost function Inserted(s: State, h: Handle): (r: State)
    requires Good(s) && h.refs == (if h.inCache then 2 else 1)
    ensures Good(r)
  {
    InsertKeeps(s, h);
    Replaced(s, h, if h.inCache then Find(s.cached, HandleKey(h)) else None)
  }

  lemma {:induction false} WithoutAppend(s: seq<nat>, x: nat, y: nat)
    requires x != y
    ensures Without(s + [x], y) == Without(s, y) + [x]
  {
    if s != [] {
      assert (s + [x])[1..] == s[1..] + [x];
      WithoutAppend(s[1..], x, y);
    } else {
      assert Without([x], y) == [x];
    }
  }

  lemma {:induction false} InsertKeeps(s: State, h: Handle)
    requires Good(s) && h.refs == (if h.inCache then 2 else 1)
    ensures var previous := if h.inCache then Find(s.cached, HandleKey(h)) else None;
            && (previous.Some? ==> previous.value in s.handles && s.handles[previous.value].refs > 0 && previous.value != s.nextId)
            && var t := Replaced(s, h, previous);
               Good(t) && s.nextId in t.handles && t.handles[s.nextId] == h && s.nextId !in t.lru
  {
    var k := HandleKey(h);
    assert s.nextId !in s.handles;
    if h.inCache && k in s.cached {
      var e := s.cached[k];
      assert IsCached(s.handles, e);
      EraseKeeps(s, k);
      AddKeeps(Erased(s.(cached := s.cached - {k}), e), h);
      EraseCommutes(s, h, e);
    } else {
      AddKeeps(s, h);
    }
  }

  lemma {:induction false} UpdatesCommute(m: Handles, x: nat, a: Handle, y: nat, b: Handle)
    requires x != y
    ensures m[x := a][y := b] == m[y := b][x := a] && m[x := a] - {y} == (m - {y})[x := a]
    ensures m[x := a][y := b] - {y} == (m[y := b] - {y})[x := a]
  {
  }

  lemma {:induction false} MapReset(m: map<Key, nat>, k: Key, v: nat)
    ensures (m - {k})[k := v] == m[k := v]
  {
  }

  /** Erasing the old entry before or after listing the new one is the same. */
  lemma {:induction false} EraseCommutes(s: State, h: Handle, e: nat)
    requires h.inCache && e in s.handles && s.handles[e].refs > 0 && e != s.nextId
    ensures Erased(Added(s, h), e) == Added(Erased(s.(cached := s.cached - {HandleKey(h)}), e), h)
  {
    WithoutAppend(s.inUse, s.nextId, e);
    MapReset(s.cached, HandleKey(h), s.nextId);
    var out := s.handles[e].(inCache := false);
    UpdatesCommute(s.handles, s.nextId, h, e, out);
    UpdatesCommute(s.handles[e := out], s.nextId, h, e, out.(refs := out.refs - 1));
    assert s.handles[s.nextId := h][e] == s.handles[e];
  }

  // ---------- evicting ----------

  /** The least recently used entry leaves the table and the lists. */
  function EraseOldest(s: State): State
    requires s.lru != [] && s.lru[0] in s.handles && s.handles[s.lru[0]].refs > 0
  {
    var e := s.lru[0];
    Erased(s.(cached := s.cached - {HandleKey(s.handles[e])}), e)
  }

  lemma {:induction false} OldestGoes(s: State)
    requires Good(s) && s.lru != []
    ensures var e := s.lru[0];
            && e in s.handles && s.handles[e].refs == 1 && s.handles[e].inCache
            && HandleKey(s.handles[e]) in s.cached && s.cached[HandleKey(s.handles[e])] == e
            && var t := EraseOldest(s);
               && Good(t) && t.lru == s.lru[1..] && t.inUse == s.inUse && t.handles == s.handles - {e}
               && t.deleted == s.deleted + [e] && t.nextId == s.nextId && t.usage == s.usage - s.handles[e].charge
  {
    var e := s.lru[0];
    assert e in s.lru && Belongs(s.handles, e, true);
    WithoutDistinct(s.lru, e);
    ListAbsent(s.inUse, s.handles, false, e);
    EraseKeeps(s, HandleKey(s.handles[e]));
    var out := s.handles[e := s.handles[e].(inCache := false)];
    assert out - {e} == s.handles - {e};
  }

  /** Oldest first, as long as there is too much and something that no client uses. */
  ghost function Evict(s: State, capacity: int): (r: State)
    requires Good(s)
    ensures Good(r)
    decreases |s.lru|
  {
    if s.usage > capacity && s.lru != [] then
      OldestGoes(s);
      Evict(EraseOldest(s), capacity)
    else s
  }

  /** `t` is `s` without its `n` least recently used entries, which went to their deleters. */
  ghost predicate Shed(s: State, t: State, n: nat) {
    && n <= |s.lru| && t.lru == s.lru[n..] && t.deleted == s.deleted + s.lru[..n]
    && t.inUse == s.inUse && t.nextId == s.nextId
    && (forall id :: id in t.handles <==> id in s.handles && id !in s.lru[..n])
    && forall id | id in t.handles :: t.handles[id] == s.handles[id]
  }

  lemma {:induction false} ShedOneMore(s: State, t: State, u: State, n: nat)
    requires s.lru != [] && Shed(s, t, 1) && Shed(t, u, n)
    ensures Shed(s, u, n + 1)
  {
    assert s.lru[..n + 1] == [s.lru[0]] + t.lru[..n];
    assert s.lru[n + 1..] == t.lru[n..];
    assert s.lru[..1] == [s.lru[0]];
    assert s.deleted + [s.lru[0]] + t.lru[..n] == s.deleted + ([s.lru[0]] + t.lru[..n]);
  }

  lemma {:induction false} ShedNothing(s: State)
    ensures Shed(s, s, 0)
  {
  }

  lemma {:induction false} ShedFirst(s: State, t: State)
    requires s.lru != [] && t.lru == s.lru[1..] && t.inUse == s.inUse && t.handles == s.handles - {s.lru[0]}
    requires t.deleted == s.deleted + [s.lru[0]] && t.nextId == s.nextId
    ensures Shed(s, t, 1)
  {
    assert s.lru[..1] == [s.lru[0]];
  }

  /** Eviction takes the least recently used entries and spares every handle a client holds; it
      stops as soon as the rest fits, or when nothing is left that could go. */
  lemma {:induction false} EvictIs(s: State, capacity: int) returns (n: nat)
    requires Good(s)
    ensures Shed(s, Evict(s, capacity), n) && (n == 0 ==> Evict(s, capacity) == s)
    ensures Evict(s, capacity).usage <= capacity || Evict(s, capacity).lru == []
    decreases |s.lru|
  {
    if s.usage > capacity && s.lru != [] {
      OldestGoes(s);
      var t := EraseOldest(s);
      ShedFirst(s, t);
      var m := EvictIs(t, capacity);
      ShedOneMore(s, t, Evict(t, capacity), m);
      n := m + 1;
    } else {
      n := 0;
      ShedNothing(s);
    }
  }

  /** The last entry evicted had to go. */
  lemma {:induction false} EvictIsTight(s: State, capacity: int, n: nat)
    requires Good(s) && n > 0 && Shed(s, Evict(s, capacity), n)
    ensures s.lru[n - 1] in s.handles && Evict(s, capacity).usage + s.handles[s.lru[n - 1]].charge > capacity
    decreases |s.lru|
  {
    var r := Evict(s, capacity);
    if s.usage > capacity && s.lru != [] {
      OldestGoes(s);
      var t := EraseOldest(s);
      var m := EvictIs(t, capacity);
      assert |r.lru| == |t.lru| - m && m == n - 1;
      if m > 0 {
        EvictIsTight(t, capacity, m);
        assert t.lru[m - 1] == s.lru[n - 1];
      }
    }
  }

  lemma {:induction false} SparedNew(s: State, t: State, n: nat, id: nat)
    requires Shed(s, t, n) && id in s.handles && id !in s.lru
    ensures id in t.handles && t.handles[id] == s.handles[id]
  {
  }

  // ---------- the order of the idle entries ----------

  lemma {:induction false} WithoutByAge(s: seq<nat>, calls: seq<Call>, x: nat)
    requires ByAge(s, calls)
    ensures ByAge(Without(s, x), calls)
  {
    if s != [] {
      ByAgeSuffix(s, s[1..], calls, 1);
      WithoutByAge(s[1..], calls, x);
      if s[0] != x {
        ConsByAge(s[0], s[1..], Without(s[1..], x), calls);
      }
    }
  }

  lemma {:induction false} ConsByAge(x: nat, s: seq<nat>, t: seq<nat>, calls: seq<Call>)
    requires ByAge([x] + s, calls) && ByAge(t, calls) && forall y | y in t :: y in s
    ensures ByAge([x] + t, calls)
  {
    forall j | 0 <= j < |t| ensures LastRelease(calls, x) < LastRelease(calls, t[j]) {
      assert t[j] in s;
      var i :| 0 <= i < |s| && s[i] == t[j];
      assert ([x] + s)[i + 1] == t[j] && ([x] + s)[0] == x;
    }
    assert ([x] + s)[0] == x;
  }

  lemma {:induction false} RefByAge(s: State, e: nat, calls: seq<Call>, call: Call)
    requires e in s.handles && ByAge(s.lru, calls) && !call.Release?
    ensures ByAge(Ref(s, e).lru, calls + [call])
  {
    WithoutByAge(s.lru, calls, e);
    ByAgeNext(Ref(s, e).lru, calls, call);
  }

  lemma {:induction false} UnrefByAge(s: State, e: nat, calls: seq<Call>)
    requires Good(s) && e in s.handles && ClientRefs(s.handles, e) > 0 && ByAge(s.lru, calls)
    ensures ByAge(Unref(s, e).lru, calls + [Release(e)])
  {
    assert e !in s.lru by {
      assert !Belongs(s.handles, e, true);
    }
    ByAgeNext(s.lru, calls, Release(e));
    ByAgeReleased(s.lru, calls, e);
  }

  lemma {:induction false} ErasedByAge(s: State, e: nat, calls: seq<Call>, call: Call)
    requires e in s.handles && s.handles[e].refs > 0 && ByAge(s.lru, calls) && !call.Release?
    ensures ByAge(Erased(s, e).lru, calls + [call])
  {
    WithoutByAge(s.lru, calls, e);
    ByAgeNext(Without(s.lru, e), calls, call);
  }

  lemma {:induction false} LookupByAge(s: State, r: Option<nat>, calls: seq<Call>)
    requires ByAge(s.lru, calls) && (r.Some? ==> r.value in s.handles)
    ensures ByAge((if r.Some? then Ref(s, r.value) else s).lru, calls + [LruHistory.Lookup(r)])
  {
    ByAgeNext(s.lru, calls, LruHistory.Lookup(r));
    if r.Some? {
      RefByAge(s, r.value, calls, LruHistory.Lookup(r));
    }
  }

  lemma {:induction false} EraseByAge(s: State, k: Key, calls: seq<Call>)
    requires ByAge(s.lru, calls) && (k in s.cached ==> s.cached[k] in s.handles && s.handles[s.cached[k]].refs > 0)
    ensures ByAge((if k in s.cached then Erased(s.(cached := s.cached - {k}), s.cached[k]) else s).lru, calls + [LruHistory.Erase])
  {
    ByAgeNext(s.lru, calls, LruHistory.Erase);
    if k in s.cached {
      ErasedByAge(s.(cached := s.cached - {k}), s.cached[k], calls, LruHistory.Erase);
    }
  }

  lemma {:induction false} EmptyGood(s: State, calls: seq<Call>)
    requires |s.lru| == |s.inUse| == |s.deleted| == |s.handles| == |s.cached| == s.nextId == s.usage == 0
    ensures Good(s) && ByAge(s.lru, calls)
  {
    assert forall id :: id !in s.handles && !IsCached(s.handles, id);
    assert forall k :: k !in s.cached;
  }

  /** The idle entries, but for one of the key `k`. */
  ghost predicate OldestOthersWent(s: State, t: State, k: Key, calls: seq<Call>) {
    forall e, d | e in s.lru && e !in t.lru && e in s.handles && HandleKey(s.handles[e]) != k && d in t.lru ::
      LastRelease(calls, e) < LastRelease(calls, d)
  }

  /** Insertion takes no more than the entry of the same key out of the idle ones. */
  lemma {:induction false} InsertedIdle(s: State, h: Handle)
    requires Good(s) && h.refs == (if h.inCache then 2 else 1)
    ensures var t := Inserted(s, h);
            && (forall x | x in t.lru :: x in s.lru)
            && forall e | e in s.lru && e !in t.lru :: e in s.handles && HandleKey(s.handles[e]) == HandleKey(h)
    ensures forall calls, call | ByAge(s.lru, calls) && call == Insert(s.nextId) :: ByAge(Inserted(s, h).lru, calls + [call])
  {
    InsertKeeps(s, h);
    var previous := if h.inCache then Find(s.cached, HandleKey(h)) else None;
    forall calls, call | ByAge(s.lru, calls) && call == Insert(s.nextId) ensures ByAge(Inserted(s, h).lru, calls + [call]) {
      if previous.Some? {
        ErasedByAge(Added(s, h), previous.value, calls, call);
      } else {
        ByAgeNext(s.lru, calls, call);
      }
    }
  }

  /** Eviction from the end that was released longest ago. */
  lemma {:induction false} EvictByAge(s: State, capacity: int, calls: seq<Call>)
    requires Good(s) && ByAge(s.lru, calls)
    ensures ByAge(Evict(s, capacity).lru, calls) && OldestWent(s.lru, Evict(s, capacity).lru, calls)
  {
    var n := EvictIs(s, capacity);
    ByAgeSuffix(s.lru, Evict(s, capacity).lru, calls, n);
  }

  // ---------- the cache ----------

  class LRUCache {
    const table: HandleTable.Table
    const capacity: nat
    var usage: int
    var lru: seq<nat>
    var inUse: seq<nat>
    var handles: Handles
    var nextId: nat
    var deleted: seq<nat> /* what has been passed to its deleter */
    ghost var calls: seq<Call>

    ghost function Abs(): State
      reads this, table
    {
      State(lru, inUse, handles, nextId, deleted, usage, table.m)
    }

    /** The lists, the table and the counts fit together. */
    ghost predicate Sound()
      reads this, table
    {
      table.Valid() && Good(Abs())
    }

    /** Besides, the list of idle entries is in the order in which they were last released. */
    ghost predicate Valid()
      reads this, table
    {
      Sound() && ByAge(lru, calls)
    }

    constructor (capacity: nat)
      ensures Valid() && fresh(table) && Abs().cached == map[] && this.capacity == capacity && calls == []
    {
      table := new HandleTable.Table();
      this.capacity := capacity;
      new;
      Clear();
      EmptyGood(Abs(), calls);
    }

    method Clear()
      modifies this
      ensures |lru| == |inUse| == |deleted| == |handles| == nextId == usage == |calls| == 0
    {
      usage, lru, inUse, handles, nextId, deleted, calls := 0, [], [], map[], 0, [], [];
    }

    method RefHandle(e: nat)
      requires e in handles
      modifies this
      ensures Abs() == Ref(old(Abs()), e) && calls == old(calls)
    {
      if handles[e].refs == 1 && handles[e].inCache {
        lru := Without(lru, e);
        inUse := inUse + [e];
      }
      handles := handles[e := handles[e].(refs := handles[e].refs + 1)];
    }

    method UnrefHandle(e: nat)
      requires e in handles && handles[e].refs > 0
      modifies this
      ensures Abs() == Unref(old(Abs()), e) && calls == old(calls)
    {
      handles := handles[e := handles[e].(refs := handles[e].refs - 1)];
      if handles[e].refs == 0 {
        deleted := deleted + [e];
        handles := handles - {e};
        assert handles == old(handles) - {e};
      } else if handles[e].inCache && handles[e].refs == 1 {
        inUse := Without(inUse, e);
        lru := lru + [e];
      }
    }

    /** FinishErase of what the table gave up. */
    method FinishErase(e: Option<nat>) returns (erased: bool)
      requires e.Some? ==> e.value in handles && handles[e.value].refs > 0
      modifies this
      ensures Abs() == if e.Some? then Erased(old(Abs()), e.value) else old(Abs())
      ensures (erased <==> e.Some?) && calls == old(calls)
    {
      if e.Some? {
        lru, inUse := Without(lru, e.value), Without(inUse, e.value);
        usage := usage - handles[e.value].charge;
        handles := handles[e.value := handles[e.value].(inCache := false)];
        UnrefHandle(e.value);
      }
      erased := e.Some?;
    }

    /** The entry under the key, with one more reference. */
    method TakeRef(key: Bytes, hash: nat) returns (r: Option<nat>)
      requires Sound()
      modifies this
      ensures Sound() && calls == old(calls) && r == Find(old(Abs().cached), (key, hash))
      ensures r.Some? ==> r.value in old(handles) && Abs() == Ref(old(Abs()), r.value)
      ensures r.None? ==> Abs() == old(Abs())
    {
      r := table.Lookup(key, hash);
      if r.Some? {
        assert IsCached(handles, r.value);
        RefKeeps(Abs(), r.value);
        RefHandle(r.value);
      }
    }

    /** Lookup finds exactly what is cached and hands out one more reference to it. */
    method Lookup(key: Bytes, hash: nat) returns (r: Option<nat>)
      requires Valid()
      modifies this
      ensures Valid() && r == if (key, hash) in old(Abs().cached) then Some(old(Abs().cached)[(key, hash)]) else None
      ensures r.Some? ==> r.value in old(handles) && Abs() == Ref(old(Abs()), r.value)
      ensures r.None? ==> Abs() == old(Abs())
      ensures calls == old(calls) + [LruHistory.Lookup(r)]
    {
      ghost var s := Abs();
      r := TakeRef(key, hash);
      LookupByAge(s, r, calls);
      calls := calls + [LruHistory.Lookup(r)];
    }

    method Release(e: nat)
      requires Valid() && e in handles && ClientRefs(handles, e) > 0
      modifies this
      ensures Valid() && Abs() == Unref(old(Abs()), e)
      ensures calls == old(calls) + [LruHistory.Release(e)]
    {
      UnrefKeeps(Abs(), e);
      UnrefByAge(Abs(), e, calls);
      UnrefHandle(e);
      calls := calls + [LruHistory.Release(e)];
    }

    /** The entry leaves the table, and then the lists. */
    method EraseEntry(key: Bytes, hash: nat)
      requires Sound()
      modifies this, table
      ensures Sound() && calls == old(calls) && (key, hash) !in Abs().cached
      ensures (key, hash) in old(Abs().cached) ==>
                old(Abs().cached)[(key, hash)] in old(handles) && old(handles)[old(Abs().cached)[(key, hash)]].refs > 0
                && Abs() == Erased(old(Abs()).(cached := old(Abs().cached) - {(key, hash)}), old(Abs().cached)[(key, hash)])
      ensures (key, hash) !in old(Abs().cached) ==> Abs() == old(Abs())
    {
      if (key, hash) in table.m {
        EraseKeeps(Abs(), (key, hash));
      } else {
        assert table.m - {(key, hash)} == table.m;
      }
      var e := table.Remove(key, hash);
      var erased := FinishErase(e);
    }

    method Erase(key: Bytes, hash: nat)
      requires Valid()
      modifies this, table
      ensures Valid() && (key, hash) !in Abs().cached
      ensures (key, hash) in old(Abs().cached) ==>
                old(Abs().cached)[(key, hash)] in old(handles) && old(handles)[old(Abs().cached)[(key, hash)]].refs > 0
                && Abs() == Erased(old(Abs()).(cached := old(Abs().cached) - {(key, hash)}), old(Abs().cached)[(key, hash)])
      ensures (key, hash) !in old(Abs().cached) ==> Abs() == old(Abs())
      ensures calls == old(calls) + [LruHistory.Erase]
    {
      ghost var s := Abs();
      EraseEntry(key, hash);
      EraseByAge(s, (key, hash), calls);
      calls := calls + [LruHistory.Erase];
    }

    /** Evict from the head of the LRU list while the cache is over `limit`. */
    method EvictTo(limit: int)
      requires Sound()
      modifies this, table
      ensures Sound() && Abs() == Evict(old(Abs()), limit) && calls == old(calls)
    {
      while usage > limit && lru != []
        invariant Sound() && Evict(Abs(), limit) == Evict(old(Abs()), limit) && calls == old(calls)
        decreases |lru|
      {
        OldestGoes(Abs());
        var oldest := lru[0];
        var e := table.Remove(handles[oldest].key, handles[oldest].hash);
        var erased := FinishErase(e);
      }
    }

    /** Insert: the new handle is returned to the caller; afterwards the cache is within its
        capacity or holds nothing that no client uses. */
    method Insert(key: Bytes, hash: nat, charge: nat) returns (id: nat)
      requires Valid()
      modifies this, table
      ensures Valid() && id == old(nextId) && id in handles && handles[id] == NewHandle(key, hash, charge, capacity > 0)
      ensures Good(old(Abs())) && Abs() == Evict(Inserted(old(Abs()), NewHandle(key, hash, charge, capacity > 0)), capacity)
      ensures usage <= capacity || lru == []
      ensures calls == old(calls) + [LruHistory.Insert(id)] && OldestOthersWent(old(Abs()), Abs(), (key, hash), calls)
    {
      ghost var h := NewHandle(key, hash, charge, capacity > 0);
      InsertKeeps(Abs(), h);
      InsertedIdle(Abs(), h);
      id := AddHandle(key, hash, charge);
      calls := calls + [LruHistory.Insert(id)];
      ghost var n := EvictIs(Abs(), capacity);
      EvictByAge(Abs(), capacity, calls);
      SparedNew(Abs(), Evict(Abs(), capacity), n, id);
      EvictTo(capacity);
    }

    /** The new handle, in the lists when the cache keeps it, but not yet in the table. */
    method NewEntry(key: Bytes, hash: nat, charge: nat) returns (id: nat)
      modifies this
      ensures id == old(nextId)
      ensures Abs() == Added(old(Abs()), NewHandle(key, hash, charge, capacity > 0)).(cached := old(Abs().cached)) && calls == old(calls)
    {
      id := nextId;
      nextId := nextId + 1;
      handles := handles[id := Handle(key, hash, charge, 1, false)];
      if capacity > 0 {
        handles := handles[id := handles[id].(refs := handles[id].refs + 1, inCache := true)];
        inUse := inUse + [id];
        usage := usage + charge;
      }
      assert handles == old(handles)[id := NewHandle(key, hash, charge, capacity > 0)];
    }

    /** The new handle, in the lists and in the table when the cache keeps it. */
    method AddHandle(key: Bytes, hash: nat, charge: nat) returns (id: nat)
      requires Sound()
      modifies this, table
      ensures Sound() && id == old(nextId) && calls == old(calls)
      ensures Good(old(Abs())) && Abs() == Inserted(old(Abs()), NewHandle(key, hash, charge, capacity > 0))
    {
      ghost var s, h := Abs(), NewHandle(key, hash, charge, capacity > 0);
      InsertKeeps(s, h);
      id := NewEntry(key, hash, charge);
      if capacity > 0 {
        var previous := table.Insert(id, key, hash);
        assert previous == Find(s.cached, HandleKey(h)) && Abs() == Added(s, h);
        var erased := FinishErase(previous);
      }
    }

    /** Prune: everything that no client uses goes. */
    method Prune()
      requires Valid()
      modifies this, table
      ensures Valid() && lru == [] && Abs() == Evict(old(Abs()), -1)
      ensures calls == old(calls) + [LruHistory.Prune]
    {
      ghost var n := EvictIs(Abs(), -1);
      EvictTo(-1);
      calls := calls + [LruHistory.Prune];
    }
  }
}
