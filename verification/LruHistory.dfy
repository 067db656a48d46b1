/** The calls made on an LRU cache, and how long ago an entry was last given back (util/cache.cc). */
module LruHistory {
  import opened Dbformat

  /** One call on the cache, with the handle it returned or was about. */
  datatype Call = Lookup(found: Option<nat>) | Insert(id: nat) | Release(id: nat) | Erase | Prune

  /** The place of the last release of a handle among the calls, -1 if it was never released. */
  function LastRelease(calls: seq<Call>, e: nat): (r: int)
    ensures -1 <= r < |calls|
  {
    if calls == [] then -1
    else if calls[|calls| - 1] == Release(e) then |calls| - 1
    else LastRelease(calls[..|calls| - 1], e)
  }

  /** It is the last: the call there releases the handle, and none after it does. */
  lemma {:induction false} LastReleaseIs(calls: seq<Call>, e: nat)
    ensures var r := LastRelease(calls, e);
            && (r >= 0 ==> calls[r] == Release(e))
            && forall i | r < i < |calls| :: calls[i] != Release(e)
  {
    if calls != [] && calls[|calls| - 1] != Release(e) {
      LastReleaseIs(calls[..|calls| - 1], e);
    }
  }

  lemma {:induction false} LastReleaseNext(calls: seq<Call>, call: Call, e: nat)
    ensures LastRelease(calls + [call], e) == if call == Release(e) then |calls| else LastRelease(calls, e)
  {
    assert (calls + [call])[..|calls|] == calls;
  }

  /** Handles that were released, those released longer ago first. */
  predicate ByAge(s: seq<nat>, calls: seq<Call>) {
    && (forall i | 0 <= i < |s| :: LastRelease(calls, s[i]) >= 0)
    && forall i, j | 0 <= i < j < |s| :: LastRelease(calls, s[i]) < LastRelease(calls, s[j])
  }

  /** A call that releases nothing of the list leaves its order. */
  lemma {:induction false} ByAgeNext(s: seq<nat>, calls: seq<Call>, call: Call)
    requires ByAge(s, calls) && (call.Release? ==> call.id !in s)
    ensures ByAge(s, calls + [call])
  {
    forall i | 0 <= i < |s| ensures LastRelease(calls + [call], s[i]) == LastRelease(calls, s[i]) {
      LastReleaseNext(calls, call, s[i]);
    }
  }

  /** What is released goes behind everything that was released before. */
  lemma {:induction false} ByAgeReleased(s: seq<nat>, calls: seq<Call>, e: nat)
    requires ByAge(s, calls) && e !in s
    ensures ByAge(s + [e], calls + [Release(e)])
  {
    ByAgeNext(s, calls, Release(e));
    LastReleaseNext(calls, Release(e), e);
  }

  /** Of the handles of `s` those missing in `t` were released before every one of `t`. */
  predicate OldestWent(s: seq<nat>, t: seq<nat>, calls: seq<Call>) {
    forall e, d | e in s && e !in t && d in t :: LastRelease(calls, e) < LastRelease(calls, d)
  }

  lemma {:induction false} ByAgeSuffix(s: seq<nat>, t: seq<nat>, calls: seq<Call>, n: nat)
    requires ByAge(s, calls) && n <= |s| && t == s[n..]
    ensures ByAge(t, calls) && OldestWent(s, t, calls)
  {
    forall i | n <= i < |s| ensures s[i] in t {
      assert t[i - n] == s[i];
    }
    forall e, d | e in s && e !in t && d in t ensures LastRelease(calls, e) < LastRelease(calls, d) {
      var i :| 0 <= i < |s| && s[i] == e;
      var j :| 0 <= j < |t| && t[j] == d;
      assert s[n + j] == d;
    }
  }

  lemma {:induction false} LastInBoth(s: seq<nat>, t: seq<nat>, calls: seq<Call>)
    requires s != [] && t != [] && ByAge(s, calls) && ByAge(t, calls) && forall e :: e in s <==> e in t
    ensures s[|s| - 1] == t[|t| - 1]
  {
    var a, b := s[|s| - 1], t[|t| - 1];
    assert a in s && b in t;
    var i :| 0 <= i < |t| && t[i] == a;
    var j :| 0 <= j < |s| && s[j] == b;
    assert LastRelease(calls, a) <= LastRelease(calls, b) && LastRelease(calls, b) <= LastRelease(calls, a);
  }

  /** The calls alone decide the order of the handles that are in the list. */
  lemma {:induction false} ByAgeUnique(s: seq<nat>, t: seq<nat>, calls: seq<Call>)
    requires ByAge(s, calls) && ByAge(t, calls) && forall e :: e in s <==> e in t
    ensures s == t
  {
    assert (s != [] ==> s[0] in s) && (t != [] ==> t[0] in t);
    if s != [] && t != [] {
      LastInBoth(s, t, calls);
      var s', t' := s[..|s| - 1], t[..|t| - 1];
      assert s == s' + [s[|s| - 1]] && t == t' + [t[|t| - 1]];
      forall e ensures e in s' <==> e in t' {
        InFront(s, calls, e);
        InFront(t, calls, e);
      }
      ByAgeUnique(s', t', calls);
    }
  }

  lemma {:induction false} InFront(s: seq<nat>, calls: seq<Call>, e: nat)
    requires s != [] && ByAge(s, calls)
    ensures e in s[..|s| - 1] <==> e in s && e != s[|s| - 1]
  {
    if e in s[..|s| - 1] {
      var i :| 0 <= i < |s| - 1 && s[i] == e;
      assert LastRelease(calls, s[i]) < LastRelease(calls, s[|s| - 1]);
    }
    assert s == s[..|s| - 1] + [s[|s| - 1]];
  }
}
