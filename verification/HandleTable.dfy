/** The cache's own hash table: chains of handles in a power-of-two number of buckets (util/cache.cc). */
module HandleTable {
  import opened Dbformat

  /** A handle as the table sees it: its identity, key and hash. */
  datatype Node = Node(id: nat, key: Bytes, hash: nat)

  type Key = (Bytes, nat)

  function KeyOf(n: Node): Key {
    (n.key, n.hash)
  }

  function Pow2(k: nat): (r: nat)
    ensures r > 0
  {
    if k == 0 then 1 else 2 * Pow2(k - 1)
  }

  /** Chain `b` of `size` holds exactly the entries of `m` whose hash selects it, each once. */
  ghost predicate ChainHolds(chain: seq<Node>, b: nat, size: nat, m: map<Key, nat>)
    requires size > 0
  {
    && (forall i | 0 <= i < |chain| :: chain[i].hash % size == b && KeyOf(chain[i]) in m && m[KeyOf(chain[i])] == chain[i].id)
    && (forall i, j | 0 <= i < j < |chain| :: KeyOf(chain[i]) != KeyOf(chain[j]))
    && forall k {:trigger k in m} | k in m && k.1 % size == b :: Node(m[k], k.0, k.1) in chain
  }

  /** The chains hold exactly the entries of `m`. */
  ghost predicate Holds(list: seq<seq<Node>>, m: map<Key, nat>) {
    |list| > 0 && forall b | 0 <= b < |list| :: ChainHolds(list[b], b, |list|, m)
  }

  /** Where the search for a key stops: at its node, or at the end of the chain. */
  predicate StopsAt(chain: seq<Node>, key: Bytes, hash: nat, i: nat) {
    && i <= |chain| && (i < |chain| ==> chain[i].key == key && chain[i].hash == hash)
    && forall j | 0 <= j < i :: KeyOf(chain[j]) != (key, hash)
  }

  /** Changing one chain, and `m` only at a key of that chain. */
  lemma {:induction false} ChainChanged(list: seq<seq<Node>>, m: map<Key, nat>, b: nat, chain: seq<Node>, m': map<Key, nat>)
    requires Holds(list, m) && b < |list| && ChainHolds(chain, b, |list|, m')
    requires forall k: Key | k.1 % |list| != b :: (k in m <==> k in m') && (k in m ==> m[k] == m'[k])
    ensures Holds(list[b := chain], m')
  {
  }

  /** Where the search stops tells whether the key is there. */
  lemma {:induction false} StopTells(chain: seq<Node>, b: nat, size: nat, m: map<Key, nat>, key: Bytes, hash: nat, i: nat)
    requires size > 0 && ChainHolds(chain, b, size, m) && b == hash % size && StopsAt(chain, key, hash, i)
    ensures i < |chain| <==> (key, hash) in m
    ensures i < |chain| ==> m[(key, hash)] == chain[i].id
  {
    if (key, hash) in m {
      var j :| 0 <= j < |chain| && chain[j] == Node(m[(key, hash)], key, hash);
    }
  }

  lemma {:induction false} ChainPut(chain: seq<Node>, b: nat, size: nat, m: map<Key, nat>, n: Node, i: nat)
    requires size > 0 && ChainHolds(chain, b, size, m) && b == n.hash % size && StopsAt(chain, n.key, n.hash, i)
    ensures ChainHolds(if i < |chain| then chain[i := n] else chain + [n], b, size, m[KeyOf(n) := n.id])
  {
    StopTells(chain, b, size, m, n.key, n.hash, i);
    var chain', m' := if i < |chain| then chain[i := n] else chain + [n], m[KeyOf(n) := n.id];
    assert chain'[i] == n;
    forall k: Key {:trigger k in m'} | k in m' && k.1 % size == b ensures Node(m'[k], k.0, k.1) in chain' {
      if k != KeyOf(n) {
        assert k in m;
        var j :| 0 <= j < |chain| && chain[j] == Node(m[k], k.0, k.1);
        assert chain'[j] == chain[j];
      }
    }
  }

  lemma {:induction false} ChainPush(chain: seq<Node>, b: nat, size: nat, m: map<Key, nat>, n: Node)
    requires size > 0 && ChainHolds(chain, b, size, m) && b == n.hash % size && KeyOf(n) !in m
    ensures ChainHolds([n] + chain, b, size, m[KeyOf(n) := n.id])
  {
    var chain', m' := [n] + chain, m[KeyOf(n) := n.id];
    forall k: Key {:trigger k in m'} | k in m' && k.1 % size == b ensures Node(m'[k], k.0, k.1) in chain' {
      if k != KeyOf(n) {
        assert k in m;
      }
    }
  }

  lemma {:induction false} ChainCut(chain: seq<Node>, b: nat, size: nat, m: map<Key, nat>, i: nat)
    requires size > 0 && ChainHolds(chain, b, size, m) && i < |chain|
    ensures ChainHolds(chain[..i] + chain[i + 1..], b, size, m - {KeyOf(chain[i])})
  {
    var chain', m' := chain[..i] + chain[i + 1..], m - {KeyOf(chain[i])};
    forall k: Key {:trigger k in m'} | k in m' && k.1 % size == b ensures Node(m'[k], k.0, k.1) in chain' {
      assert k in m;
      var j :| 0 <= j < |chain| && chain[j] == Node(m[k], k.0, k.1);
      assert if j < i then chain'[j] == chain[j] else chain'[j - 1] == chain[j];
    }
  }

  class Table {
    var list: seq<seq<Node>>
    var elems: nat
    ghost var m: map<Key, nat>

    /** The table is never overfull. */
    ghost predicate Valid()
      reads this
    {
      && Holds(list, m) && elems == |m| && elems <= |list|
      && exists k: nat :: |list| == 4 * Pow2(k)
    }

    constructor ()
      ensures Valid() && m == map[]
    {
      list, elems, m := seq(4, _ => []), 0, map[];
      assert 4 == 4 * Pow2(0);
    }

    method FindPointer(key: Bytes, hash: nat) returns (b: nat, i: nat)
      requires |list| > 0
      ensures b == hash % |list| && StopsAt(list[b], key, hash, i)
    {
      b, i := hash % |list|, 0;
      while i < |list[b]| && (list[b][i].hash != hash || list[b][i].key != key)
        invariant i <= |list[b]| && forall j | 0 <= j < i :: KeyOf(list[b][j]) != (key, hash)
      {
        i := i + 1;
      }
    }

    method Lookup(key: Bytes, hash: nat) returns (r: Option<nat>)
      requires Valid()
      ensures r == if (key, hash) in m then Some(m[(key, hash)]) else None
    {
      var b, i := FindPointer(key, hash);
      StopTells(list[b], b, |list|, m, key, hash, i);
      r := if i < |list[b]| then Some(list[b][i].id) else None;
    }

    /** Insert returns the entry it replaces. */
    method Insert(id: nat, key: Bytes, hash: nat) returns (old_: Option<nat>)
      requires Valid()
      modifies this
      ensures Valid() && m == old(m)[(key, hash) := id]
      ensures old_ == if (key, hash) in old(m) then Some(old(m)[(key, hash)]) else None
    {
      var b, i := FindPointer(key, hash);
      StopTells(list[b], b, |list|, m, key, hash, i);
      var n := Node(id, key, hash);
      ChainPut(list[b], b, |list|, m, n, i);
      ChainChanged(list, m, b, if i < |list[b]| then list[b][i := n] else list[b] + [n], m[KeyOf(n) := id]);
      if i < |list[b]| {
        old_ := Some(list[b][i].id);
        list := list[b := list[b][i := n]];
        m := m[(key, hash) := id];
      } else {
        old_ := None;
        list := list[b := list[b] + [n]];
        m := m[(key, hash) := id];
        elems := elems + 1;
        if elems > |list| {
          Resize();
        }
      }
    }

    method Remove(key: Bytes, hash: nat) returns (r: Option<nat>)
      requires Valid()
      modifies this
      ensures Valid() && m == old(m) - {(key, hash)}
      ensures r == if (key, hash) in old(m) then Some(old(m)[(key, hash)]) else None
    {
      var b, i := FindPointer(key, hash);
      StopTells(list[b], b, |list|, m, key, hash, i);
      if i < |list[b]| {
        r := Some(list[b][i].id);
        ChainCut(list[b], b, |list|, m, i);
        ChainChanged(list, m, b, list[b][..i] + list[b][i + 1..], m - {(key, hash)});
        list := list[b := list[b][..i] + list[b][i + 1..]];
        elems := elems - 1;
      } else {
        r := None;
      }
      m := m - {(key, hash)};
    }

    /** Resize: twice the length until there is a bucket per element, and every handle moved to the
        front of its new chain. */
    method Resize()
      requires Holds(list, m) && elems == |m|
      modifies this`list
      ensures Valid()
    {
      var newLength, k := 4, 0;
      while newLength < elems
        invariant newLength == 4 * Pow2(k)
      {
        newLength, k := newLength * 2, k + 1;
      }
      var chains := list;
      var newList: seq<seq<Node>> := seq(newLength, _ => []);
      ghost var moved: map<Key, nat> := map[];
      for b := 0 to |chains|
        invariant |newList| == newLength && Holds(newList, moved)
        invariant MovedUpTo(chains, m, moved, b, 0)
      {
        for i := 0 to |chains[b]|
          invariant |newList| == newLength && Holds(newList, moved)
          invariant MovedUpTo(chains, m, moved, b, i)
        {
          var n := chains[b][i];
          var c := n.hash % newLength;
          NotYetMoved(chains, m, moved, b, i);
          ChainPush(newList[c], c, newLength, moved, n);
          ChainChanged(newList, moved, c, [n] + newList[c], moved[KeyOf(n) := n.id]);
          newList := newList[c := [n] + newList[c]];
          moved := moved[KeyOf(n) := n.id];
        }
        ChainMoved(chains, m, moved, b);
      }
      AllMoved(chains, m, moved);
      list := newList;
    }
  }

  /** The entries moved so far: those of the first `b` chains and of the first `i` nodes of chain `b`. */
  ghost predicate MovedUpTo(list: seq<seq<Node>>, m: map<Key, nat>, moved: map<Key, nat>, b: nat, i: nat)
    requires |list| > 0 && b <= |list| && (if b < |list| then i <= |list[b]| else i == 0)
  {
    && (forall k | k in moved :: k in m && moved[k] == m[k])
    && (forall k {:trigger k in moved} | k in m ::
          k in moved <==> k.1 % |list| < b || (k.1 % |list| == b && exists j :: 0 <= j < i && KeyOf(list[b][j]) == k))
  }

  lemma {:induction false} NotYetMoved(list: seq<seq<Node>>, m: map<Key, nat>, moved: map<Key, nat>, b: nat, i: nat)
    requires Holds(list, m) && b < |list| && i < |list[b]| && MovedUpTo(list, m, moved, b, i)
    ensures KeyOf(list[b][i]) !in moved
    ensures MovedUpTo(list, m, moved[KeyOf(list[b][i]) := list[b][i].id], b, i + 1)
  {
    var key := KeyOf(list[b][i]);
    var moved' := moved[key := list[b][i].id];
    assert ChainHolds(list[b], b, |list|, m);
    forall k | k in m
      ensures k in moved' <==> k.1 % |list| < b || (k.1 % |list| == b && exists j :: 0 <= j < i + 1 && KeyOf(list[b][j]) == k)
    {
      assert k in moved' <==> k == key || k in moved;
    }
  }

  lemma {:induction false} ChainMoved(list: seq<seq<Node>>, m: map<Key, nat>, moved: map<Key, nat>, b: nat)
    requires Holds(list, m) && b < |list| && MovedUpTo(list, m, moved, b, |list[b]|)
    ensures MovedUpTo(list, m, moved, b + 1, 0)
  {
    assert ChainHolds(list[b], b, |list|, m);
    forall k | k in m && k.1 % |list| == b ensures k in moved {
      var j :| 0 <= j < |list[b]| && list[b][j] == Node(m[k], k.0, k.1);
      assert KeyOf(list[b][j]) == k;
    }
  }

  lemma {:induction false} AllMoved(list: seq<seq<Node>>, m: map<Key, nat>, moved: map<Key, nat>)
    requires |list| > 0 && MovedUpTo(list, m, moved, |list|, 0)
    ensures moved == m
  {
    forall k ensures k in moved <==> k in m {
      assert k in m ==> k.1 % |list| < |list|;
    }
  }
}
