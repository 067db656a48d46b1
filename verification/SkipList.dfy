/** The skip list: one writer publishing bottom-up, readers that take no lock (db/skiplist.h).
    Nodes are numbered as they are allocated, node 0 is the head, and a missing link is -1. Every
    load and every store of a link is a step of its own. */
module SkipList {
  import opened Dbformat

  const MAX_HEIGHT: nat := 12

  type Key = UserKey

  datatype Node = Node(key: Key, next: seq<int>)

  datatype Memory = Memory(nodes: seq<Node>, maxHeight: nat)

  // ---------- levels ----------

  /** Node `n` comes before `key`; the head comes before every key. */
  predicate Precedes(m: Memory, n: nat, key: Key)
    requires n < |m.nodes|
  {
    n == 0 || m.nodes[n].key < key
  }

  predicate HasLevel(m: Memory, n: int, l: nat) {
    0 <= n < |m.nodes| && l < |m.nodes[n].next|
  }

  /** The nodes of level `l`, the head first: linked in this order, their keys ascending. */
  ghost predicate Level(m: Memory, l: nat, chain: seq<nat>) {
    && chain != [] && chain[0] == 0
    && (forall i | 0 <= i < |chain| :: HasLevel(m, chain[i], l))
    && (forall i | 0 < i < |chain| :: chain[i] != 0)
    && (forall i | 0 <= i < |chain| :: m.nodes[chain[i]].next[l] == Link(chain, i))
    && forall i, j | 0 <= i < j < |chain| :: Precedes(m, chain[i], m.nodes[chain[j]].key)
  }

  function Link(chain: seq<nat>, i: nat): int
    requires i < |chain|
  {
    if i + 1 < |chain| then chain[i + 1] else -1
  }

  /** Every node of a level is on the level below; levels not yet in use are empty. */
  ghost predicate Inv(m: Memory, chains: seq<seq<nat>>) {
    && |chains| == MAX_HEIGHT && 1 <= m.maxHeight <= MAX_HEIGHT
    && (forall l | 0 <= l < MAX_HEIGHT :: Level(m, l, chains[l]))
    && (forall l | 0 < l < MAX_HEIGHT :: Within(chains[l], chains[l - 1]))
    && forall l | m.maxHeight <= l < MAX_HEIGHT :: chains[l] == [0]
  }

  predicate Within(a: seq<nat>, b: seq<nat>) {
    forall i | 0 <= i < |a| :: a[i] in b
  }

  // ---------- what the finders must return ----------

  /** The first node of the bottom level at or after `key`, or -1. */
  ghost predicate IsFirstFrom(m: Memory, chain: seq<nat>, key: Key, r: int)
    requires Level(m, 0, chain)
  {
    exists i :: FirstFromAt(m, chain, key, r, i)
  }

  /** The nodes before place `i`, and no others, precede the key; `r` is the node there. */
  ghost predicate FirstFromAt(m: Memory, chain: seq<nat>, key: Key, r: int, i: int)
    requires Level(m, 0, chain)
  {
    && 0 < i <= |chain| && r == (if i < |chain| then chain[i] else -1)
    && (forall j | 0 <= j < i :: Precedes(m, chain[j], key))
    && forall j | i <= j < |chain| :: !Precedes(m, chain[j], key)
  }

  /** The place behind the last node before `key`. */
  lemma {:induction false} NextDecides(m: Memory, l: nat, chain: seq<nat>, key: Key, i: nat)
    requires Level(m, l, chain) && i < |chain| && Precedes(m, chain[i], key)
    requires Link(chain, i) == -1 || !Precedes(m, Link(chain, i), key)
    ensures forall j | 0 <= j <= i :: Precedes(m, chain[j], key)
    ensures forall j | i < j < |chain| :: !Precedes(m, chain[j], key)
  {
    forall j | 0 <= j < i ensures Precedes(m, chain[j], key) {
      assert Precedes(m, chain[j], m.nodes[chain[i]].key);
    }
    forall j | i + 1 < j < |chain| ensures !Precedes(m, chain[j], key) {
      assert Precedes(m, chain[i + 1], m.nodes[chain[j]].key);
    }
  }

  // ---------- readers ----------

  /** What a reader looks for: the first node at or after a key (FindGreaterOrEqual), the last one before
      a key (FindLessThan), the last one of all (FindLast), the one after a node (Iterator::Next). */
  datatype Goal = From(key: Key) | Below(key: Key) | End | After(node: nat)

  datatype Reader = Searching(goal: Goal, x: nat, level: nat) | Done(goal: Goal, result: int)

  function StartRead(m: Memory, goal: Goal): Reader
    requires m.maxHeight >= 1
  {
    if goal.After? then Searching(goal, goal.node, 0) else Searching(goal, 0, m.maxHeight - 1)
  }

  /** The search goes on to node `n`. */
  predicate Passes(m: Memory, goal: Goal, n: nat)
    requires n < |m.nodes|
  {
    match goal
    case From(key) => m.nodes[n].key < key
    case Below(key) => m.nodes[n].key < key
    case End => true
    case After(_) => false
  }

  /** One turn of the loop of a search: load a link and decide. */
  function ReadStep(m: Memory, r: Reader): Reader
    requires r.Searching? && HasLevel(m, r.x, r.level)
    requires var n := m.nodes[r.x].next[r.level]; n == -1 || 0 <= n < |m.nodes|
  {
    var next := m.nodes[r.x].next[r.level];
    if next != -1 && Passes(m, r.goal, next) then Searching(r.goal, next, r.level)
    else if r.level == 0 then Done(r.goal, if r.goal.Below? || r.goal.End? then r.x else next)
    else Searching(r.goal, r.x, r.level - 1)
  }

  /** What a search that ends has to return for the bottom level as it is. */
  ghost predicate Answers(m: Memory, chain: seq<nat>, goal: Goal, r: int)
    requires Level(m, 0, chain)
  {
    match goal
    case From(key) => IsFirstFrom(m, chain, key, r)
    case Below(key) => exists i | 0 <= i < |chain| :: r == chain[i] && FirstFromAt(m, chain, key, Link(chain, i), i + 1)
    case End => r == chain[|chain| - 1]
    case After(n) => exists i | 0 <= i < |chain| :: n == chain[i] && r == Link(chain, i)
  }

  /** Where a reader may stand. */
  predicate Stands(m: Memory, goal: Goal, x: nat, level: nat)
    requires x < |m.nodes|
  {
    match goal
    case From(key) => Precedes(m, x, key)
    case Below(key) => Precedes(m, x, key)
    case End => true
    case After(n) => x == n && level == 0
  }

  /** A reader stands on a node of its level; one that is done has a node of the bottom level, or none. */
  ghost predicate ReaderInv(m: Memory, chains: seq<seq<nat>>, r: Reader)
    requires |chains| == MAX_HEIGHT
  {
    match r
    case Searching(goal, x, level) => level < MAX_HEIGHT && x in chains[level] && x < |m.nodes| && Stands(m, goal, x, level)
    case Done(_, result) => result == -1 || (result >= 0 && result in chains[0])
  }

  lemma {:induction false} StartReadKeeps(m: Memory, chains: seq<seq<nat>>, goal: Goal)
    requires Inv(m, chains) && (goal.After? ==> goal.node in chains[0])
    ensures ReaderInv(m, chains, StartRead(m, goal))
  {
    assert Level(m, m.maxHeight - 1, chains[m.maxHeight - 1]);
    assert Level(m, 0, chains[0]);
    if goal.After? {
      var i :| 0 <= i < |chains[0]| && chains[0][i] == goal.node;
      assert HasLevel(m, chains[0][i], 0);
    }
  }

  /** A reader's turn keeps its invariant; if it ends the search, the answer is right for the
      bottom level of this very moment. */
  lemma {:induction false} ReadStepKeeps(m: Memory, chains: seq<seq<nat>>, r: Reader)
    requires Inv(m, chains) && ReaderInv(m, chains, r) && r.Searching?
    ensures HasLevel(m, r.x, r.level) && (var n := m.nodes[r.x].next[r.level]; n == -1 || 0 <= n < |m.nodes|)
    ensures ReaderInv(m, chains, ReadStep(m, r))
    ensures ReadStep(m, r).Done? ==> Level(m, 0, chains[0]) && Answers(m, chains[0], r.goal, ReadStep(m, r).result)
  {
    var chain := chains[r.level];
    assert Level(m, r.level, chain) && Level(m, 0, chains[0]);
    var i :| 0 <= i < |chain| && chain[i] == r.x;
    LoadsLink(m, r.level, chain, i);
    if r.level > 0 {
      assert Within(chain, chains[r.level - 1]);
    }
    Turns(m, chains, r, chain, i);
  }

  lemma {:induction false} LoadsLink(m: Memory, l: nat, chain: seq<nat>, i: nat)
    requires Level(m, l, chain) && i < |chain|
    ensures HasLevel(m, chain[i], l) && m.nodes[chain[i]].next[l] == Link(chain, i)
    ensures Link(chain, i) == -1 || (i + 1 < |chain| && Link(chain, i) == chain[i + 1] && HasLevel(m, chain[i + 1], l))
  {
  }

  /** One turn at the `i`-th node of the level. */
  lemma {:induction false} Turns(m: Memory, chains: seq<seq<nat>>, r: Reader, chain: seq<nat>, i: nat)
    requires |chains| == MAX_HEIGHT && ReaderInv(m, chains, r) && r.Searching? && chain == chains[r.level]
    requires i < |chain| && chain[i] == r.x && HasLevel(m, r.x, r.level) && m.nodes[r.x].next[r.level] == Link(chain, i)
    requires Link(chain, i) == -1 || (i + 1 < |chain| && Link(chain, i) == chain[i + 1] && HasLevel(m, chain[i + 1], r.level))
    requires if r.level > 0 then Within(chain, chains[r.level - 1]) else Level(m, 0, chain)
    ensures ReaderInv(m, chains, ReadStep(m, r))
    ensures ReadStep(m, r).Done? ==> r.level == 0 && Answers(m, chain, r.goal, ReadStep(m, r).result)
  {
    var r' := ReadStep(m, r);
    if r'.Done? {
      Concludes(m, chain, r.goal, i, r'.result);
    } else if r'.level == r.level {
      assert chain[i + 1] in chain;
    }
  }

  lemma {:induction false} Concludes(m: Memory, chain: seq<nat>, goal: Goal, i: nat, result: int)
    requires Level(m, 0, chain) && i < |chain| && Stands(m, goal, chain[i], 0)
    requires Link(chain, i) == -1 || (0 <= Link(chain, i) < |m.nodes| && !Passes(m, goal, Link(chain, i)))
    requires result == if goal.Below? || goal.End? then chain[i] else Link(chain, i)
    ensures Answers(m, chain, goal, result) && (result == -1 || (result >= 0 && result in chain))
  {
    if goal.From? || goal.Below? {
      assert i + 1 < |chain| ==> chain[i + 1] != 0;
      NextDecides(m, 0, chain, goal.key, i);
      assert FirstFromAt(m, chain, goal.key, Link(chain, i), i + 1);
    }
  }

  // ---------- the writer ----------

  datatype Writer = Idle | Inserting(x: nat, prev: seq<nat>, height: nat, i: nat, copied: bool)

  /** `prev` is, at each level, the last node before `key`. */
  ghost predicate PrevOk(m: Memory, chains: seq<seq<nat>>, key: Key, prev: seq<nat>, l: nat)
    requires |chains| == MAX_HEIGHT && l < MAX_HEIGHT
  {
    && l < |prev| && prev[l] in chains[l] && HasLevel(m, prev[l], l) && Precedes(m, prev[l], key)
    && var n := m.nodes[prev[l]].next[l];
       n == -1 || (0 < n < |m.nodes| && key < m.nodes[n].key)
  }

  /** The new node's link at the current level is its predecessor's. */
  predicate Copied(m: Memory, w: Writer)
    requires w.Inserting?
  {
    && HasLevel(m, w.x, w.i) && w.i < |w.prev| && HasLevel(m, w.prev[w.i], w.i)
    && m.nodes[w.x].next[w.i] == m.nodes[w.prev[w.i]].next[w.i]
  }

  /** What the insertion has done: the node is on the levels below `i` and on no other. */
  ghost predicate WriterInv(m: Memory, chains: seq<seq<nat>>, w: Writer)
    requires |chains| == MAX_HEIGHT
  {
    w.Inserting? ==>
      && 0 < w.x < |m.nodes| && 1 <= w.height <= MAX_HEIGHT && |m.nodes[w.x].next| == w.height && w.i < w.height <= m.maxHeight
      && (forall l | w.i <= l < w.height :: PrevOk(m, chains, m.nodes[w.x].key, w.prev, l))
      && (forall l | 0 <= l < MAX_HEIGHT :: w.x in chains[l] <==> l < w.i)
      && (w.copied ==> Copied(m, w))
  }

  /** Allocate the node, and raise the height if it is taller than all others. */
  function Allocate(m: Memory, key: Key, height: nat): Memory {
    Memory(m.nodes + [Node(key, seq(height, _ => -1))], if height > m.maxHeight then height else m.maxHeight)
  }

  function SetNext(m: Memory, n: nat, l: nat, to: int): Memory
    requires HasLevel(m, n, l)
  {
    m.(nodes := m.nodes[n := m.nodes[n].(next := m.nodes[n].next[l := to])])
  }

  function Position(chain: seq<nat>, n: nat): (i: nat)
    requires n in chain
    ensures i < |chain| && chain[i] == n
  {
    if chain[0] == n then 0 else 1 + Position(chain[1..], n)
  }

  /** The chain with `x` behind `p`. */
  function InsertBehind(chain: seq<nat>, p: nat, x: nat): seq<nat>
    requires p in chain
  {
    Behind(chain, Position(chain, p), x)
  }

  /** A level depends only on its own links. */
  lemma {:induction false} LevelFrame(m: Memory, m': Memory, l: nat, chain: seq<nat>)
    requires Level(m, l, chain) && |m.nodes| <= |m'.nodes|
    requires forall i | 0 <= i < |chain| ::
               HasLevel(m', chain[i], l) && m'.nodes[chain[i]].next[l] == m.nodes[chain[i]].next[l]
               && m'.nodes[chain[i]].key == m.nodes[chain[i]].key
    ensures Level(m', l, chain)
  {
  }

  lemma {:induction false} AllocateKeeps(m: Memory, chains: seq<seq<nat>>, key: Key, height: nat)
    requires Inv(m, chains) && 1 <= height <= MAX_HEIGHT
    ensures Inv(Allocate(m, key, height), chains)
  {
    forall l | 0 <= l < MAX_HEIGHT ensures Level(Allocate(m, key, height), l, chains[l]) {
      LevelFrame(m, Allocate(m, key, height), l, chains[l]);
    }
  }

  /** Storing into the node that is not yet on this level disturbs no reader. */
  lemma {:induction false} CopyKeeps(m: Memory, chains: seq<seq<nat>>, x: nat, i: nat, to: int)
    requires Inv(m, chains) && HasLevel(m, x, i) && i < MAX_HEIGHT && x !in chains[i]
    ensures Inv(SetNext(m, x, i, to), chains)
  {
    forall l | 0 <= l < MAX_HEIGHT ensures Level(SetNext(m, x, i, to), l, chains[l]) {
      LevelFrame(m, SetNext(m, x, i, to), l, chains[l]);
    }
  }

  function Behind(chain: seq<nat>, p: nat, x: nat): (r: seq<nat>)
    requires p < |chain|
    ensures |r| == |chain| + 1
    ensures forall i | 0 <= i < |r| :: r[i] == if i <= p then chain[i] else if i == p + 1 then x else chain[i - 1]
  {
    chain[..p + 1] + [x] + chain[p + 1..]
  }

  /** The store that makes the node visible on its level. */
  lemma {:induction false} PublishLevel(m: Memory, l: nat, chain: seq<nat>, p: nat, x: nat)
    requires Level(m, l, chain) && p < |chain| && HasLevel(m, x, l) && x != 0 && x !in chain
    requires m.nodes[x].next[l] == m.nodes[chain[p]].next[l] && Precedes(m, chain[p], m.nodes[x].key)
    requires p + 1 < |chain| ==> m.nodes[x].key < m.nodes[chain[p + 1]].key
    ensures Level(SetNext(m, chain[p], l, x), l, Behind(chain, p, x))
  {
    var m', chain' := SetNext(m, chain[p], l, x), Behind(chain, p, x);
    forall i | 0 <= i < |chain'| ensures HasLevel(m', chain'[i], l) && m'.nodes[chain'[i]].next[l] == Link(chain', i) {
      PublishLink(m, l, chain, p, x, i);
    }
    forall i, j | 0 <= i < j < |chain'| ensures Precedes(m', chain'[i], m'.nodes[chain'[j]].key) {
      PublishOrder(m, l, chain, p, x, i, j);
    }
  }

  lemma {:induction false} PublishLink(m: Memory, l: nat, chain: seq<nat>, p: nat, x: nat, i: nat)
    requires Level(m, l, chain) && p < |chain| && HasLevel(m, x, l) && x !in chain && i <= |chain|
    requires m.nodes[x].next[l] == m.nodes[chain[p]].next[l]
    ensures var m', chain' := SetNext(m, chain[p], l, x), Behind(chain, p, x);
            HasLevel(m', chain'[i], l) && m'.nodes[chain'[i]].next[l] == Link(chain', i)
  {
    ChainDistinct(m, l, chain);
    if i == p || i == p + 1 {
      assert m.nodes[chain[p]].next[l] == Link(chain, p);
    } else {
      var k := if i < p then i else i - 1;
      assert m.nodes[chain[k]].next[l] == Link(chain, k);
    }
  }

  lemma {:induction false} ChainDistinct(m: Memory, l: nat, chain: seq<nat>)
    requires Level(m, l, chain)
    ensures forall i, j | 0 <= i < j < |chain| :: chain[i] != chain[j]
  {
  }

  lemma {:induction false} PublishOrder(m: Memory, l: nat, chain: seq<nat>, p: nat, x: nat, i: nat, j: nat)
    requires Level(m, l, chain) && p < |chain| && HasLevel(m, x, l) && Precedes(m, chain[p], m.nodes[x].key)
    requires p + 1 < |chain| ==> m.nodes[x].key < m.nodes[chain[p + 1]].key
    requires i < j <= |chain| && x != 0
    ensures HasLevel(m, Behind(chain, p, x)[i], l) && HasLevel(m, Behind(chain, p, x)[j], l)
    ensures Precedes(m, Behind(chain, p, x)[i], m.nodes[Behind(chain, p, x)[j]].key)
  {
    if j == p + 1 {
      assert i < p ==> Precedes(m, chain[i], m.nodes[chain[p]].key);
    } else if i == p + 1 {
      assert p + 1 < j - 1 ==> Precedes(m, chain[p + 1], m.nodes[chain[j - 1]].key);
    } else {
      assert Precedes(m, chain[if i <= p then i else i - 1], m.nodes[chain[if j <= p then j else j - 1]].key);
    }
  }

  /** The new node is ready to be published on level `w.i`. */
  ghost predicate Ready(m: Memory, chains: seq<seq<nat>>, w: Writer)
    requires |chains| == MAX_HEIGHT
  {
    && w.Inserting? && w.copied && w.i < MAX_HEIGHT && 0 < w.x < |m.nodes| && Copied(m, w) && w.i < m.maxHeight
    && PrevOk(m, chains, m.nodes[w.x].key, w.prev, w.i)
    && forall l | 0 <= l < MAX_HEIGHT :: w.x in chains[l] <==> l < w.i
  }

  lemma {:induction false} PublishHere(m: Memory, chains: seq<seq<nat>>, w: Writer)
    requires |chains| == MAX_HEIGHT && Ready(m, chains, w) && Level(m, w.i, chains[w.i])
    ensures Level(Published(m, w), w.i, ChainsAfter(chains, w)[w.i])
  {
    var chain, k := chains[w.i], Position(chains[w.i], w.prev[w.i]);
    assert m.nodes[chain[k]].next[w.i] == Link(chain, k);
    PublishLevel(m, w.i, chain, k, w.x);
  }

  lemma {:induction false} PublishLevels(m: Memory, chains: seq<seq<nat>>, w: Writer, l: nat)
    requires Inv(m, chains) && Ready(m, chains, w) && l < MAX_HEIGHT
    ensures Level(Published(m, w), l, ChainsAfter(chains, w)[l])
  {
    assert Level(m, l, chains[l]);
    if l == w.i {
      PublishHere(m, chains, w);
    } else {
      LevelFrame(m, Published(m, w), l, chains[l]);
    }
  }

  lemma {:induction false} ChainsAfterHold(m: Memory, chains: seq<seq<nat>>, w: Writer, l: nat, n: nat)
    requires |chains| == MAX_HEIGHT && Ready(m, chains, w) && l < MAX_HEIGHT
    ensures n in ChainsAfter(chains, w)[l] <==> n in chains[l] || (l == w.i && n == w.x)
  {
    BehindHolds(chains[w.i], Position(chains[w.i], w.prev[w.i]), w.x, n);
  }

  lemma {:induction false} PublishWithin(m: Memory, chains: seq<seq<nat>>, w: Writer, l: nat)
    requires |chains| == MAX_HEIGHT && Ready(m, chains, w) && 0 < l < MAX_HEIGHT && Within(chains[l], chains[l - 1])
    ensures Within(ChainsAfter(chains, w)[l], ChainsAfter(chains, w)[l - 1])
  {
    var upper, lower := ChainsAfter(chains, w)[l], ChainsAfter(chains, w)[l - 1];
    forall i | 0 <= i < |upper| ensures upper[i] in lower {
      assert upper[i] in upper;
      ChainsAfterHold(m, chains, w, l, upper[i]);
      ChainsAfterHold(m, chains, w, l - 1, upper[i]);
    }
  }

  /** Bottom-up publication keeps every level within the one below. */
  lemma {:induction false} PublishKeeps(m: Memory, chains: seq<seq<nat>>, w: Writer)
    requires Inv(m, chains) && Ready(m, chains, w)
    ensures Inv(Published(m, w), ChainsAfter(chains, w))
  {
    forall l | 0 <= l < MAX_HEIGHT ensures Level(Published(m, w), l, ChainsAfter(chains, w)[l]) {
      PublishLevels(m, chains, w, l);
    }
    forall l | 0 < l < MAX_HEIGHT ensures Within(ChainsAfter(chains, w)[l], ChainsAfter(chains, w)[l - 1]) {
      PublishWithin(m, chains, w, l);
    }
  }

  lemma {:induction false} BehindHolds(chain: seq<nat>, p: nat, x: nat, n: nat)
    requires p < |chain|
    ensures n in Behind(chain, p, x) <==> n in chain || n == x
  {
    if n in chain {
      var i :| 0 <= i < |chain| && chain[i] == n;
      assert Behind(chain, p, x)[if i <= p then i else i + 1] == n;
    }
    assert Behind(chain, p, x)[p + 1] == x;
  }

  /** Memory and chains after the store that publishes the node on level `w.i`. */
  function Published(m: Memory, w: Writer): Memory
    requires w.Inserting? && w.i < |w.prev| && HasLevel(m, w.prev[w.i], w.i)
  {
    SetNext(m, w.prev[w.i], w.i, w.x)
  }

  function ChainsAfter(chains: seq<seq<nat>>, w: Writer): seq<seq<nat>>
    requires w.Inserting? && w.i < |w.prev| && w.i < |chains| && w.prev[w.i] in chains[w.i]
  {
    chains[w.i := InsertBehind(chains[w.i], w.prev[w.i], w.x)]
  }

  // ---------- interleaved runs ----------

  /** The list, what each level holds, its writer and its readers. */
  datatype System = System(m: Memory, chains: seq<seq<nat>>, w: Writer, readers: seq<Reader>)

  datatype Step =
    | BeginInsert(key: Key, height: nat, prev: seq<nat>)
    | CopyLink
    | Publish
    | BeginRead(goal: Goal)
    | Turn(r: nat)

  ghost predicate SystemInv(s: System) {
    && Inv(s.m, s.chains) && WriterInv(s.m, s.chains, s.w)
    && forall r | 0 <= r < |s.readers| :: ReaderInv(s.m, s.chains, s.readers[r])
  }

  /** The search before an insertion found the last node before the key on every level. */
  ghost predicate Searched(m: Memory, chains: seq<seq<nat>>, key: Key, prev: seq<nat>, height: nat)
    requires |chains| == MAX_HEIGHT && height <= MAX_HEIGHT
  {
    forall l | 0 <= l < height :: PrevOk(m, chains, key, prev, l)
  }

  ghost predicate Next(s: System, step: Step, s': System)
    requires SystemInv(s)
  {
    match step
    case BeginInsert(key, height, prev) =>
      && s.w.Idle? && 1 <= height <= MAX_HEIGHT && Searched(s.m, s.chains, key, prev, height)
      && s' == s.(m := Allocate(s.m, key, height), w := Inserting(|s.m.nodes|, prev, height, 0, false))
    case CopyLink =>
      && s.w.Inserting? && !s.w.copied
      && PrevOk(s.m, s.chains, s.m.nodes[s.w.x].key, s.w.prev, s.w.i)
      && s' == s.(m := SetNext(s.m, s.w.x, s.w.i, s.m.nodes[s.w.prev[s.w.i]].next[s.w.i]), w := s.w.(copied := true))
    case Publish =>
      && Ready(s.m, s.chains, s.w)
      && s' == s.(m := Published(s.m, s.w), chains := ChainsAfter(s.chains, s.w),
                  w := if s.w.i + 1 < s.w.height then s.w.(i := s.w.i + 1, copied := false) else Idle)
    case BeginRead(goal) =>
      && (goal.After? ==> Found(s.readers, goal.node))
      && s' == s.(readers := s.readers + [StartRead(s.m, goal)])
    case Turn(r) =>
      && r < |s.readers| && s.readers[r].Searching?
      && (ReadStepKeeps(s.m, s.chains, s.readers[r]);
          s' == s.(readers := s.readers[r := ReadStep(s.m, s.readers[r])]))
  }

  /** An earlier search ended on the node; only from there does an iterator go on. */
  predicate Found(readers: seq<Reader>, n: nat) {
    exists q | 0 <= q < |readers| :: readers[q].Done? && readers[q].result == n
  }

  /** Nodes never leave a level, and their keys never change. */
  ghost predicate Grows(m: Memory, chains: seq<seq<nat>>, m': Memory, chains': seq<seq<nat>>) {
    && |chains| == MAX_HEIGHT == |chains'| && |m.nodes| <= |m'.nodes|
    && (forall l, n | 0 <= l < MAX_HEIGHT && n in chains[l] :: n in chains'[l])
    && forall n | 0 <= n < |m.nodes| :: m'.nodes[n].key == m.nodes[n].key
  }

  lemma {:induction false} ReadersKeep(s: System, s': System)
    requires SystemInv(s) && s'.readers == s.readers && Grows(s.m, s.chains, s'.m, s'.chains)
    ensures forall r | 0 <= r < |s'.readers| :: ReaderInv(s'.m, s'.chains, s'.readers[r])
  {
    forall r | 0 <= r < |s'.readers| ensures ReaderInv(s'.m, s'.chains, s'.readers[r]) {
      assert ReaderInv(s.m, s.chains, s.readers[r]);
    }
  }

  lemma {:induction false} BeginReadKeeps(s: System, goal: Goal, s': System)
    requires SystemInv(s) && Next(s, BeginRead(goal), s')
    ensures SystemInv(s')
  {
    if goal.After? {
      var q :| 0 <= q < |s.readers| && s.readers[q].Done? && s.readers[q].result == goal.node;
      assert ReaderInv(s.m, s.chains, s.readers[q]);
    }
    StartReadKeeps(s.m, s.chains, goal);
  }

  lemma {:induction false} BeginInsertKeeps(s: System, key: Key, height: nat, prev: seq<nat>, s': System)
    requires SystemInv(s) && Next(s, BeginInsert(key, height, prev), s')
    ensures SystemInv(s')
  {
    AllocateKeeps(s.m, s.chains, key, height);
    assert Level(s.m, 0, s.chains[0]) && HasLevel(s.m, s.chains[0][0], 0);
    forall l | 0 <= l < height ensures PrevOk(s'.m, s'.chains, key, prev, l) {
      assert PrevOk(s.m, s.chains, key, prev, l);
    }
    forall l | 0 <= l < MAX_HEIGHT ensures s'.w.x !in s.chains[l] {
      assert Level(s.m, l, s.chains[l]);
    }
    ReadersKeep(s, s');
  }

  lemma {:induction false} CopyLinkKeeps(s: System, s': System)
    requires SystemInv(s) && Next(s, CopyLink, s')
    ensures SystemInv(s')
  {
    CopyKeeps(s.m, s.chains, s.w.x, s.w.i, s.m.nodes[s.w.prev[s.w.i]].next[s.w.i]);
    CopyPrevs(s, s');
    ReadersKeep(s, s');
  }

  lemma {:induction false} CopyPrevs(s: System, s': System)
    requires SystemInv(s) && Next(s, CopyLink, s')
    ensures forall l | s.w.i <= l < s.w.height :: PrevOk(s'.m, s'.chains, s'.m.nodes[s.w.x].key, s.w.prev, l)
  {
    forall l | s.w.i <= l < s.w.height ensures PrevOk(s'.m, s'.chains, s'.m.nodes[s.w.x].key, s.w.prev, l) {
      assert PrevOk(s.m, s.chains, s.m.nodes[s.w.x].key, s.w.prev, l);
    }
  }

  lemma {:induction false} PublishStepKeeps(s: System, s': System)
    requires SystemInv(s) && Next(s, Publish, s')
    ensures SystemInv(s')
  {
    PublishKeeps(s.m, s.chains, s.w);
    PublishHolds(s, s');
    ReadersKeep(s, s');
    PublishWriter(s, s');
  }

  lemma {:induction false} PublishWriter(s: System, s': System)
    requires SystemInv(s) && Next(s, Publish, s')
    ensures |s'.chains| == MAX_HEIGHT && WriterInv(s'.m, s'.chains, s'.w)
  {
    PublishHolds(s, s');
    PublishPrevs(s, s');
  }

  lemma {:induction false} PublishHolds(s: System, s': System)
    requires SystemInv(s) && Next(s, Publish, s')
    ensures |s'.chains| == MAX_HEIGHT
    ensures forall l, n | 0 <= l < MAX_HEIGHT :: n in s'.chains[l] <==> n in s.chains[l] || (l == s.w.i && n == s.w.x)
  {
    forall l, n | 0 <= l < MAX_HEIGHT ensures n in s'.chains[l] <==> n in s.chains[l] || (l == s.w.i && n == s.w.x) {
      ChainsAfterHold(s.m, s.chains, s.w, l, n);
    }
  }

  lemma {:induction false} PublishPrevs(s: System, s': System)
    requires SystemInv(s) && Next(s, Publish, s')
    ensures |s'.chains| == MAX_HEIGHT && s.w.x < |s'.m.nodes|
    ensures s'.w.Inserting? ==>
              forall l | s'.w.i <= l < s'.w.height :: PrevOk(s'.m, s'.chains, s'.m.nodes[s.w.x].key, s.w.prev, l)
  {
    if s'.w.Inserting? {
      forall l | s'.w.i <= l < s'.w.height ensures PrevOk(s'.m, s'.chains, s'.m.nodes[s.w.x].key, s.w.prev, l) {
        PublishPrev(s.m, s.chains, s.w, l);
      }
    }
  }

  /** Publishing on one level leaves the links of the others. */
  lemma {:induction false} PublishPrev(m: Memory, chains: seq<seq<nat>>, w: Writer, l: nat)
    requires |chains| == MAX_HEIGHT && Ready(m, chains, w) && w.i < l < MAX_HEIGHT
    requires PrevOk(m, chains, m.nodes[w.x].key, w.prev, l)
    ensures PrevOk(Published(m, w), ChainsAfter(chains, w), Published(m, w).nodes[w.x].key, w.prev, l)
  {
    var m' := Published(m, w);
    SameKeys(m, w.prev[w.i], w.i, w.x);
    assert HasLevel(m', w.prev[l], l) && m'.nodes[w.prev[l]].next[l] == m.nodes[w.prev[l]].next[l];
    assert ChainsAfter(chains, w)[l] == chains[l];
  }

  lemma {:induction false} SameKeys(m: Memory, n: nat, l: nat, to: int)
    requires HasLevel(m, n, l)
    ensures var m' := SetNext(m, n, l, to);
            && |m'.nodes| == |m.nodes| && (forall x | 0 <= x < |m.nodes| :: m'.nodes[x].key == m.nodes[x].key)
  {
  }

  /** Every single load and store, in any order between the writer and its readers, keeps every
      level a sorted sublist of the one below; and a search that ends on this step returns what it looks
      for on the bottom level as it is now. */
  lemma {:induction false} StepKeeps(s: System, step: Step, s': System)
    requires SystemInv(s) && Next(s, step, s')
    ensures SystemInv(s')
    ensures step.Turn? && s'.readers[step.r].Done? ==>
              Level(s'.m, 0, s'.chains[0])
              && Answers(s'.m, s'.chains[0], s.readers[step.r].goal, s'.readers[step.r].result)
  {
    match step
    case BeginInsert(key, height, prev) => BeginInsertKeeps(s, key, height, prev, s');
    case CopyLink => CopyLinkKeeps(s, s');
    case Publish => PublishStepKeeps(s, s');
    case BeginRead(goal) => BeginReadKeeps(s, goal, s');
    case Turn(r) => ReadStepKeeps(s.m, s.chains, s.readers[r]);
  }

  /** The bottom level changes at one step of an insertion only, and then by the new node alone: a
      search that overlaps the insertion answers for the old list or for the new one. */
  lemma {:induction false} BottomStep(s: System, step: Step, s': System, n: nat)
    requires SystemInv(s) && Next(s, step, s')
    ensures |s'.chains| == MAX_HEIGHT
    ensures n in s'.chains[0] <==> n in s.chains[0] || (step.Publish? && s.w.i == 0 && n == s.w.x)
  {
    if step.Publish? {
      ChainsAfterHold(s.m, s.chains, s.w, 0, n);
    }
  }

  // ---------- the list on its own ----------

  /** `p` is the last node of level `l` before `key`. */
  ghost predicate LastBefore(m: Memory, l: nat, chain: seq<nat>, key: Key, p: nat) {
    && p in chain && HasLevel(m, p, l) && Precedes(m, p, key)
    && var n := m.nodes[p].next[l];
       n == -1 || (0 < n < |m.nodes| && m.nodes[n].key >= key)
  }

  /** How far down the chain a node is. */
  ghost function Left(chain: seq<nat>, n: nat): nat
    requires n in chain
  {
    |chain| - Position(chain, n)
  }

  lemma {:induction false} Advance(m: Memory, l: nat, chain: seq<nat>, x: nat)
    requires Level(m, l, chain) && x in chain
    ensures HasLevel(m, x, l)
    ensures var n := m.nodes[x].next[l];
            n == -1 || (0 < n < |m.nodes| && n in chain && Left(chain, n) < Left(chain, x))
  {
    var i := Position(chain, x);
    assert m.nodes[chain[i]].next[l] == Link(chain, i);
    if i + 1 < |chain| {
      ChainDistinct(m, l, chain);
      assert HasLevel(m, chain[i + 1], l);
      assert Position(chain, chain[i + 1]) == i + 1;
    }
  }

  lemma {:induction false} LastBeforeDecides(m: Memory, chain: seq<nat>, key: Key, p: nat)
    requires Level(m, 0, chain) && LastBefore(m, 0, chain, key, p)
    ensures IsFirstFrom(m, chain, key, m.nodes[p].next[0])
  {
    var i := Position(chain, p);
    assert m.nodes[chain[i]].next[0] == Link(chain, i);
    NextDecides(m, 0, chain, key, i);
    assert FirstFromAt(m, chain, key, m.nodes[p].next[0], i + 1);
  }

  /** The key is in the list exactly when the first node from it on carries it. */
  lemma {:induction false} FirstTells(m: Memory, chain: seq<nat>, key: Key, r: int)
    requires Level(m, 0, chain) && IsFirstFrom(m, chain, key, r)
    ensures r == -1 || 0 < r < |m.nodes|
    ensures (r != -1 && m.nodes[r].key == key) <==> exists i :: 0 < i < |chain| && m.nodes[chain[i]].key == key
  {
    var i :| FirstFromAt(m, chain, key, r, i);
    assert i < |chain| ==> HasLevel(m, chain[i], 0);
    forall j | i < j < |chain| ensures m.nodes[chain[j]].key > m.nodes[chain[i]].key {
      assert Precedes(m, chain[i], m.nodes[chain[j]].key);
    }
  }

  /** The search stands on `x` at `level`; `prev` is settled for the levels above. */
  ghost predicate Descending(m: Memory, chains: seq<seq<nat>>, key: Key, x: nat, level: nat, prev: seq<nat>)
    requires |chains| == MAX_HEIGHT
  {
    && level < m.maxHeight <= MAX_HEIGHT && |prev| == MAX_HEIGHT && x in chains[level] && x < |m.nodes| && Precedes(m, x, key)
    && forall l | level < l < m.maxHeight :: LastBefore(m, l, chains[l], key, prev[l])
  }

  /** Nothing more to pass on this level: on to the next, or done. */
  lemma {:induction false} Descend(m: Memory, chains: seq<seq<nat>>, key: Key, x: nat, level: nat, prev: seq<nat>)
    requires Inv(m, chains) && Descending(m, chains, key, x, level, prev) && HasLevel(m, x, level)
    requires var n := m.nodes[x].next[level]; n == -1 || (0 < n < |m.nodes| && m.nodes[n].key >= key)
    ensures level > 0 ==> Descending(m, chains, key, x, level - 1, prev[level := x])
    ensures level == 0 ==> Level(m, 0, chains[0]) && IsFirstFrom(m, chains[0], key, m.nodes[x].next[0])
    ensures level == 0 ==> forall l | 0 <= l < m.maxHeight :: LastBefore(m, l, chains[l], key, prev[level := x][l])
  {
    if level == 0 {
      LastBeforeDecides(m, chains[0], key, x);
    } else {
      assert Within(chains[level], chains[level - 1]);
    }
  }

  class List {
    var m: Memory
    ghost var chains: seq<seq<nat>>

    ghost predicate Valid()
      reads this
    {
      Inv(m, chains)
    }

    constructor ()
      ensures Valid() && chains == seq(MAX_HEIGHT, _ => [0])
    {
      m := Memory([Node(0.0, seq(MAX_HEIGHT, _ => -1))], 1);
      chains := seq(MAX_HEIGHT, _ => [0]);
    }

    /** FindGreaterOrEqual: the first node at or after the key, and the last one before it on every
        level in use. */
    method FindGreaterOrEqual(key: Key) returns (r: int, prev: seq<nat>)
      requires Valid()
      ensures Level(m, 0, chains[0]) && IsFirstFrom(m, chains[0], key, r)
      ensures |prev| == MAX_HEIGHT && (forall l | 0 <= l < m.maxHeight :: LastBefore(m, l, chains[l], key, prev[l]))
    {
      prev := seq(MAX_HEIGHT, _ => 0);
      var x, level: nat := 0, m.maxHeight - 1;
      while true
        invariant Descending(m, chains, key, x, level, prev)
        decreases level, Left(chains[level], x)
      {
        Advance(m, level, chains[level], x);
        var next := m.nodes[x].next[level];
        if next != -1 && m.nodes[next].key < key {
          x := next;
        } else {
          Descend(m, chains, key, x, level, prev);
          prev := prev[level := x];
          if level == 0 {
            return next, prev;
          }
          level := level - 1;
        }
      }
    }

    /** FindLessThan: the last node before the key, the head if there is none. */
    method FindLessThan(key: Key) returns (x: nat)
      requires Valid()
      ensures LastBefore(m, 0, chains[0], key, x)
    {
      var level: nat := m.maxHeight - 1;
      x := 0;
      while true
        invariant level < m.maxHeight && x in chains[level] && x < |m.nodes| && Precedes(m, x, key)
        decreases level, Left(chains[level], x)
      {
        Advance(m, level, chains[level], x);
        var next := m.nodes[x].next[level];
        if next == -1 || m.nodes[next].key >= key {
          if level == 0 {
            return;
          }
          assert Within(chains[level], chains[level - 1]);
          level := level - 1;
        } else {
          x := next;
        }
      }
    }

    /** FindLast: the last node, the head if the list is empty. */
    method FindLast() returns (x: nat)
      requires Valid()
      ensures chains[0] != [] && x == chains[0][|chains[0]| - 1]
    {
      var level: nat := m.maxHeight - 1;
      x := 0;
      while true
        invariant level < m.maxHeight && x in chains[level]
        decreases level, Left(chains[level], x)
      {
        Advance(m, level, chains[level], x);
        var next := m.nodes[x].next[level];
        if next == -1 {
          if level == 0 {
            ghost var i := Position(chains[0], x);
            assert Level(m, 0, chains[0]) && m.nodes[chains[0][i]].next[0] == Link(chains[0], i);
            return;
          }
          assert Within(chains[level], chains[level - 1]);
          level := level - 1;
        } else {
          x := next;
        }
      }
    }

    method Contains(key: Key) returns (found: bool)
      requires Valid()
      ensures Level(m, 0, chains[0])
      ensures found <==> exists i :: 0 < i < |chains[0]| && m.nodes[chains[0][i]].key == key
    {
      var x, _ := FindGreaterOrEqual(key);
      FirstTells(m, chains[0], key, x);
      found := x != -1 && m.nodes[x].key == key;
    }

    /** Insert: afterwards the bottom level has the one new node, in its place. */
    method Insert(key: Key, height: nat)
      requires Valid() && 1 <= height <= MAX_HEIGHT && NoKey(m, chains[0], key)
      modifies this
      ensures Valid() && |m.nodes| == |old(m).nodes| + 1 && m.nodes[|old(m).nodes|].key == key
      ensures forall n :: n in chains[0] <==> n in old(chains)[0] || n == |old(m).nodes|
      ensures forall n | 0 <= n < |old(m).nodes| :: m.nodes[n].key == old(m).nodes[n].key
    {
      var r, prev := FindGreaterOrEqual(key);
      var i := m.maxHeight;
      while i < height
        invariant m.maxHeight <= i && (i <= height || i == m.maxHeight)
        invariant |prev| == MAX_HEIGHT && forall l | 0 <= l < m.maxHeight :: LastBefore(m, l, chains[l], key, prev[l])
        invariant forall l | m.maxHeight <= l < i :: prev[l] == 0
      {
        prev := prev[i := 0];
        i := i + 1;
      }
      PrevsReady(m, chains, key, prev, height);
      PublishAll(key, height, prev);
    }

    /** The new node, linked in from the bottom level up. */
    method PublishAll(key: Key, height: nat, prev: seq<nat>)
      requires Valid() && 1 <= height <= MAX_HEIGHT && Searched(m, chains, key, prev, height)
      modifies this
      ensures Valid() && |m.nodes| == |old(m).nodes| + 1 && m.nodes[|old(m).nodes|].key == key
      ensures forall n :: n in chains[0] <==> n in old(chains)[0] || n == |old(m).nodes|
      ensures forall n | 0 <= n < |old(m).nodes| :: m.nodes[n].key == old(m).nodes[n].key
    {
      ghost var s := System(m, chains, Idle, []);
      var x := |m.nodes|;
      m := Allocate(m, key, height);
      BeginInsertKeeps(s, key, height, prev, System(m, chains, Inserting(x, prev, height, 0, false), []));
      for i := 0 to height
        invariant SystemInv(System(m, chains, WriterAt(x, prev, height, i), []))
        invariant |m.nodes| == x + 1 && m.nodes[x].key == key && forall n | 0 <= n < x :: m.nodes[n].key == old(m).nodes[n].key
        invariant forall n :: n in chains[0] <==> n in old(chains)[0] || (i > 0 && n == x)
      {
        LinkIn(x, prev, height, i);
      }
    }

    /** One level: copy the predecessor's link, then make the predecessor point to the node. */
    method LinkIn(x: nat, prev: seq<nat>, height: nat, i: nat)
      requires i < height && SystemInv(System(m, chains, WriterAt(x, prev, height, i), []))
      modifies this
      ensures SystemInv(System(m, chains, WriterAt(x, prev, height, i + 1), []))
      ensures |m.nodes| == |old(m).nodes| && forall n | 0 <= n < |m.nodes| :: m.nodes[n].key == old(m).nodes[n].key
      ensures forall n :: n in chains[0] <==> n in old(chains)[0] || (i == 0 && n == x)
    {
      ghost var b := CopyStep(System(m, chains, WriterAt(x, prev, height, i), []), x, prev, height, i);
      m := SetNext(m, x, i, m.nodes[prev[i]].next[i]);
      assert m == b.m;
      ghost var c := LinkStep(b, x, prev, height, i);
      m := SetNext(m, prev[i], i, x);
      chains := c.chains;
    }
  }

  lemma {:induction false} CopyStep(a: System, x: nat, prev: seq<nat>, height: nat, i: nat) returns (b: System)
    requires SystemInv(a) && a.w == Inserting(x, prev, height, i, false) && a.readers == []
    ensures HasLevel(a.m, x, i) && i < |prev| && HasLevel(a.m, prev[i], i) && i < MAX_HEIGHT
    ensures SystemInv(b) && b.m == SetNext(a.m, x, i, a.m.nodes[prev[i]].next[i]) && b.chains == a.chains
    ensures b.w == Inserting(x, prev, height, i, true) && b.readers == []
  {
    assert PrevOk(a.m, a.chains, a.m.nodes[x].key, prev, i);
    b := System(SetNext(a.m, x, i, a.m.nodes[prev[i]].next[i]), a.chains, Inserting(x, prev, height, i, true), []);
    CopyLinkKeeps(a, b);
  }

  lemma {:induction false} LinkStep(b: System, x: nat, prev: seq<nat>, height: nat, i: nat) returns (c: System)
    requires SystemInv(b) && b.w == Inserting(x, prev, height, i, true) && b.readers == []
    ensures HasLevel(b.m, x, i) && i < |prev| && HasLevel(b.m, prev[i], i) && i < MAX_HEIGHT && prev[i] in b.chains[i]
    ensures SystemInv(c) && c == System(SetNext(b.m, prev[i], i, x), ChainsAfter(b.chains, b.w), WriterAt(x, prev, height, i + 1), [])
    ensures forall n :: n in c.chains[0] <==> n in b.chains[0] || (i == 0 && n == x)
  {
    assert PrevOk(b.m, b.chains, b.m.nodes[x].key, prev, i);
    c := System(SetNext(b.m, prev[i], i, x), ChainsAfter(b.chains, b.w), WriterAt(x, prev, height, i + 1), []);
    PublishStepKeeps(b, c);
    LinkHolds(b, c);
  }

  lemma {:induction false} LinkHolds(b: System, c: System)
    requires SystemInv(b) && Next(b, Publish, c)
    ensures |c.chains| == MAX_HEIGHT
    ensures forall n :: n in c.chains[0] <==> n in b.chains[0] || (b.w.i == 0 && n == b.w.x)
  {
    forall n ensures n in c.chains[0] <==> n in b.chains[0] || (b.w.i == 0 && n == b.w.x) {
      BottomStep(b, Publish, c, n);
    }
  }

  /** The writer about to link level `i`, or done. */
  function WriterAt(x: nat, prev: seq<nat>, height: nat, i: nat): Writer {
    if i < height then Inserting(x, prev, height, i, false) else Idle
  }

  /** No node of the level has the key. */
  predicate NoKey(m: Memory, chain: seq<nat>, key: Key) {
    forall i | 0 < i < |chain| :: chain[i] < |m.nodes| ==> m.nodes[chain[i]].key != key
  }

  /** What the search leaves in `prev` is what an insertion needs; levels not in use hold the head only. */
  lemma {:induction false} PrevsReady(m: Memory, chains: seq<seq<nat>>, key: Key, prev: seq<nat>, height: nat)
    requires Inv(m, chains) && height <= MAX_HEIGHT && |prev| == MAX_HEIGHT && NoKey(m, chains[0], key)
    requires forall l | 0 <= l < m.maxHeight :: LastBefore(m, l, chains[l], key, prev[l])
    requires forall l | m.maxHeight <= l < height :: prev[l] == 0
    ensures Searched(m, chains, key, prev, height)
  {
    forall l | 0 <= l < height ensures PrevOk(m, chains, key, prev, l) {
      assert Level(m, l, chains[l]);
      if l < m.maxHeight {
        Advance(m, l, chains[l], prev[l]);
        var n := m.nodes[prev[l]].next[l];
        if n != -1 {
          InBottom(m, chains, l, n);
          var i :| 0 <= i < |chains[0]| && chains[0][i] == n;
        }
      } else {
        assert m.nodes[chains[l][0]].next[l] == Link(chains[l], 0);
      }
    }
  }

  lemma {:induction false} InBottom(m: Memory, chains: seq<seq<nat>>, l: nat, n: nat)
    requires Inv(m, chains) && l < MAX_HEIGHT && n in chains[l]
    ensures n in chains[0]
  {
    if l > 0 {
      assert Within(chains[l], chains[l - 1]);
      InBottom(m, chains, l - 1, n);
    }
  }
}
