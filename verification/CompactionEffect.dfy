/** What installing a compaction does to the tree and to reads (db/db_impl.cc). */
module CompactionEffect {
  import opened Dbformat
  import opened Version
  import opened VersionBuilder
  import opened CompactionInputs
  import opened CompactionCuts
  import opened Compaction

  /** Inputs chosen by SetupOtherInputs. */
  ghost predicate Chosen(v: Levels, level: nat, in0: seq<File>, in1: seq<File>)
    requires ValidLevels(v) && level + 1 < NUM_LEVELS
  {
    Complete(v, level, in0) && NextLevelInputs(v, level, in0, in1)
  }

  /** Files of two neighbouring levels, merged into one ordered input. */
  ghost predicate Ready(v: Levels, level: nat, in0: seq<File>, in1: seq<File>, input: seq<Entry>) {
    && ValidLevels(v) && level + 1 < NUM_LEVELS
    && (forall f | f in in0 :: f in v[level]) && (forall f | f in in1 :: f in v[level + 1])
    && Ordered(input) && Elements(input) == EntriesIn(in0) + EntriesIn(in1)
  }

  /** The tables the loop wrote: together the survivors, in order. */
  ghost predicate Written(v: Levels, level: nat, input: seq<Entry>, smallest: nat, outs: seq<File>)
    requires ValidLevels(v)
  {
    && (forall i | 0 <= i < |outs| :: outs[i].entries != [])
    && Concat(Tables(outs)) == Survivors(v, level + 2, input, |input|, smallest)
  }

  function Tables(outs: seq<File>): seq<seq<Entry>> {
    seq(|outs|, i requires 0 <= i < |outs| => outs[i].entries)
  }

  /** `w` is `v` with the inputs replaced by the outputs. */
  ghost predicate Installed(v: Levels, level: nat, in0: seq<File>, in1: seq<File>, outs: seq<File>, w: Levels)
    requires |v| == NUM_LEVELS && level + 1 < NUM_LEVELS
  {
    && |w| == NUM_LEVELS
    && (forall f :: f in w[level] <==> f in v[level] && f !in in0)
    && (forall f :: f in w[level + 1] <==> (f in v[level + 1] && f !in in1) || f in outs)
    && (forall l | 0 <= l < NUM_LEVELS && l != level && l != level + 1 :: forall f :: f in w[l] <==> f in v[l])
  }

  // ---------- where entries are ----------

  lemma {:induction false} BelowAre(v: Levels, l: nat, e: Entry)
    requires l <= |v|
    ensures e in Below(v, l) <==> exists m :: l <= m < |v| && e in EntriesIn(v[m])
    decreases |v| - l
  {
    if l < |v| {
      BelowAre(v, l + 1, e);
    }
  }

  lemma {:induction false} InBelow(v: Levels, l: nat, f: File, e: Entry)
    requires l < |v| && f in v[l] && e in f.entries
    ensures e in Below(v, 0)
  {
    BelowAre(v, 0, e);
    assert e in EntriesIn(v[l]);
  }

  lemma {:induction false} UniqueFile(files: seq<File>, f: File, g: File, e: Entry)
    requires Disjoint(files) || NumberedByAge(files)
    requires f in files && g in files && e in f.entries && e in g.entries
    ensures f == g
  {
    var i :| 0 <= i < |files| && files[i] == f;
    var j :| 0 <= j < |files| && files[j] == g;
    if Disjoint(files) {
      var k :| 0 <= k < |f.entries| && f.entries[k] == e;
      var n :| 0 <= n < |g.entries| && g.entries[n] == e;
      DisjointBefore(files, i, k, j, n);
    } else {
      assert e in Elements(files[i].entries) && e in Elements(files[j].entries);
    }
  }

  /** An entry is in one file only. */
  lemma {:induction false} UniqueHome(v: Levels, l: nat, f: File, m: nat, g: File, e: Entry)
    requires ValidLevels(v) && l < NUM_LEVELS && m < NUM_LEVELS
    requires f in v[l] && g in v[m] && e in f.entries && e in g.entries
    ensures l == m && f == g
  {
    assert e in EntriesIn(v[l]) && e in EntriesIn(v[m]);
    assert l == m;
    UniqueFile(v[l], f, g, e);
  }

  lemma {:induction false} ConcatIn(outs: seq<File>, n: nat, e: Entry)
    requires n <= |outs|
    ensures e in Concat(Tables(outs)[..n]) <==> exists i :: 0 <= i < n && e in outs[i].entries
  {
    if n > 0 {
      ConcatIn(outs, n - 1, e);
      assert Tables(outs)[..n][..n - 1] == Tables(outs)[..n - 1];
      assert e in Concat(Tables(outs)[..n]) <==> e in Concat(Tables(outs)[..n - 1]) || e in outs[n - 1].entries;
    }
  }

  lemma {:induction false} OutputsAreSurvivors(v: Levels, level: nat, input: seq<Entry>, smallest: nat, outs: seq<File>, e: Entry)
    requires ValidLevels(v) && Ordered(input) && Written(v, level, input, smallest, outs)
    ensures e in EntriesIn(outs) <==>
            exists i :: 0 <= i < |input| && input[i] == e && !Drops(v, level + 2, input, i, smallest)
  {
    ConcatIn(outs, |outs|, e);
    assert Tables(outs)[..|outs|] == Tables(outs);
    SurvivorsAre(v, level + 2, input, |input|, smallest);
    if i :| 0 <= i < |outs| && e in outs[i].entries {
      assert outs[i] in outs;
    }
    if e in EntriesIn(outs) {
      var i, k := Locate(outs, e);
    }
  }

  // ---------- what a compaction removes ----------

  ghost function Dropped(v: Levels, level: nat, input: seq<Entry>, smallest: nat): set<Entry>
    requires ValidLevels(v)
  {
    set i | 0 <= i < |input| && Drops(v, level + 2, input, i, smallest) :: input[i]
  }

  lemma {:induction false} DroppedIndex(v: Levels, level: nat, input: seq<Entry>, smallest: nat, i: nat)
    requires ValidLevels(v) && Ordered(input) && i < |input|
    ensures input[i] in Dropped(v, level, input, smallest) <==> Drops(v, level + 2, input, i, smallest)
  {
  }

  /** Exactly the dropped entries disappear from the tree. */
  lemma {:induction false} RemovesDropped(v: Levels, level: nat, in0: seq<File>, in1: seq<File>, input: seq<Entry>,
                                          smallest: nat, outs: seq<File>, w: Levels)
    requires Ready(v, level, in0, in1, input) && Written(v, level, input, smallest, outs)
    requires Installed(v, level, in0, in1, outs, w)
    ensures Below(w, 0) == Below(v, 0) - Dropped(v, level, input, smallest)
  {
    forall e | e in Below(w, 0) ensures e in Below(v, 0) && e !in Dropped(v, level, input, smallest) {
      NothingElseIn(v, level, in0, in1, input, smallest, outs, w, e);
    }
    forall e | e in Below(v, 0) && e !in Dropped(v, level, input, smallest) ensures e in Below(w, 0) {
      NothingElseOut(v, level, in0, in1, input, smallest, outs, w, e);
    }
  }

  lemma {:induction false} NothingElseIn(v: Levels, level: nat, in0: seq<File>, in1: seq<File>, input: seq<Entry>,
                                         smallest: nat, outs: seq<File>, w: Levels, e: Entry)
    requires Ready(v, level, in0, in1, input) && Written(v, level, input, smallest, outs)
    requires Installed(v, level, in0, in1, outs, w) && e in Below(w, 0)
    ensures e in Below(v, 0) && e !in Dropped(v, level, input, smallest)
  {
    BelowAre(w, 0, e);
    var m :| 0 <= m < NUM_LEVELS && e in EntriesIn(w[m]);
    var f :| f in w[m] && e in f.entries;
    if f in outs && m == level + 1 {
      assert e in EntriesIn(outs);
      OutputsAreSurvivors(v, level, input, smallest, outs, e);
      SurvivorNotDropped(v, level, in0, in1, input, smallest, e);
    } else {
      KeptFile(v, level, in0, in1, outs, w, m, f);
      KeptNotDropped(v, level, in0, in1, input, smallest, m, f, e);
      InBelow(v, m, f, e);
    }
  }

  lemma {:induction false} KeptFile(v: Levels, level: nat, in0: seq<File>, in1: seq<File>, outs: seq<File>, w: Levels,
                                    m: nat, f: File)
    requires |v| == NUM_LEVELS && level + 1 < NUM_LEVELS && Installed(v, level, in0, in1, outs, w) && m < NUM_LEVELS
    ensures f in w[m] && !(m == level + 1 && f in outs) ==>
              f in v[m] && !(m == level && f in in0) && !(m == level + 1 && f in in1)
    ensures f in v[m] && !(m == level && f in in0) && !(m == level + 1 && f in in1) ==> f in w[m]
    ensures m == level + 1 && f in outs ==> f in w[m]
  {
  }

  lemma {:induction false} NothingElseOut(v: Levels, level: nat, in0: seq<File>, in1: seq<File>, input: seq<Entry>,
                                          smallest: nat, outs: seq<File>, w: Levels, e: Entry)
    requires ValidLevels(v) && level + 1 < NUM_LEVELS && Written(v, level, input, smallest, outs)
    requires Ordered(input) && Elements(input) == EntriesIn(in0) + EntriesIn(in1)
    requires Installed(v, level, in0, in1, outs, w)
    requires e in Below(v, 0) && e !in Dropped(v, level, input, smallest)
    ensures e in Below(w, 0)
  {
    BelowAre(v, 0, e);
    var m :| 0 <= m < NUM_LEVELS && e in EntriesIn(v[m]);
    var f :| f in v[m] && e in f.entries;
    if (m == level && f in in0) || (m == level + 1 && f in in1) {
      var g := InputGoesOut(v, level, in0, in1, input, smallest, outs, f, e);
      OutputIn(v, level, in0, in1, outs, w, g, e);
    } else {
      KeptIn(v, level, in0, in1, outs, w, m, f, e);
    }
  }

  lemma {:induction false} OutputIn(v: Levels, level: nat, in0: seq<File>, in1: seq<File>, outs: seq<File>, w: Levels,
                                    g: File, e: Entry)
    requires |v| == NUM_LEVELS && level + 1 < NUM_LEVELS && Installed(v, level, in0, in1, outs, w)
    requires g in outs && e in g.entries
    ensures e in Below(w, 0)
  {
    KeptFile(v, level, in0, in1, outs, w, level + 1, g);
    InBelow(w, level + 1, g, e);
  }

  lemma {:induction false} KeptIn(v: Levels, level: nat, in0: seq<File>, in1: seq<File>, outs: seq<File>, w: Levels,
                                  m: nat, f: File, e: Entry)
    requires |v| == NUM_LEVELS && level + 1 < NUM_LEVELS && Installed(v, level, in0, in1, outs, w) && m < NUM_LEVELS
    requires f in v[m] && !(m == level && f in in0) && !(m == level + 1 && f in in1) && e in f.entries
    ensures e in Below(w, 0)
  {
    KeptFile(v, level, in0, in1, outs, w, m, f);
    InBelow(w, m, f, e);
  }

  lemma {:induction false} InputGoesOut(v: Levels, level: nat, in0: seq<File>, in1: seq<File>, input: seq<Entry>,
                                        smallest: nat, outs: seq<File>, f: File, e: Entry) returns (g: File)
    requires ValidLevels(v) && Written(v, level, input, smallest, outs)
    requires Ordered(input) && Elements(input) == EntriesIn(in0) + EntriesIn(in1)
    requires (f in in0 || f in in1) && e in f.entries && e !in Dropped(v, level, input, smallest)
    ensures g in outs && e in g.entries
  {
    var i := InputIndex(in0, in1, input, f, e);
    g := InputSurvives(v, level, input, smallest, outs, i);
  }

  lemma {:induction false} InputSurvives(v: Levels, level: nat, input: seq<Entry>, smallest: nat, outs: seq<File>, i: nat)
    returns (g: File)
    requires ValidLevels(v) && Ordered(input) && Written(v, level, input, smallest, outs) && i < |input|
    requires input[i] !in Dropped(v, level, input, smallest)
    ensures g in outs && input[i] in g.entries
  {
    DroppedIndex(v, level, input, smallest, i);
    OutputsAreSurvivors(v, level, input, smallest, outs, input[i]);
    g :| g in outs && input[i] in g.entries;
  }

  lemma {:induction false} InputIndex(in0: seq<File>, in1: seq<File>, input: seq<Entry>, f: File, e: Entry) returns (i: nat)
    requires Elements(input) == EntriesIn(in0) + EntriesIn(in1) && (f in in0 || f in in1) && e in f.entries
    ensures i < |input| && input[i] == e
  {
    assert e in EntriesIn(in0) + EntriesIn(in1);
    assert e in Elements(input);
    i :| 0 <= i < |input| && input[i] == e;
  }

  lemma {:induction false} InputHome(v: Levels, level: nat, in0: seq<File>, in1: seq<File>, input: seq<Entry>, i: nat)
    returns (l: nat, f: File)
    requires Ready(v, level, in0, in1, input) && i < |input|
    ensures (l == level && f in in0) || (l == level + 1 && f in in1)
    ensures l < NUM_LEVELS && f in v[l] && input[i] in f.entries
  {
    assert input[i] in Elements(input);
    if input[i] in EntriesIn(in0) {
      l := level;
      f :| f in in0 && input[i] in f.entries;
    } else {
      l := level + 1;
      f :| f in in1 && input[i] in f.entries;
    }
  }

  lemma {:induction false} KeptNotDropped(v: Levels, level: nat, in0: seq<File>, in1: seq<File>, input: seq<Entry>,
                                          smallest: nat, m: nat, f: File, e: Entry)
    requires Ready(v, level, in0, in1, input) && m < NUM_LEVELS && f in v[m] && e in f.entries
    requires !(m == level && f in in0) && !(m == level + 1 && f in in1)
    ensures e !in Elements(input) && e !in Dropped(v, level, input, smallest)
  {
    forall i | 0 <= i < |input| ensures input[i] != e {
      var l, g := InputHome(v, level, in0, in1, input, i);
      if input[i] == e {
        UniqueHome(v, l, g, m, f, e);
      }
    }
  }

  lemma {:induction false} SurvivorNotDropped(v: Levels, level: nat, in0: seq<File>, in1: seq<File>, input: seq<Entry>,
                                              smallest: nat, e: Entry)
    requires Ready(v, level, in0, in1, input)
    requires exists i :: 0 <= i < |input| && input[i] == e && !Drops(v, level + 2, input, i, smallest)
    ensures e in Below(v, 0) && e !in Dropped(v, level, input, smallest)
  {
    var i :| 0 <= i < |input| && input[i] == e && !Drops(v, level + 2, input, i, smallest);
    DroppedIndex(v, level, input, smallest, i);
    var l, f := InputHome(v, level, in0, in1, input, i);
    InBelow(v, l, f, e);
  }

  // ---------- what readers notice ----------

  /** The entries of the next level that the compaction leaves where they are. */
  ghost function LeftBelow(v: Levels, level: nat, in1: seq<File>): set<Entry>
    requires |v| == NUM_LEVELS && level + 1 < NUM_LEVELS
  {
    set f, e | f in v[level + 1] && f !in in1 && e in f.entries :: e
  }

  lemma {:induction false} ContentsUnambiguous(mem: seq<Entry>, imm: seq<Entry>, v: Levels)
    requires ValidLayers(mem, imm, v)
    ensures Unambiguous(Contents(mem, imm, v))
  {
    BelowUnambiguous(v, 0);
    SeekFindsNewest(mem, 0.0, 0);
    SeekFindsNewest(imm, 0.0, 0);
    LayerHit(Elements(imm), Below(v, 0), 0.0, 0);
    LayerHit(Elements(mem), Elements(imm) + Below(v, 0), 0.0, 0);
  }

  lemma {:induction false} DroppedBelow(v: Levels, level: nat, in0: seq<File>, in1: seq<File>, input: seq<Entry>, smallest: nat)
    requires Ready(v, level, in0, in1, input)
    ensures Dropped(v, level, input, smallest) <= Below(v, 0)
  {
    forall e | e in Dropped(v, level, input, smallest) ensures e in Below(v, 0) {
      var i :| 0 <= i < |input| && Drops(v, level + 2, input, i, smallest) && input[i] == e;
      var l, f := InputHome(v, level, in0, in1, input, i);
      InBelow(v, l, f, e);
    }
  }

  lemma {:induction false} ContentsAfter(mem: seq<Entry>, imm: seq<Entry>, v: Levels, level: nat, in0: seq<File>,
                                         in1: seq<File>, input: seq<Entry>, smallest: nat, outs: seq<File>, w: Levels)
    requires ValidLayers(mem, imm, v)
    requires Ready(v, level, in0, in1, input) && Written(v, level, input, smallest, outs)
    requires Installed(v, level, in0, in1, outs, w)
    ensures Contents(mem, imm, w) == Contents(mem, imm, v) - Dropped(v, level, input, smallest)
  {
    RemovesDropped(v, level, in0, in1, input, smallest, outs, w);
    DroppedBelow(v, level, in0, in1, input, smallest);
  }

  /** Entries after a visible version of the same user key are all hidden. */
  lemma {:induction false} OlderHidden(input: seq<Entry>, i: nat, j: nat, smallest: nat)
    requires Ordered(input) && i < j < |input| && input[i].key.ukey == input[j].key.ukey
    requires input[i].key.sequence <= smallest
    ensures Hidden(input, j, smallest)
  {
    assert i < j - 1 ==> Before(input[i], input[j - 1]);
    assert i < j ==> Before(input[j - 1], input[j]);
  }

  lemma {:induction false} OlderIsLater(input: seq<Entry>, i: nat, j: nat)
    requires Ordered(input) && i < |input| && j < |input| && input[i].key.ukey == input[j].key.ukey
    requires input[j].key.sequence < input[i].key.sequence
    ensures i < j
  {
  }

  /** Once its marker is dropped, the only older versions of a user key are those left below. */
  lemma {:induction false} BelowHome(v: Levels, d: Entry) returns (m: nat, g: File)
    requires |v| == NUM_LEVELS && d in Below(v, 0)
    ensures m < NUM_LEVELS && g in v[m] && d in g.entries
  {
    BelowAre(v, 0, d);
    m :| 0 <= m < NUM_LEVELS && d in EntriesIn(v[m]);
    g :| g in v[m] && d in g.entries;
  }

  lemma {:induction false} OlderLeftBelow(v: Levels, level: nat, in0: seq<File>, in1: seq<File>, input: seq<Entry>,
                                          smallest: nat, i: nat, d: Entry)
    requires Ready(v, level, in0, in1, input) && Chosen(v, level, in0, in1)
    requires i < |input| && Obsolete(v, level + 2, input[i], smallest)
    requires d in Below(v, 0) && d !in Dropped(v, level, input, smallest)
    requires d.key.ukey == input[i].key.ukey && d.key.sequence < input[i].key.sequence
    ensures d in LeftBelow(v, level, in1)
  {
    var l, f := InputHome(v, level, in0, in1, input, i);
    var m, g := BelowHome(v, d);
    OlderHome(v, level, in0, in1, input, smallest, i, l, f, m, g, d);
  }

  lemma {:induction false} InputIsBelow(v: Levels, level: nat, in0: seq<File>, in1: seq<File>, input: seq<Entry>, i: nat)
    requires Ready(v, level, in0, in1, input) && i < |input|
    ensures input[i] in Below(v, 0)
  {
    var l, f := InputHome(v, level, in0, in1, input, i);
    InBelow(v, l, f, input[i]);
  }

  lemma {:induction false} OlderIsBelow(mem: seq<Entry>, imm: seq<Entry>, v: Levels, t: Entry, d: Entry)
    requires ValidLayers(mem, imm, v) && t in Below(v, 0) && d in Contents(mem, imm, v)
    requires d.key.ukey == t.key.ukey && d.key.sequence < t.key.sequence
    ensures d in Below(v, 0)
  {
  }

  /** An older version of a user key is at the same level or deeper. */
  lemma {:induction false} NotShallower(v: Levels, l: nat, f: File, m: nat, g: File, e: Entry, d: Entry)
    requires ValidLevels(v) && l < NUM_LEVELS && m < NUM_LEVELS && f in v[l] && g in v[m] && e in f.entries && d in g.entries
    requires d.key.ukey == e.key.ukey && d.key.sequence < e.key.sequence
    ensures l <= m
  {
    assert d in EntriesIn(v[m]) && e in EntriesIn(v[l]);
    assert m < l ==> NewerThan(EntriesIn(v[m]), EntriesIn(v[l]));
  }

  lemma {:induction false} OlderHome(v: Levels, level: nat, in0: seq<File>, in1: seq<File>, input: seq<Entry>, smallest: nat,
                                     i: nat, l: nat, f: File, m: nat, g: File, d: Entry)
    requires Ready(v, level, in0, in1, input) && Chosen(v, level, in0, in1)
    requires i < |input| && Obsolete(v, level + 2, input[i], smallest)
    requires (l == level && f in in0) || (l == level + 1 && f in in1)
    requires f in v[l] && input[i] in f.entries
    requires m < NUM_LEVELS && g in v[m] && d in g.entries && d !in Dropped(v, level, input, smallest)
    requires d.key.ukey == input[i].key.ukey && d.key.sequence < input[i].key.sequence
    ensures m == level + 1 && g !in in1
  {
    OlderInputDropped(in0, in1, input, v, level, smallest, i, g, d);
    NotShallower(v, l, f, m, g, input[i], d);
    if m == level && l == level && f in in0 {
      StaysNewer(v, level, in0, f, g, input[i], d);
    } else if m >= level + 2 {
      DeepHasNone(v, level + 2, input[i].key.ukey, m, g);
    }
  }

  /** What stays at the level of an input is newer. */
  lemma {:induction false} StaysNewer(v: Levels, level: nat, in0: seq<File>, f: File, g: File, t: Entry, d: Entry)
    requires ValidLevels(v) && level < NUM_LEVELS && Complete(v, level, in0) && f in in0 && t in f.entries
    requires g in v[level] && d in g.entries && d.key.ukey == t.key.ukey
    ensures g in in0 || d.key.sequence > t.key.sequence
  {
    if g !in in0 {
      LeftBehindIsNewer(v, level, in0, g);
      assert t in EntriesIn(in0) && d in Elements(g.entries);
    }
  }

  lemma {:induction false} OlderInputDropped(in0: seq<File>, in1: seq<File>, input: seq<Entry>, v: Levels, level: nat,
                                             smallest: nat, i: nat, g: File, d: Entry)
    requires ValidLevels(v) && Ordered(input) && Elements(input) == EntriesIn(in0) + EntriesIn(in1)
    requires i < |input| && input[i].key.sequence <= smallest && d in g.entries
    requires d.key.ukey == input[i].key.ukey && d.key.sequence < input[i].key.sequence
    ensures g in in0 || g in in1 ==> d in Dropped(v, level, input, smallest)
  {
    if g in in0 || g in in1 {
      var j := InputIndex(in0, in1, input, g, d);
      OlderIsLater(input, i, j);
      OlderHidden(input, i, j, smallest);
      DroppedIndex(v, level, input, smallest, j);
    }
  }

  lemma {:induction false} DeepHasNone(v: Levels, deep: nat, u: UserKey, m: nat, g: File)
    requires ValidLevels(v) && BaseLevel(v, deep, u) && deep <= m < NUM_LEVELS && g in v[m]
    ensures forall e | e in g.entries :: e.key.ukey != u
  {
    var i :| 0 <= i < |v[m]| && v[m][i] == g;
    assert FileAt(v, m, i) == g;
    NoOverlapNoEntry(g, u);
  }

  // ---------- reads, in terms of sets ----------

  /** A newer version, visible to every snapshot in use, hides `e`. */
  ghost predicate Shadowed(e: Entry, s: set<Entry>, smallest: nat) {
    exists p :: p in s && p.key.ukey == e.key.ukey && e.key.sequence < p.key.sequence <= smallest
  }

  /** `e` is a deletion marker whose older versions, if any remain, are all in `left`. */
  ghost predicate LastMarker(e: Entry, after: set<Entry>, left: set<Entry>, smallest: nat) {
    && e.key.typ.Deletion? && e.key.sequence <= smallest
    && forall d | d in after && d.key.ukey == e.key.ukey && d.key.sequence < e.key.sequence :: d in left
  }

  /** What the drop rules remove: hidden versions, and markers with nothing older than `left`. */
  ghost predicate Removable(s: set<Entry>, dropped: set<Entry>, left: set<Entry>, smallest: nat) {
    && Unambiguous(s) && left <= s - dropped && dropped <= s
    && forall e | e in dropped :: Shadowed(e, s, smallest) || LastMarker(e, s - dropped, left, smallest)
  }

  /** A dropped entry that the oldest snapshot reads, with an older value left for it to find. */
  ghost predicate Resurfaces(t: Entry, s: set<Entry>, dropped: set<Entry>, left: set<Entry>, smallest: nat) {
    && t in dropped && IsNewest(t, s, t.key.ukey, smallest)
    && ValueOf(Newest(left, t.key.ukey, t.key.sequence)).Some?
  }

  lemma {:induction false} NewestOfLeft(s: set<Entry>, dropped: set<Entry>, left: set<Entry>, smallest: nat, snap: nat,
                                        t: Entry, d: Entry)
    requires Removable(s, dropped, left, smallest) && t in dropped && snap >= smallest
    requires IsNewest(t, s, t.key.ukey, snap) && !Shadowed(t, s, smallest)
    ensures IsNewest(d, s - dropped, t.key.ukey, snap) <==> IsNewest(d, left, t.key.ukey, t.key.sequence)
  {
    assert LastMarker(t, s - dropped, left, smallest);
  }

  /** A read changes only where a dropped marker lets an older value resurface. */
  lemma {:induction false} ReadUnchanged(s: set<Entry>, dropped: set<Entry>, left: set<Entry>, smallest: nat,
                                         u: UserKey, snap: nat)
    requires Removable(s, dropped, left, smallest) && snap >= smallest
    requires forall t: Entry | t.key.ukey == u :: !Resurfaces(t, s, dropped, left, smallest)
    ensures Read(s - dropped, u, snap) == Read(s, u, snap)
  {
    NewestNone(s, u, snap);
    NewestNone(s - dropped, u, snap);
    match Newest(s, u, snap)
    case None =>
    case Some(t) =>
      if t in dropped {
        assert IsNewest(t, s, u, smallest);
        SameNewest(s, dropped, left, smallest, t, snap);
      } else {
        assert IsNewest(t, s - dropped, u, snap);
        NewestIs(t, s - dropped, u, snap);
      }
  }

  lemma {:induction false} SameNewest(s: set<Entry>, dropped: set<Entry>, left: set<Entry>, smallest: nat, t: Entry, snap: nat)
    requires Removable(s, dropped, left, smallest) && snap >= smallest
    requires t in dropped && IsNewest(t, s, t.key.ukey, snap)
    ensures LastMarker(t, s - dropped, left, smallest)
    ensures Newest(s - dropped, t.key.ukey, snap) == Newest(left, t.key.ukey, t.key.sequence)
  {
    forall d ensures IsNewest(d, s - dropped, t.key.ukey, snap) <==> IsNewest(d, left, t.key.ukey, t.key.sequence) {
      NewestOfLeft(s, dropped, left, smallest, snap, t, d);
    }
    if d :| IsNewest(d, left, t.key.ukey, t.key.sequence) {
      NewestIs(d, left, t.key.ukey, t.key.sequence);
      NewestIs(d, s - dropped, t.key.ukey, snap);
    }
  }

  /** Where a value resurfaces, the oldest snapshot reads it instead of nothing. */
  lemma {:induction false} ReadChanged(s: set<Entry>, dropped: set<Entry>, left: set<Entry>, smallest: nat, t: Entry)
    requires Removable(s, dropped, left, smallest) && Resurfaces(t, s, dropped, left, smallest)
    ensures Read(s, t.key.ukey, smallest) == None && Read(s - dropped, t.key.ukey, smallest).Some?
  {
    SameNewest(s, dropped, left, smallest, t, smallest);
    NewestIs(t, s, t.key.ukey, smallest);
  }

  // ---------- the compaction theorem ----------

  lemma {:induction false} HiddenIsShadowed(v: Levels, level: nat, in0: seq<File>, in1: seq<File>, input: seq<Entry>,
                                            smallest: nat, i: nat, s: set<Entry>)
    requires Ready(v, level, in0, in1, input) && smallest < MAX_SEQUENCE && Below(v, 0) <= s
    requires i < |input| && Hidden(input, i, smallest)
    ensures Shadowed(input[i], s, smallest)
  {
    InputIsBelow(v, level, in0, in1, input, i - 1);
    assert Before(input[i - 1], input[i]);
  }

  lemma {:induction false} ObsoleteIsLast(mem: seq<Entry>, imm: seq<Entry>, v: Levels, level: nat, in0: seq<File>,
                                          in1: seq<File>, input: seq<Entry>, smallest: nat, i: nat)
    requires ValidLayers(mem, imm, v) && Ready(v, level, in0, in1, input) && Chosen(v, level, in0, in1)
    requires i < |input| && Obsolete(v, level + 2, input[i], smallest)
    ensures LastMarker(input[i], Contents(mem, imm, v) - Dropped(v, level, input, smallest), LeftBelow(v, level, in1), smallest)
  {
    InputIsBelow(v, level, in0, in1, input, i);
    forall d | d in Contents(mem, imm, v) - Dropped(v, level, input, smallest)
               && d.key.ukey == input[i].key.ukey && d.key.sequence < input[i].key.sequence
      ensures d in LeftBelow(v, level, in1)
    {
      OlderIsBelow(mem, imm, v, input[i], d);
      OlderLeftBelow(v, level, in0, in1, input, smallest, i, d);
    }
  }

  lemma {:induction false} LeftStays(v: Levels, level: nat, in0: seq<File>, in1: seq<File>, input: seq<Entry>, smallest: nat)
    requires Ready(v, level, in0, in1, input)
    ensures LeftBelow(v, level, in1) <= Below(v, 0) - Dropped(v, level, input, smallest)
  {
    forall e | e in LeftBelow(v, level, in1) ensures e in Below(v, 0) - Dropped(v, level, input, smallest) {
      var g :| g in v[level + 1] && g !in in1 && e in g.entries;
      KeptNotDropped(v, level, in0, in1, input, smallest, level + 1, g, e);
      InBelow(v, level + 1, g, e);
    }
  }

  /** The drop rules of the loop remove only what is removable. */
  lemma {:induction false} DropsAreRemovable(mem: seq<Entry>, imm: seq<Entry>, v: Levels, level: nat, in0: seq<File>,
                                             in1: seq<File>, input: seq<Entry>, smallest: nat)
    requires ValidLayers(mem, imm, v) && Ready(v, level, in0, in1, input) && Chosen(v, level, in0, in1) && smallest < MAX_SEQUENCE
    ensures Removable(Contents(mem, imm, v), Dropped(v, level, input, smallest), LeftBelow(v, level, in1), smallest)
  {
    var s, dropped, left := Contents(mem, imm, v), Dropped(v, level, input, smallest), LeftBelow(v, level, in1);
    ContentsUnambiguous(mem, imm, v);
    DroppedBelow(v, level, in0, in1, input, smallest);
    LeftStays(v, level, in0, in1, input, smallest);
    forall e | e in dropped ensures Shadowed(e, s, smallest) || LastMarker(e, s - dropped, left, smallest) {
      var i :| 0 <= i < |input| && Drops(v, level + 2, input, i, smallest) && input[i] == e;
      if Hidden(input, i, smallest) {
        HiddenIsShadowed(v, level, in0, in1, input, smallest, i, s);
      } else {
        ObsoleteIsLast(mem, imm, v, level, in0, in1, input, smallest, i);
      }
    }
  }

  /** A compaction is invisible to every snapshot in use exactly when no dropped deletion marker
      leaves an older value of its user key behind in the next level. */
  lemma {:induction false} InvisibleExactlyWhen(mem: seq<Entry>, imm: seq<Entry>, v: Levels, level: nat, in0: seq<File>,
                                                in1: seq<File>, input: seq<Entry>, smallest: nat, outs: seq<File>, w: Levels)
    requires ValidLayers(mem, imm, v) && smallest < MAX_SEQUENCE
    requires Ready(v, level, in0, in1, input) && Chosen(v, level, in0, in1) && Written(v, level, input, smallest, outs)
    requires Installed(v, level, in0, in1, outs, w)
    ensures (forall u, snap: nat | snap >= smallest ::
               Read(Contents(mem, imm, w), u, snap) == Read(Contents(mem, imm, v), u, snap))
            <==>
            (forall t :: !Resurfaces(t, Contents(mem, imm, v), Dropped(v, level, input, smallest),
                                     LeftBelow(v, level, in1), smallest))
  {
    var s, dropped, left := Contents(mem, imm, v), Dropped(v, level, input, smallest), LeftBelow(v, level, in1);
    DropsAreRemovable(mem, imm, v, level, in0, in1, input, smallest);
    ContentsAfter(mem, imm, v, level, in0, in1, input, smallest, outs, w);
    if t :| Resurfaces(t, s, dropped, left, smallest) {
      ReadChanged(s, dropped, left, smallest, t);
      assert Read(Contents(mem, imm, w), t.key.ukey, smallest) != Read(s, t.key.ukey, smallest);
    } else {
      forall u, snap: nat | snap >= smallest
        ensures Read(Contents(mem, imm, w), u, snap) == Read(s, u, snap)
      {
        ReadUnchanged(s, dropped, left, smallest, u, snap);
      }
    }
  }

  /** If no file left in the next level continues the last user key of the inputs there - what
      closing the inputs at that level too would ensure - nothing resurfaces. */
  lemma {:induction false} ClosedBelowSuffices(mem: seq<Entry>, imm: seq<Entry>, v: Levels, level: nat, in0: seq<File>,
                                               in1: seq<File>, input: seq<Entry>, smallest: nat, largest: InternalKey)
    requires ValidLayers(mem, imm, v) && Ready(v, level, in0, in1, input) && Chosen(v, level, in0, in1)
    requires ValidFiles(in1) && (in1 != [] ==> IsLargest(largest, in1) && NoBoundary(v[level + 1], largest))
    ensures forall t :: !Resurfaces(t, Contents(mem, imm, v), Dropped(v, level, input, smallest),
                                    LeftBelow(v, level, in1), smallest)
  {
    forall t | t in Dropped(v, level, input, smallest)
      ensures Newest(LeftBelow(v, level, in1), t.key.ukey, t.key.sequence).None?
    {
      var i :| 0 <= i < |input| && Drops(v, level + 2, input, i, smallest) && input[i] == t;
      NothingOlderLeft(v, level, in0, in1, input, i, largest);
    }
  }

  lemma {:induction false} NothingOlderLeft(v: Levels, level: nat, in0: seq<File>, in1: seq<File>, input: seq<Entry>,
                                            i: nat, largest: InternalKey)
    requires Ready(v, level, in0, in1, input) && Chosen(v, level, in0, in1) && i < |input|
    requires ValidFiles(in1) && (in1 != [] ==> IsLargest(largest, in1) && NoBoundary(v[level + 1], largest))
    ensures Newest(LeftBelow(v, level, in1), input[i].key.ukey, input[i].key.sequence).None?
  {
    var l, f := InputHome(v, level, in0, in1, input, i);
    var left, k := LeftBelow(v, level, in1), input[i].key;
    NewestNone(left, k.ukey, k.sequence);
    forall d | d in left ensures !Visible(d, k.ukey, k.sequence) {
      var g :| g in v[level + 1] && g !in in1 && d in g.entries;
      LeftIsNewer(v, level, in0, in1, largest, l, f, input[i], g, d);
    }
  }

  lemma {:induction false} LeftIsNewer(v: Levels, level: nat, in0: seq<File>, in1: seq<File>, largest: InternalKey,
                                       l: nat, f: File, t: Entry, g: File, d: Entry)
    requires ValidLevels(v) && level + 1 < NUM_LEVELS && ValidFiles(in0) && ValidFiles(in1)
    requires NextLevelInputs(v, level, in0, in1)
    requires in1 != [] ==> IsLargest(largest, in1) && NoBoundary(v[level + 1], largest)
    requires (l == level && f in in0) || (l == level + 1 && f in in1 && f in v[level + 1])
    requires t in f.entries && g in v[level + 1] && g !in in1 && d in g.entries
    ensures d.key.ukey == t.key.ukey ==> d.key.sequence > t.key.sequence
  {
    NextLevelAround(v, level, in0, in1, g);
    if l == level {
      assert t in EntriesIn(in0);
    } else {
      assert t in EntriesIn(in1) && d in Elements(g.entries);
      BoundaryKeyDiffers(v, level, in0, in1, largest, f, t, g, d);
    }
  }

  lemma {:induction false} BoundaryKeyDiffers(v: Levels, level: nat, in0: seq<File>, in1: seq<File>, largest: InternalKey,
                                              f: File, t: Entry, g: File, d: Entry)
    requires ValidLevels(v) && level + 1 < NUM_LEVELS && ValidFiles(in1)
    requires IsLargest(largest, in1) && NoBoundary(v[level + 1], largest)
    requires f in in1 && t in f.entries && g in v[level + 1] && g !in in1 && d in g.entries
    requires AllBefore(Elements(g.entries), EntriesIn(in0) + EntriesIn(in1)) || AllBefore(EntriesIn(in0) + EntriesIn(in1), Elements(g.entries))
    ensures d.key.ukey == t.key.ukey ==> Before(d, t)
  {
    var inputs := EntriesIn(in0) + EntriesIn(in1);
    assert t in inputs && d in Elements(g.entries);
    if AllBefore(inputs, Elements(g.entries)) {
      var a :| 0 <= a < |in1| && in1[a].Largest() == largest;
      var last := in1[a].entries[|in1[a].entries| - 1];
      assert last in in1[a].entries && in1[a] in in1 && last in inputs;
      assert g.entries[0] in Elements(g.entries);
      var b :| 0 <= b < |in1| && in1[b] == f;
      var c :| 0 <= c < |v[level + 1]| && v[level + 1][c] == g;
      UserRange(f, t);
      UserRange(g, d);
      assert Before(last, g.entries[0]);
      assert !IsBoundary(v[level + 1][c], largest);
    }
  }

  // ---------- what the picker could check ----------

  /** The last entry of the inputs from the next level. */
  lemma {:induction false} LastInput(in1: seq<File>, largest: InternalKey) returns (last: Entry)
    requires ValidFiles(in1) && IsLargest(largest, in1)
    ensures last in EntriesIn(in1) && last.key == largest
  {
    var a :| 0 <= a < |in1| && in1[a].Largest() == largest;
    last := in1[a].entries[|in1[a].entries| - 1];
    assert in1[a] in in1 && last in in1[a].entries;
  }

  lemma {:induction false} BoundaryNotInput(in1: seq<File>, largest: InternalKey, g: File)
    requires ValidFiles(in1) && IsLargest(largest, in1) && g.Valid() && IsBoundary(g, largest)
    ensures g !in in1
  {
    StartsBeforeEnds(g);
    forall a | 0 <= a < |in1| ensures in1[a] != g {
      assert !Less(largest, in1[a].Largest());
    }
  }

  /** A file that continues the last user key of the inputs comes after all of them. */
  lemma {:induction false} BoundaryFollows(v: Levels, level: nat, in0: seq<File>, in1: seq<File>, largest: InternalKey, g: File)
    requires ValidLevels(v) && level + 1 < NUM_LEVELS && ValidFiles(in0) && NextLevelInputs(v, level, in0, in1)
    requires ValidFiles(in1) && IsLargest(largest, in1) && g in v[level + 1] && g.Valid() && IsBoundary(g, largest)
    ensures g !in in1 && AllBefore(EntriesIn(in0) + EntriesIn(in1), Elements(g.entries))
  {
    BoundaryNotInput(in1, largest, g);
    NextLevelAround(v, level, in0, in1, g);
    var last := LastInput(in1, largest);
    NotBefore(EntriesIn(in0) + EntriesIn(in1), g, last);
  }

  lemma {:induction false} NotBefore(inputs: set<Entry>, g: File, last: Entry)
    requires g.Valid() && last in inputs && IsBoundary(g, last.key)
    ensures !AllBefore(Elements(g.entries), inputs)
  {
    assert g.entries[0] in Elements(g.entries);
    assert !Before(g.entries[0], last);
  }

  /** A file left in the next level that comes after the inputs and has their last user key continues it. */
  lemma {:induction false} FollowerIsBoundary(in0: seq<File>, in1: seq<File>, largest: InternalKey, g: File, d: Entry)
    requires ValidFiles(in1) && IsLargest(largest, in1) && g.Valid() && d in g.entries && d.key.ukey == largest.ukey
    requires AllBefore(EntriesIn(in0) + EntriesIn(in1), Elements(g.entries))
    ensures IsBoundary(g, largest)
  {
    var last := LastInput(in1, largest);
    assert last in EntriesIn(in0) + EntriesIn(in1) && g.entries[0] in Elements(g.entries);
    UserRange(g, d);
    assert Before(last, g.entries[0]);
  }

  /** What is left of the last user key begins with the first entry of the file that continues it. */
  lemma {:induction false} BoundaryIsNewestLeft(v: Levels, level: nat, in0: seq<File>, in1: seq<File>, largest: InternalKey, g: File, t: Entry)
    requires ValidLevels(v) && level + 1 < NUM_LEVELS && ValidFiles(in0) && ValidFiles(in1) && NextLevelInputs(v, level, in0, in1)
    requires IsLargest(largest, in1) && IsSmallestBoundary(v[level + 1], largest, g)
    requires t in EntriesIn(in0) + EntriesIn(in1) && t.key.ukey == largest.ukey
    ensures g.Valid() && IsNewest(g.entries[0], LeftBelow(v, level, in1), t.key.ukey, t.key.sequence)
  {
    var files, left := v[level + 1], LeftBelow(v, level, in1);
    BoundaryFollows(v, level, in0, in1, largest, g);
    assert g.entries[0] in Elements(g.entries) && g.entries[0] in left;
    assert Before(t, g.entries[0]);
    forall d | d in left && Visible(d, t.key.ukey, t.key.sequence) ensures d.key.sequence <= g.entries[0].key.sequence {
      var h :| h in files && h !in in1 && d in h.entries;
      OlderFollows(v, level, in0, in1, t, h, d);
      FollowerIsBoundary(in0, in1, largest, h, d);
      FirstOfBoundary(files, largest, g, h, d);
    }
  }

  /** A file left below that has something older than an input comes after all inputs. */
  lemma {:induction false} OlderFollows(v: Levels, level: nat, in0: seq<File>, in1: seq<File>, t: Entry, h: File, d: Entry)
    requires ValidLevels(v) && level + 1 < NUM_LEVELS && ValidFiles(in0) && NextLevelInputs(v, level, in0, in1)
    requires t in EntriesIn(in0) + EntriesIn(in1)
    requires h in v[level + 1] && h !in in1 && d in h.entries && Visible(d, t.key.ukey, t.key.sequence)
    ensures AllBefore(EntriesIn(in0) + EntriesIn(in1), Elements(h.entries))
  {
    NextLevelAround(v, level, in0, in1, h);
    assert d in Elements(h.entries);
    assert AllBefore(Elements(h.entries), EntriesIn(in0) + EntriesIn(in1)) ==> Before(d, t);
  }

  /** The smallest file that continues a user key begins with the newest version that any of them has. */
  lemma {:induction false} FirstOfBoundary(files: seq<File>, largest: InternalKey, g: File, h: File, d: Entry)
    requires Disjoint(files) && IsSmallestBoundary(files, largest, g)
    requires h in files && h.Valid() && IsBoundary(h, largest) && d in h.entries && d.key.ukey == largest.ukey
    ensures d.key.sequence <= g.entries[0].key.sequence
  {
    var a :| 0 <= a < |files| && files[a] == g;
    var b :| 0 <= b < |files| && files[b] == h;
    var n :| 0 <= n < |h.entries| && h.entries[n] == d;
    if a == b {
      assert n == 0 || Before(h.entries[0], d);
    } else {
      assert IsBoundary(files[b], largest);
      if b < a {
        FileOrder(files, b, a);
      }
      DisjointBefore(files, a, 0, b, n);
    }
  }

  /** Something older than an input is left below only at the last user key of the inputs there. */
  lemma {:induction false} OnlyAtLastKey(v: Levels, level: nat, in0: seq<File>, in1: seq<File>, largest: InternalKey, t: Entry, d: Entry)
    requires ValidLevels(v) && level + 1 < NUM_LEVELS && ValidFiles(in0) && ValidFiles(in1) && NextLevelInputs(v, level, in0, in1)
    requires IsLargest(largest, in1) && t in EntriesIn(in0) + EntriesIn(in1)
    requires d in LeftBelow(v, level, in1) && Visible(d, t.key.ukey, t.key.sequence)
    ensures t.key.ukey == largest.ukey
  {
    var g :| g in v[level + 1] && g !in in1 && d in g.entries;
    NextLevelAround(v, level, in0, in1, g);
    assert t !in EntriesIn(in0);
    LastKeyAround(in1, largest, EntriesIn(in0) + EntriesIn(in1), g, t, d);
  }

  lemma {:induction false} LastKeyAround(in1: seq<File>, largest: InternalKey, inputs: set<Entry>, g: File, t: Entry, d: Entry)
    requires ValidFiles(in1) && IsLargest(largest, in1) && EntriesIn(in1) <= inputs && t in EntriesIn(in1)
    requires AllBefore(Elements(g.entries), inputs) || AllBefore(inputs, Elements(g.entries))
    requires d in g.entries && Visible(d, t.key.ukey, t.key.sequence)
    ensures t.key.ukey == largest.ukey
  {
    var last := LastInput(in1, largest);
    assert d in Elements(g.entries) && t in inputs && last in inputs;
    var a, n := Locate(in1, t);
    UserRange(in1[a], t);
    assert !Less(largest, in1[a].Largest());
    assert AllBefore(Elements(g.entries), inputs) ==> Before(d, t);
    assert Before(last, d);
  }

  lemma {:induction false} LeftUnambiguous(v: Levels, level: nat, in1: seq<File>)
    requires ValidLevels(v) && level + 1 < NUM_LEVELS
    ensures Unambiguous(LeftBelow(v, level, in1))
  {
    BelowUnambiguous(v, 0);
    forall e | e in LeftBelow(v, level, in1) ensures e in Below(v, 0) {
      var g :| g in v[level + 1] && g !in in1 && e in g.entries;
      InBelow(v, level + 1, g, e);
    }
  }

  /** What is left below a dropped entry. */
  lemma {:induction false} LeftBelowDropped(v: Levels, level: nat, in0: seq<File>, in1: seq<File>, largest: InternalKey, g: File, t: Entry)
    requires ValidLevels(v) && level + 1 < NUM_LEVELS && ValidFiles(in0) && NextLevelInputs(v, level, in0, in1)
    requires ValidFiles(in1) && IsLargest(largest, in1) && IsSmallestBoundary(v[level + 1], largest, g)
    requires t in EntriesIn(in0) + EntriesIn(in1)
    ensures g.Valid()
    ensures Newest(LeftBelow(v, level, in1), t.key.ukey, t.key.sequence) == if t.key.ukey == largest.ukey then Some(g.entries[0]) else None
  {
    var left := LeftBelow(v, level, in1);
    LeftUnambiguous(v, level, in1);
    if t.key.ukey == largest.ukey {
      BoundaryIsNewestLeft(v, level, in0, in1, largest, g, t);
      NewestIs(g.entries[0], left, t.key.ukey, t.key.sequence);
    } else {
      NewestNone(left, t.key.ukey, t.key.sequence);
      forall d | d in left ensures !Visible(d, t.key.ukey, t.key.sequence) {
        if Visible(d, t.key.ukey, t.key.sequence) {
          OnlyAtLastKey(v, level, in0, in1, largest, t, d);
        }
      }
    }
  }

  /** The loop drops the version that the oldest snapshot reads exactly when it is a marker of the
      inputs whose user key no deeper file covers: rule (A) only takes what nobody reads. */
  lemma {:induction false} NewestDropped(v: Levels, level: nat, in0: seq<File>, in1: seq<File>, input: seq<Entry>,
                                         smallest: nat, s: set<Entry>, t: Entry)
    requires Ready(v, level, in0, in1, input) && smallest < MAX_SEQUENCE && Below(v, 0) <= s
    requires IsNewest(t, s, t.key.ukey, smallest)
    ensures t in Dropped(v, level, input, smallest) <==>
            t in Elements(input) && t.key.typ.Deletion? && BaseLevel(v, level + 2, t.key.ukey)
  {
    if t in Dropped(v, level, input, smallest) {
      var i :| 0 <= i < |input| && Drops(v, level + 2, input, i, smallest) && input[i] == t;
      if Hidden(input, i, smallest) {
        HiddenIsShadowed(v, level, in0, in1, input, smallest, i, s);
        assert false;
      }
    }
    if t in Elements(input) && t.key.typ.Deletion? && BaseLevel(v, level + 2, t.key.ukey) {
      var i :| 0 <= i < |input| && input[i] == t;
      assert Obsolete(v, level + 2, input[i], smallest);
    }
  }

  /** When a file goes on with the last user key of the inputs from the next level, a key resurfaces
      exactly if that file begins with a value, no deeper file covers the user key, and what the oldest
      snapshot reads of it is a marker among the inputs. When no file goes on, none resurfaces. */
  lemma {:induction false} ResurfacesExactlyWhen(mem: seq<Entry>, imm: seq<Entry>, v: Levels, level: nat, in0: seq<File>,
                                                 in1: seq<File>, input: seq<Entry>, smallest: nat, largest: InternalKey, g: File)
    requires Ready(v, level, in0, in1, input) && Chosen(v, level, in0, in1) && smallest < MAX_SEQUENCE
    requires ValidFiles(in1) && IsLargest(largest, in1) && IsSmallestBoundary(v[level + 1], largest, g)
    ensures (exists t :: Resurfaces(t, Contents(mem, imm, v), Dropped(v, level, input, smallest), LeftBelow(v, level, in1), smallest))
            <==> && g.Smallest().typ.Value? && BaseLevel(v, level + 2, largest.ukey)
                 && exists t {:trigger IsNewest(t, Contents(mem, imm, v), largest.ukey, smallest)} ::
                      t in Elements(input) && t.key.typ.Deletion? && IsNewest(t, Contents(mem, imm, v), largest.ukey, smallest)
  {
    var s, dropped, left := Contents(mem, imm, v), Dropped(v, level, input, smallest), LeftBelow(v, level, in1);
    forall t
      ensures Resurfaces(t, s, dropped, left, smallest) <==>
              && g.Smallest().typ.Value? && BaseLevel(v, level + 2, largest.ukey)
              && t in Elements(input) && t.key.typ.Deletion? && IsNewest(t, s, largest.ukey, smallest)
    {
      ResurfacesWhen(v, level, in0, in1, input, smallest, largest, g, s, t);
    }
  }

  lemma {:induction false} ResurfacesWhen(v: Levels, level: nat, in0: seq<File>, in1: seq<File>, input: seq<Entry>,
                                          smallest: nat, largest: InternalKey, g: File, s: set<Entry>, t: Entry)
    requires Ready(v, level, in0, in1, input) && Chosen(v, level, in0, in1) && smallest < MAX_SEQUENCE && Below(v, 0) <= s
    requires ValidFiles(in1) && IsLargest(largest, in1) && IsSmallestBoundary(v[level + 1], largest, g)
    ensures Resurfaces(t, s, Dropped(v, level, input, smallest), LeftBelow(v, level, in1), smallest) <==>
            && g.Smallest().typ.Value? && BaseLevel(v, level + 2, largest.ukey)
            && t in Elements(input) && t.key.typ.Deletion? && IsNewest(t, s, largest.ukey, smallest)
  {
    var dropped, left := Dropped(v, level, input, smallest), LeftBelow(v, level, in1);
    if t in Elements(input) {
      LeftBelowDropped(v, level, in0, in1, largest, g, t);
      assert ValueOf(Newest(left, t.key.ukey, t.key.sequence)).Some? <==> t.key.ukey == largest.ukey && g.Smallest().typ.Value?;
    }
    if IsNewest(t, s, t.key.ukey, smallest) {
      NewestDropped(v, level, in0, in1, input, smallest, s, t);
    }
    assert t in dropped ==> t in Elements(input);
  }
}
