/** Applying version edits: VersionSet::Builder (db/version_set.cc). */
module VersionBuilder {
  import opened Dbformat
  import opened Version

  /** The file changes of a version edit: (level, file number) pairs to delete and
      (level, file) pairs to add. */
  datatype Edit = Edit(deleted: set<(nat, nat)>, added: seq<(nat, File)>)

  predicate ValidEdit(e: Edit) {
    && (forall i | 0 <= i < |e.added| :: e.added[i].0 < NUM_LEVELS && e.added[i].1.Valid())
    && forall d | d in e.deleted :: d.0 < NUM_LEVELS
  }

  /** BySmallestKey: smallest internal key, ties broken by file number. */
  predicate FileLess(f: File, g: File)
    requires f.Valid() && g.Valid()
  {
    Less(f.Smallest(), g.Smallest()) || (f.Smallest() == g.Smallest() && f.number < g.number)
  }

  predicate SortedFiles(files: seq<File>) {
    && ValidFiles(files)
    && forall i, j | 0 <= i < j < |files| :: FileLess(files[i], files[j])
  }

  predicate SortedLevels(v: Levels) {
    |v| == NUM_LEVELS && forall l | 0 <= l < NUM_LEVELS :: SortedFiles(v[l])
  }

  lemma {:induction false} SortedHead(a: seq<File>, b: seq<File>)
    requires SortedFiles(a) && SortedFiles(b) && a != [] && b != []
    requires a[0] in b && b[0] in a
    ensures a[0] == b[0]
  {
    var i :| 0 <= i < |b| && b[i] == a[0];
    var j :| 0 <= j < |a| && a[j] == b[0];
  }

  lemma {:induction false} SortedTail(a: seq<File>, b: seq<File>)
    requires SortedFiles(a) && a != [] && b != [] && a[0] == b[0]
    requires forall f | f in a :: f in b
    ensures forall f | f in a[1..] :: f in b[1..]
  {
    forall f | f in a[1..] ensures f in b[1..] {
      var i :| 0 <= i < |a| - 1 && a[1..][i] == f;
      assert FileLess(a[0], a[i + 1]);
      assert a[i + 1] in b;
      assert b == [b[0]] + b[1..];
    }
  }

  /** A strictly sorted list is determined by its elements. */
  lemma {:induction false} SortedUnique(a: seq<File>, b: seq<File>)
    requires SortedFiles(a) && SortedFiles(b)
    requires forall f | f in a :: f in b
    requires forall f | f in b :: f in a
    ensures a == b
  {
    assert a != [] ==> a[0] in a;
    assert b != [] ==> b[0] in b;
    if a != [] && b != [] {
      SortedHead(a, b);
      SortedTail(a, b);
      SortedTail(b, a);
      SortedUnique(a[1..], b[1..]);
      assert a == [a[0]] + a[1..] && b == [b[0]] + b[1..];
    }
  }

  /** Insertion into the std::set of added files: equivalent elements are kept once. */
  function Insert(files: seq<File>, f: File): (r: seq<File>)
    requires SortedFiles(files) && f.Valid()
    requires forall g | g in files :: g.number != f.number
    ensures SortedFiles(r)
    ensures forall g :: g in r <==> g in files || g == f
  {
    if files == [] || FileLess(f, files[0]) then
      [f] + files
    else
      assert files == [files[0]] + files[1..];
      assert files[0] in files && FileLess(files[0], f);
      assert forall g | g in files[1..] :: FileLess(files[0], g);
      [files[0]] + Insert(files[1..], f)
  }

  /** MaybeAddFile: append the file unless it is deleted. */
  function MaybeAddFile(deleted: set<nat>, files: seq<File>, f: File): seq<File> {
    if f.number in deleted then files else files + [f]
  }

  /** The merge has consumed `b` base files and `a` added ones, the smaller ones of both. */
  ghost predicate Merged(base: seq<File>, added: seq<File>, deleted: set<nat>, b: nat, a: nat, files: seq<File>) {
    && SortedFiles(base) && SortedFiles(added) && b <= |base| && a <= |added|
    && SortedFiles(files)
    && (forall f :: f in files <==> (f in base[..b] || f in added[..a]) && f.number !in deleted)
    && (forall i, j | 0 <= i < a && b <= j < |base| :: FileLess(added[i], base[j]))
    && (forall i, j | 0 <= i < b && a <= j < |added| :: FileLess(base[i], added[j]))
  }

  lemma {:induction false} TakeBase(base: seq<File>, added: seq<File>, deleted: set<nat>, b: nat, a: nat, files: seq<File>)
    requires Merged(base, added, deleted, b, a, files) && b < |base|
    requires a < |added| ==> FileLess(base[b], added[a])
    ensures Merged(base, added, deleted, b + 1, a, MaybeAddFile(deleted, files, base[b]))
  {
    assert base[..b + 1] == base[..b] + [base[b]];
    forall i | 0 <= i < |files| ensures FileLess(files[i], base[b]) {
      assert files[i] in files;
    }
    forall j | a < j < |added| ensures FileLess(base[b], added[j]) {
      assert FileLess(added[a], added[j]);
    }
  }

  lemma {:induction false} TakeAdded(base: seq<File>, added: seq<File>, deleted: set<nat>, b: nat, a: nat, files: seq<File>)
    requires Merged(base, added, deleted, b, a, files) && a < |added|
    requires b < |base| ==> FileLess(added[a], base[b])
    ensures Merged(base, added, deleted, b, a + 1, MaybeAddFile(deleted, files, added[a]))
  {
    assert added[..a + 1] == added[..a] + [added[a]];
    forall i | 0 <= i < |files| ensures FileLess(files[i], added[a]) {
      assert files[i] in files;
    }
    forall j | b < j < |base| ensures FileLess(added[a], base[j]) {
      assert FileLess(base[b], base[j]);
    }
  }

  /** SaveTo for one level: merge base and added files by smallest key, dropping deleted ones. */
  method SaveLevel(base: seq<File>, added: seq<File>, deleted: set<nat>) returns (files: seq<File>)
    requires SortedFiles(base) && SortedFiles(added)
    requires forall i, j | 0 <= i < |base| && 0 <= j < |added| :: base[i].number != added[j].number
    ensures SortedFiles(files)
    ensures forall f :: f in files <==> (f in base || f in added) && f.number !in deleted
  {
    files := [];
    var b := 0;
    for a := 0 to |added|
      invariant Merged(base, added, deleted, b, a, files)
    {
      while b < |base| && !FileLess(added[a], base[b])
        invariant Merged(base, added, deleted, b, a, files)
      {
        TakeBase(base, added, deleted, b, a, files);
        files := MaybeAddFile(deleted, files, base[b]);
        b := b + 1;
      }
      TakeAdded(base, added, deleted, b, a, files);
      files := MaybeAddFile(deleted, files, added[a]);
    }
    while b < |base|
      invariant Merged(base, added, deleted, b, |added|, files)
    {
      TakeBase(base, added, deleted, b, |added|, files);
      files := MaybeAddFile(deleted, files, base[b]);
      b := b + 1;
    }
    assert base[..|base|] == base && added[..|added|] == added;
  }

  // ---------- whole edits ----------

  ghost function AddedAt(e: Edit, l: nat): set<File> {
    set i | 0 <= i < |e.added| && e.added[i].0 == l :: e.added[i].1
  }

  /** What one edit does to the files of level `l`. */
  ghost function StepSet(s: set<File>, e: Edit, l: nat): set<File> {
    (set f | f in s && (l, f.number) !in e.deleted) + AddedAt(e, l)
  }

  ghost function RunSet(s: set<File>, es: seq<Edit>, l: nat): set<File> {
    if es == [] then s else StepSet(RunSet(s, es[..|es| - 1], l), es[|es| - 1], l)
  }

  ghost function FileSet(files: seq<File>): set<File> {
    set f | f in files
  }

  /** No file number is added twice to one level, nor added to a level that already has it. */
  ghost predicate FreshFor(base: Levels, adds: seq<(nat, File)>)
    requires |base| == NUM_LEVELS
  {
    && NoClash(adds)
    && (forall i | 0 <= i < |adds| :: NoneClash(base, adds[i]))
  }

  /** The same file number on the same level. */
  predicate Clash(a: (nat, File), b: (nat, File)) {
    a.0 == b.0 && a.1.number == b.1.number
  }

  ghost predicate NoClash(adds: seq<(nat, File)>) {
    forall i, j | 0 <= i < j < |adds| :: !Clash(adds[i], adds[j])
  }

  ghost predicate NoneClash(base: Levels, a: (nat, File))
    requires |base| == NUM_LEVELS
  {
    a.0 < NUM_LEVELS ==> forall f | f in base[a.0] :: f.number != a.1.number
  }

  function AllAdds(es: seq<Edit>): seq<(nat, File)> {
    if es == [] then [] else AllAdds(es[..|es| - 1]) + es[|es| - 1].added
  }

  /** VersionSet::Builder: a base version and the accumulated effect of edits. */
  class Builder {
    const base: Levels
    var deleted: seq<set<nat>>
    var added: seq<seq<File>>

    ghost predicate Valid()
      reads this
    {
      && SortedLevels(base) && SortedLevels(added) && |deleted| == NUM_LEVELS
      && forall l, i, j | 0 <= l < NUM_LEVELS && 0 <= i < |base[l]| && 0 <= j < |added[l]| ::
           base[l][i].number != added[l][j].number
    }

    /** The files level `l` would have if the state were saved now. */
    ghost function Pending(l: nat): set<File>
      requires Valid() && l < NUM_LEVELS
      reads this
    {
      set f | f in base[l] + added[l] && f.number !in deleted[l]
    }

    ghost predicate Unused(l: nat, number: nat)
      requires Valid() && l < NUM_LEVELS
      reads this
    {
      && (forall f | f in base[l] :: f.number != number)
      && (forall f | f in added[l] :: f.number != number)
    }

    constructor (base: Levels)
      requires SortedLevels(base)
      ensures Valid() && this.base == base
      ensures deleted == seq(NUM_LEVELS, _ => {}) && added == seq(NUM_LEVELS, _ => [])
      ensures forall l | 0 <= l < NUM_LEVELS :: Pending(l) == FileSet(base[l])
      ensures forall l, n | 0 <= l < NUM_LEVELS && (forall f | f in base[l] :: f.number != n) :: Unused(l, n)
    {
      this.base := base;
      deleted := seq(NUM_LEVELS, _ => {});
      added := seq(NUM_LEVELS, _ => []);
    }

    /** The deletion loop of Apply. */
    method DeleteFiles(e: Edit)
      requires Valid() && ValidEdit(e)
      modifies this`deleted
      ensures Valid()
      ensures forall l, n | 0 <= l < NUM_LEVELS :: n in deleted[l] <==> n in old(deleted)[l] || (l, n) in e.deleted
    {
      var todo := e.deleted;
      while todo != {}
        invariant todo <= e.deleted
        invariant |deleted| == NUM_LEVELS
        invariant forall l, n | 0 <= l < NUM_LEVELS ::
                    n in deleted[l] <==> n in old(deleted)[l] || ((l, n) in e.deleted && (l, n) !in todo)
        decreases todo
      {
        var d :| d in todo;
        deleted := deleted[d.0 := deleted[d.0] + {d.1}];
        todo := todo - {d};
      }
    }

    /** One round of the loop over new files in Apply. */
    method AddFile(l: nat, f: File)
      requires Valid() && l < NUM_LEVELS && f.Valid() && Unused(l, f.number)
      modifies this
      ensures Valid()
      ensures deleted == old(deleted)[l := old(deleted)[l] - {f.number}]
      ensures forall m, g | 0 <= m < NUM_LEVELS :: g in added[m] <==> g in old(added)[m] || (m == l && g == f)
    {
      deleted := deleted[l := deleted[l] - {f.number}];
      var r := Insert(added[l], f);
      forall i, j | 0 <= i < |base[l]| && 0 <= j < |r| ensures base[l][i].number != r[j].number {
        assert r[j] in r && base[l][i] in base[l];
      }
      added := added[l := r];
    }

    /** Apply: the pending files change exactly as the edit says. */
    method Apply(e: Edit)
      requires Valid() && ValidEdit(e)
      requires forall i | 0 <= i < |e.added| :: Unused(e.added[i].0, e.added[i].1.number)
      requires NoClash(e.added)
      modifies this
      ensures Valid()
      ensures forall l | 0 <= l < NUM_LEVELS :: Pending(l) == StepSet(old(Pending(l)), e, l)
      ensures forall l, f | 0 <= l < NUM_LEVELS :: f in added[l] <==> f in old(added)[l] || f in AddedAt(e, l)
    {
      DeleteFiles(e);
      ghost var d := deleted;
      for i := 0 to |e.added|
        invariant Valid()
        invariant forall l, f | 0 <= l < NUM_LEVELS ::
                    f in added[l] <==> f in old(added)[l] || exists k | 0 <= k < i :: e.added[k] == (l, f)
        invariant forall l, n | 0 <= l < NUM_LEVELS ::
                    n in deleted[l] <==> n in d[l] && forall k | 0 <= k < i :: e.added[k].0 != l || e.added[k].1.number != n
      {
        var l, f := e.added[i].0, e.added[i].1;
        forall g | g in added[l] ensures g.number != f.number {
          if k :| 0 <= k < i && e.added[k] == (l, g) {
            assert !Clash(e.added[k], e.added[i]);
          }
        }
        AddFile(l, f);
      }
      forall l | 0 <= l < NUM_LEVELS ensures Pending(l) == StepSet(old(Pending(l)), e, l) {
        forall f ensures f in AddedAt(e, l) <==> exists k | 0 <= k < |e.added| :: e.added[k] == (l, f) {
        }
      }
    }

    /** SaveTo: every level sorted, holding exactly the pending files. */
    method SaveTo() returns (v: Levels)
      requires Valid()
      ensures SortedLevels(v)
      ensures forall l | 0 <= l < NUM_LEVELS :: FileSet(v[l]) == Pending(l)
    {
      v := [];
      for l := 0 to NUM_LEVELS
        invariant |v| == l
        invariant forall m | 0 <= m < l :: SortedFiles(v[m]) && FileSet(v[m]) == Pending(m)
      {
        var files := SaveLevel(base[l], added[l], deleted[l]);
        v := v + [files];
      }
    }
  }

  // ---------- replaying a manifest ----------

  /** The version part of LogAndApply: a new builder on the current version, one edit. */
  method LogAndApply(current: Levels, e: Edit) returns (v: Levels)
    requires SortedLevels(current) && ValidEdit(e) && FreshFor(current, e.added)
    ensures SortedLevels(v)
    ensures forall l | 0 <= l < NUM_LEVELS :: FileSet(v[l]) == StepSet(FileSet(current[l]), e, l)
  {
    var builder := new Builder(current);
    builder.Apply(e);
    v := builder.SaveTo();
  }

  lemma {:induction false} AddsSplit(es: seq<Edit>, n: nat)
    requires n <= |es|
    ensures |AllAdds(es[..n])| <= |AllAdds(es)| && AllAdds(es[..n]) == AllAdds(es)[..|AllAdds(es[..n])|]
    decreases |es|
  {
    if n == |es| {
      assert es[..n] == es;
    } else {
      AddsSplit(es[..|es| - 1], n);
      assert es[..|es| - 1][..n] == es[..n];
    }
  }

  lemma {:induction false} AddsPrefix(es: seq<Edit>, n: nat)
    requires n < |es|
    ensures AllAdds(es[..n + 1]) == AllAdds(es[..n]) + es[n].added
    ensures |AllAdds(es[..n + 1])| <= |AllAdds(es)|
    ensures AllAdds(es[..n + 1]) == AllAdds(es)[..|AllAdds(es[..n + 1])|]
  {
    assert es[..n + 1][..n] == es[..n];
    AddsSplit(es, n + 1);
  }

  /** Every file of a replayed level was there at the start or was added to it. */
  lemma {:induction false} RunSetOrigin(s: set<File>, es: seq<Edit>, l: nat, f: File)
    requires f in RunSet(s, es, l) && f !in s
    ensures exists k :: 0 <= k < |AllAdds(es)| && AllAdds(es)[k] == (l, f)
  {
    var init, e := es[..|es| - 1], es[|es| - 1];
    if f in AddedAt(e, l) {
      var i :| 0 <= i < |e.added| && e.added[i].0 == l && e.added[i].1 == f;
      assert AllAdds(es)[|AllAdds(init)| + i] == (l, f);
    } else {
      RunSetOrigin(s, init, l, f);
      var k :| 0 <= k < |AllAdds(init)| && AllAdds(init)[k] == (l, f);
      assert AllAdds(es)[k] == (l, f);
    }
  }

  lemma {:induction false} FreshNext(base: Levels, es: seq<Edit>, n: nat, current: Levels)
    requires SortedLevels(base) && FreshFor(base, AllAdds(es)) && n < |es| && SortedLevels(current)
    requires forall l | 0 <= l < NUM_LEVELS :: FileSet(current[l]) == RunSet(FileSet(base[l]), es[..n], l)
    ensures FreshFor(current, es[n].added)
  {
    var k0 := AddsAt(es, n);
    FreshSlice(base, AllAdds(es), k0, es[n].added);
    forall i, f | 0 <= i < |es[n].added| && es[n].added[i].0 < NUM_LEVELS && f in current[es[n].added[i].0]
      ensures f.number != es[n].added[i].1.number
    {
      CurrentFresh(base, es, n, es[n].added[i], k0 + i, f);
    }
  }

  lemma {:induction false} FreshSlice(base: Levels, all: seq<(nat, File)>, k0: nat, adds: seq<(nat, File)>)
    requires |base| == NUM_LEVELS && FreshFor(base, all)
    requires k0 + |adds| <= |all| && adds == all[k0..k0 + |adds|]
    ensures FreshFor(base, adds)
  {
    forall i | 0 <= i < |adds| ensures adds[i] == all[k0 + i] {
    }
  }

  /** Where the additions of edit `n` begin among all additions. */
  lemma {:induction false} AddsAt(es: seq<Edit>, n: nat) returns (k0: nat)
    requires n < |es|
    ensures k0 == |AllAdds(es[..n])| && k0 + |es[n].added| <= |AllAdds(es)|
    ensures AllAdds(es[..n]) == AllAdds(es)[..k0]
    ensures es[n].added == AllAdds(es)[k0..k0 + |es[n].added|]
  {
    AddsPrefix(es, n);
    AddsSplit(es, n);
    k0 := |AllAdds(es[..n])|;
  }

  lemma {:induction false} CurrentFresh(base: Levels, es: seq<Edit>, n: nat, a: (nat, File), k: nat, f: File)
    requires |base| == NUM_LEVELS && FreshFor(base, AllAdds(es)) && n < |es| && a.0 < NUM_LEVELS
    requires |AllAdds(es[..n])| <= k < |AllAdds(es)| && AllAdds(es)[k] == a
    requires f in RunSet(FileSet(base[a.0]), es[..n], a.0)
    ensures f.number != a.1.number
  {
    assert NoneClash(base, AllAdds(es)[k]);
    if f !in FileSet(base[a.0]) {
      RunSetOrigin(FileSet(base[a.0]), es[..n], a.0, f);
      AddsSplit(es, n);
      var j :| 0 <= j < |AllAdds(es[..n])| && AllAdds(es[..n])[j] == (a.0, f);
      assert !Clash(AllAdds(es)[j], AllAdds(es)[k]);
    }
  }

  /** Running: one LogAndApply per edit. */
  method RunEdits(base: Levels, es: seq<Edit>) returns (v: Levels)
    requires SortedLevels(base) && (forall i | 0 <= i < |es| :: ValidEdit(es[i])) && FreshFor(base, AllAdds(es))
    ensures SortedLevels(v)
    ensures forall l | 0 <= l < NUM_LEVELS :: FileSet(v[l]) == RunSet(FileSet(base[l]), es, l)
  {
    v := base;
    for n := 0 to |es|
      invariant SortedLevels(v)
      invariant forall l | 0 <= l < NUM_LEVELS :: FileSet(v[l]) == RunSet(FileSet(base[l]), es[..n], l)
    {
      FreshNext(base, es, n, v);
      v := LogAndApply(v, es[n]);
      assert es[..n + 1][..n] == es[..n];
    }
    assert es[..|es|] == es;
  }

  /** Recovery: all edits of the manifest go to one builder. */
  method Replay(base: Levels, es: seq<Edit>) returns (v: Levels)
    requires SortedLevels(base) && (forall i | 0 <= i < |es| :: ValidEdit(es[i])) && FreshFor(base, AllAdds(es))
    ensures SortedLevels(v)
    ensures forall l | 0 <= l < NUM_LEVELS :: FileSet(v[l]) == RunSet(FileSet(base[l]), es, l)
  {
    var builder := new Builder(base);
    for n := 0 to |es|
      invariant builder.Valid() && builder.base == base
      invariant forall l | 0 <= l < NUM_LEVELS :: builder.Pending(l) == RunSet(FileSet(base[l]), es[..n], l)
      invariant forall l, f | 0 <= l < NUM_LEVELS && f in builder.added[l] :: (l, f) in AllAdds(es[..n])
    {
      ReplayFresh(base, es, n, builder.added);
      AddsPrefix(es, n);
      builder.Apply(es[n]);
      assert es[..n + 1][..n] == es[..n];
    }
    assert es[..|es|] == es;
    v := builder.SaveTo();
  }

  lemma {:induction false} ReplayFresh(base: Levels, es: seq<Edit>, n: nat, added: Levels)
    requires |base| == NUM_LEVELS && FreshFor(base, AllAdds(es)) && n < |es| && |added| == NUM_LEVELS
    requires forall l, f | 0 <= l < NUM_LEVELS && f in added[l] :: (l, f) in AllAdds(es[..n])
    ensures FreshFor(base, es[n].added) && FreshFor(added, es[n].added)
  {
    var all, adds := AllAdds(es), es[n].added;
    var k0 := AddsAt(es, n);
    FreshSlice(base, all, k0, adds);
    forall i, f | 0 <= i < |adds| && adds[i].0 < NUM_LEVELS && f in added[adds[i].0]
      ensures f.number != adds[i].1.number
    {
      var j :| 0 <= j < k0 && AllAdds(es[..n])[j] == (adds[i].0, f);
      assert !Clash(all[j], all[k0 + i]);
    }
  }

  lemma {:induction false} LevelsDetermined(v: Levels, w: Levels)
    requires SortedLevels(v) && SortedLevels(w)
    requires forall l | 0 <= l < NUM_LEVELS :: FileSet(v[l]) == FileSet(w[l])
    ensures v == w
  {
    forall l | 0 <= l < NUM_LEVELS ensures v[l] == w[l] {
      forall f ensures f in v[l] <==> f in w[l] {
        assert f in FileSet(v[l]) <==> f in FileSet(w[l]);
      }
      SortedUnique(v[l], w[l]);
    }
  }

  /** A manifest replayed on opening gives the very version the edits gave one by one. */
  method ReplayMatchesRunning(base: Levels, es: seq<Edit>) returns (replayed: Levels, running: Levels)
    requires SortedLevels(base) && (forall i | 0 <= i < |es| :: ValidEdit(es[i])) && FreshFor(base, AllAdds(es))
    ensures replayed == running && SortedLevels(running)
    ensures forall l | 0 <= l < NUM_LEVELS :: FileSet(running[l]) == RunSet(FileSet(base[l]), es, l)
  {
    replayed := Replay(base, es);
    running := RunEdits(base, es);
    LevelsDetermined(replayed, running);
  }

  /** The files WriteSnapshot records. */
  function SnapshotAdds(v: Levels, l: nat): seq<(nat, File)>
    requires l <= |v|
    decreases |v| - l
  {
    if l == |v| then [] else seq(|v[l]|, i requires 0 <= i < |v[l]| => (l, v[l][i])) + SnapshotAdds(v, l + 1)
  }

  lemma {:induction false} SnapshotAddsAre(v: Levels, l: nat, m: nat, f: File)
    requires l <= |v|
    ensures (m, f) in SnapshotAdds(v, l) <==> l <= m < |v| && f in v[m]
    decreases |v| - l
  {
    if l < |v| {
      SnapshotAddsAre(v, l + 1, m, f);
      HeadAdds(v[l], l, m, f);
    }
  }

  lemma {:induction false} HeadAdds(files: seq<File>, l: nat, m: nat, f: File)
    ensures (m, f) in seq(|files|, i requires 0 <= i < |files| => (l, files[i])) <==> m == l && f in files
  {
    var head := seq(|files|, i requires 0 <= i < |files| => (l, files[i]));
    if m == l && f in files {
      var i :| 0 <= i < |files| && files[i] == f;
      assert head[i] == (m, f);
    }
  }

  ghost predicate DistinctNumbers(v: Levels) {
    forall m, i, j | 0 <= m < |v| && 0 <= i < j < |v[m]| :: v[m][i].number != v[m][j].number
  }

  lemma {:induction false} SnapshotAddsDistinct(v: Levels, l: nat)
    requires l <= |v| && DistinctNumbers(v)
    ensures NoClash(SnapshotAdds(v, l))
    decreases |v| - l
  {
    if l < |v| {
      SnapshotAddsDistinct(v, l + 1);
      var tail := SnapshotAdds(v, l + 1);
      var head := seq(|v[l]|, i requires 0 <= i < |v[l]| => (l, v[l][i]));
      forall j | 0 <= j < |tail| ensures tail[j].0 != l {
        SnapshotAddsAre(v, l + 1, tail[j].0, tail[j].1);
        assert (tail[j].0, tail[j].1) in tail;
      }
      forall i, j | 0 <= i < j < |head + tail| ensures !Clash((head + tail)[i], (head + tail)[j]) {
        if j < |head| {
          assert v[l][i].number != v[l][j].number;
        } else if i >= |head| {
          assert !Clash(tail[i - |head|], tail[j - |head|]);
        }
      }
    }
  }

  /** A snapshot record alone reproduces the version it was written from. */
  method RestoreSnapshot(v: Levels) returns (w: Levels)
    requires SortedLevels(v)
    requires DistinctNumbers(v)
    ensures w == v
  {
    var edit := Edit({}, SnapshotAdds(v, 0));
    SnapshotAddsDistinct(v, 0);
    forall i | 0 <= i < |edit.added| ensures edit.added[i].0 < NUM_LEVELS && edit.added[i].1.Valid() {
      SnapshotAddsAre(v, 0, edit.added[i].0, edit.added[i].1);
      assert (edit.added[i].0, edit.added[i].1) in edit.added;
    }
    w := LogAndApply(seq(NUM_LEVELS, _ => []), edit);
    forall l, f | 0 <= l < NUM_LEVELS ensures f in AddedAt(edit, l) <==> f in v[l] {
      SnapshotAddsAre(v, 0, l, f);
      assert f in AddedAt(edit, l) <==> (l, f) in edit.added;
    }
    forall l | 0 <= l < NUM_LEVELS ensures FileSet(w[l]) == FileSet(v[l]) {
    }
    LevelsDetermined(w, v);
  }
}
