/** The version edits of the background thread (db/db_impl.cc). */
module Install {
  import opened Dbformat
  import opened Version
  import opened VersionBuilder
  import opened CompactionInputs
  import opened CompactionEffect
  import opened TreeInvariant

  lemma {:induction false} InFileSet(files: seq<File>, f: File)
    ensures f in FileSet(files) <==> f in files
  {
  }

  /** WriteLevel0Table and its edit: pick a level for the memtable's table and add it there. */
  method WriteLevel0Table(v: Levels, f: File, maxGrandparentOverlap: nat) returns (p: nat, w: Levels)
    requires ValidLevels(v) && SortedLevels(v) && f.Valid()
    requires forall l, g | 0 <= l < NUM_LEVELS && g in v[l] :: g.number != f.number
    ensures IsPickedLevel(v, f.Smallest().ukey, f.Largest().ukey, maxGrandparentOverlap, p)
    ensures p <= 2 && (p > 0 ==> NoOverlapUpTo(v, p, f))
    ensures Added(v, p, f, w) && SortedLevels(w)
  {
    p := PickLevelForMemTableOutput(v, f.Smallest().ukey, f.Largest().ukey, maxGrandparentOverlap);
    var edit := Edit({}, [(p, f)]);
    w := LogAndApply(v, edit);
    forall l, g: File | 0 <= l < NUM_LEVELS ensures g in w[l] <==> g in v[l] || (l == p && g == f) {
      InFileSet(w[l], g);
      InFileSet(v[l], g);
      assert edit.added[0] == (p, f);
      assert g in StepSet(FileSet(v[l]), edit, l) <==> g in FileSet(v[l]) || g in AddedAt(edit, l);
    }
  }

  function Numbers(level: nat, files: seq<File>): (r: set<(nat, nat)>)
    ensures forall l, n :: (l, n) in r <==> l == level && exists f :: f in files && f.number == n
  {
    set f | f in files :: (level, f.number)
  }

  /** InstallCompactionResults: delete the inputs, add the outputs to the next level. */
  method InstallCompactionResults(v: Levels, level: nat, in0: seq<File>, in1: seq<File>, outs: seq<File>)
    returns (w: Levels)
    requires SortedLevels(v) && DistinctNumbers(v) && level + 1 < NUM_LEVELS && ValidFiles(outs)
    requires (forall f | f in in0 :: f in v[level]) && (forall f | f in in1 :: f in v[level + 1])
    requires forall i, j | 0 <= i < j < |outs| :: outs[i].number != outs[j].number
    requires forall f, g | f in outs && g in v[level + 1] :: f.number != g.number
    ensures Installed(v, level, in0, in1, outs, w) && SortedLevels(w)
  {
    var edit := Edit(Numbers(level, in0) + Numbers(level + 1, in1),
                     seq(|outs|, i requires 0 <= i < |outs| => (level + 1, outs[i])));
    w := LogAndApply(v, edit);
    forall l, g: File | 0 <= l < NUM_LEVELS
      ensures g in w[l] <==> if l == level then g in v[l] && g !in in0
                             else if l == level + 1 then (g in v[l] && g !in in1) || g in outs
                             else g in v[l]
    {
      InFileSet(w[l], g);
      InFileSet(v[l], g);
      AddedOutputs(level, outs, edit, l, g);
      if g in v[l] {
        DeletedInputs(v, level, in0, in1, edit.deleted, l, g);
      }
    }
  }

  lemma {:induction false} AddedOutputs(level: nat, outs: seq<File>, edit: Edit, l: nat, g: File)
    requires edit.added == seq(|outs|, i requires 0 <= i < |outs| => (level + 1, outs[i]))
    ensures g in AddedAt(edit, l) <==> l == level + 1 && g in outs
  {
    if l == level + 1 && g in outs {
      var i :| 0 <= i < |outs| && outs[i] == g;
      assert edit.added[i] == (l, g);
    }
  }

  lemma {:induction false} DeletedInputs(v: Levels, level: nat, in0: seq<File>, in1: seq<File>, deleted: set<(nat, nat)>,
                                         l: nat, g: File)
    requires |v| == NUM_LEVELS && DistinctNumbers(v) && level + 1 < NUM_LEVELS && l < NUM_LEVELS
    requires (forall f | f in in0 :: f in v[level]) && (forall f | f in in1 :: f in v[level + 1])
    requires deleted == Numbers(level, in0) + Numbers(level + 1, in1) && g in v[l]
    ensures (l, g.number) in deleted <==> (l == level && g in in0) || (l == level + 1 && g in in1)
  {
    if (l, g.number) in deleted {
      var f :| (if l == level then f in in0 else f in in1) && f.number == g.number;
      var i :| 0 <= i < |v[l]| && v[l][i] == f;
      var j :| 0 <= j < |v[l]| && v[l][j] == g;
      assert v[l][i].number == v[l][j].number;
    }
  }
}
