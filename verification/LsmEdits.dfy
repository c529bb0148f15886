/** What the version edits of a flush, a trivial move and a compaction do to a version. */
module LsmEdits {
  import opened Versions
  import opened Building
  import opened Lsm
  import opened LsmFiles

  lemma OneAddition(level: nat, f: File, l: nat)
    ensures AddedAt([(level, f)], l) == if l == level then {f} else {}
    ensures DistinctAdds([(level, f)], l)
  {
    if l == level {
      assert (level, f) in [(level, f)];
    }
  }

  lemma FlushEffect(v: seq<seq<File>>, level: nat, f: File)
    requires LevelsInOrder(v) && level < NUM_LEVELS
    requires forall l, g :: 0 <= l < NUM_LEVELS && g in v[l] ==> g.number != f.number
    ensures WithFile(v, ApplyEdit(v, Edit({}, [(level, f)])), level, f)
  {
    var e := Edit({}, [(level, f)]);
    forall l | 0 <= l < NUM_LEVELS
      ensures InOrder(ApplyEdit(v, e)[l])
      ensures forall g :: g in ApplyEdit(v, e)[l] <==> g in v[l] || (l == level && g == f)
    {
      OneAddition(level, f, l);
      EditEffect(v, e, l);
    }
  }

  lemma DeletionsAt(level: nat, files: seq<File>, l: nat, n: nat)
    ensures (l, n) in Deletions(level, files) <==> l == level && exists f :: f in files && f.number == n
  {
  }

  lemma AdditionsAt(level: nat, files: seq<File>, l: nat)
    ensures AddedAt(Additions(level, files), l) == if l == level then (set f | f in files) else {}
    ensures DistinctNumbers(files) ==> DistinctAdds(Additions(level, files), l)
  {
    var added := Additions(level, files);
    forall f | f in files && l == level ensures f in AddedAt(added, l) {
      var i :| 0 <= i < |files| && files[i] == f;
      assert added[i] == (level, f);
    }
  }

  lemma CompactionEffect(v: seq<seq<File>>, c: Compaction, outputs: seq<File>)
    requires LevelsInOrder(v) && NumbersUnique(v) && c.level + 1 < NUM_LEVELS
    requires forall f :: f in c.inputs0 ==> f in v[c.level]
    requires forall f :: f in c.inputs1 ==> f in v[c.level + 1]
    requires forall l, g, f :: 0 <= l < NUM_LEVELS && g in v[l] && f in outputs ==> g.number != f.number
    requires DistinctNumbers(outputs)
    ensures Replaced(v, ApplyEdit(v, CompactionEdit(c, outputs)), c.level, c.inputs0, c.inputs1, outputs)
  {
    var e := CompactionEdit(c, outputs);
    forall l | 0 <= l < NUM_LEVELS
      ensures InOrder(ApplyEdit(v, e)[l])
      ensures forall f :: f in ApplyEdit(v, e)[l] <==>
                || (f in v[l] && !(l == c.level && f in c.inputs0) && !(l == c.level + 1 && f in c.inputs1))
                || (l == c.level + 1 && f in outputs)
    {
      AdditionsAt(c.level + 1, outputs, l);
      EditEffect(v, e, l);
      forall f | f in v[l]
        ensures f.number in DeletedAt(e, l) <==>
                (l == c.level && f in c.inputs0) || (l == c.level + 1 && f in c.inputs1)
      {
        DeletedInputs(v, c, outputs, l, f);
      }
    }
  }

  lemma DeletedInputs(v: seq<seq<File>>, c: Compaction, outputs: seq<File>, l: nat, f: File)
    requires |v| == NUM_LEVELS && NumbersUnique(v) && c.level + 1 < NUM_LEVELS && l < NUM_LEVELS && f in v[l]
    requires forall f :: f in c.inputs0 ==> f in v[c.level]
    requires forall f :: f in c.inputs1 ==> f in v[c.level + 1]
    ensures f.number in DeletedAt(CompactionEdit(c, outputs), l) <==>
            (l == c.level && f in c.inputs0) || (l == c.level + 1 && f in c.inputs1)
  {
    var e := CompactionEdit(c, outputs);
    DeletionsAt(c.level, c.inputs0, l, f.number);
    DeletionsAt(c.level + 1, c.inputs1, l, f.number);
    assert f.number in DeletedAt(e, l) <==> (l, f.number) in e.deleted;
  }

  lemma MoveEffect(v: seq<seq<File>>, c: Compaction)
    requires LevelsInOrder(v) && NumbersUnique(v) && c.level + 1 < NUM_LEVELS
    requires |c.inputs0| == 1 && c.inputs1 == [] && c.inputs0[0] in v[c.level]
    ensures Replaced(v, ApplyEdit(v, MoveEdit(c)), c.level, c.inputs0, [], c.inputs0)
  {
    hide InOrder, DistinctAdds, Save, ApplyAt;
    var e, f := MoveEdit(c), c.inputs0[0];
    forall l | 0 <= l < NUM_LEVELS
      ensures InOrder(ApplyEdit(v, e)[l])
      ensures forall g :: g in ApplyEdit(v, e)[l] <==>
                (g in v[l] && !(l == c.level && g in c.inputs0)) || (l == c.level + 1 && g in c.inputs0)
    {
      OneAddition(c.level + 1, f, l);
      EditEffect(v, e, l);
      forall g | g in v[l]
        ensures g.number in DeletedAt(e, l) <==> l == c.level && g in c.inputs0
      {
        assert g.number in DeletedAt(e, l) <==> (l, g.number) in e.deleted;
      }
    }
  }
}
