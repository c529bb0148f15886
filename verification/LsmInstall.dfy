/** Installing a compaction: the invariant is kept always, reads are kept exactly when no
    dropped deletion marker uncovers an older value left behind one level down.  */
module LsmInstall {
  import opened Keys
  import opened Versions
  import opened Selection
  import opened CompactionRun
  import opened Lsm
  import opened Inputs
  import opened Picking
  import PickingRules
  import opened LsmFiles
  import opened LsmEdits
  import opened LsmSteps
  import opened LsmFlush
  import opened LsmCompaction

  // ------------------------------------------------------------------ what is stored after a replacement

  ghost predicate IsInput(c: Compaction, l: nat, f: File) {
    (l == c.level && f in c.inputs0) || (l == c.level + 1 && f in c.inputs1)
  }

  /** The file entries that are not inputs of the compaction. */
  ghost function LeftEntries(v: seq<seq<File>>, c: Compaction): set<Entry> {
    set l: nat, f, e | l < |v| && f in v[l] && !IsInput(c, l, f) && e in f.run :: e
  }

  ghost function InputEntries(c: Compaction): set<Entry> {
    LevelEntries(c.inputs0 + c.inputs1)
  }

  lemma StoredBefore(v: seq<seq<File>>, c: Compaction)
    requires InputsOk(c, v)
    ensures EntriesFrom(v, 0) == LeftEntries(v, c) + InputEntries(c)
  {
    forall x ensures x in EntriesFrom(v, 0) <==> x in LeftEntries(v, c) || x in InputEntries(c) {
      if x in EntriesFrom(v, 0) {
        var l, f := FileOfStored(v, x);
        if IsInput(c, l, f) { assert f in c.inputs0 + c.inputs1; }
      }
      if x in LeftEntries(v, c) {
        var l: nat, f :| l < |v| && f in v[l] && !IsInput(c, l, f) && x in f.run;
        StoredInFile(v, l, f, x);
      }
      if x in InputEntries(c) {
        var f :| f in c.inputs0 + c.inputs1 && x in f.run;
        StoredInFile(v, if f in c.inputs0 then c.level else c.level + 1, f, x);
      }
    }
  }

  lemma StoredAfter(v: seq<seq<File>>, v': seq<seq<File>>, c: Compaction, outputs: seq<File>)
    requires InputsOk(c, v) && Replaced(v, v', c.level, c.inputs0, c.inputs1, outputs)
    ensures EntriesFrom(v', 0) == LeftEntries(v, c) + LevelEntries(outputs)
  {
    forall x ensures x in EntriesFrom(v', 0) <==> x in LeftEntries(v, c) || x in LevelEntries(outputs) {
      if x in EntriesFrom(v', 0) {
        var l, f := FileOfStored(v', x);
        ReplacedFrom(v, v', c.level, c.inputs0, c.inputs1, outputs, l, f);
        if !(l == c.level + 1 && f in outputs) { assert f in v[l] && !IsInput(c, l, f); }
      }
      if x in LeftEntries(v, c) {
        var l: nat, f :| l < |v| && f in v[l] && !IsInput(c, l, f) && x in f.run;
        assert f in v'[l];
        StoredInFile(v', l, f, x);
      }
      if x in LevelEntries(outputs) {
        var f :| f in outputs && x in f.run;
        assert f in v'[c.level + 1];
        StoredInFile(v', c.level + 1, f, x);
      }
    }
  }

  lemma FewerEntriesKeepPlaces(mem: Run, imm: Run, v: seq<seq<File>>, v': seq<seq<File>>, log: seq<Entry>)
    requires PlacesOk(mem, imm, v, log) && EntriesFrom(v', 0) <= EntriesFrom(v, 0)
    ensures PlacesOk(mem, imm, v', log)
  {
  }

  lemma IsReplaceable(c: Compaction, v: seq<seq<File>>, outputs: seq<File>)
    requires VersionOk(v) && InputsOk(c, v)
    requires AllFilesOk(outputs) && Disjoint(outputs) && LevelEntries(outputs) <= InputEntries(c)
    ensures Replaceable(v, c.level, c.inputs0, c.inputs1, outputs)
  {
  }

  // ------------------------------------------------------------------ trivial moves

  lemma MoveKeepsNumbers(v: seq<seq<File>>, v': seq<seq<File>>, level: nat, f: File, next: nat)
    requires NumbersUnique(v) && NumbersBelow(v, next) && Replaced(v, v', level, [f], [], [f]) && f in v[level]
    ensures NumbersUnique(v') && NumbersBelow(v', next)
  {
    forall l, m, g, h | 0 <= l < |v'| && 0 <= m < |v'| && g in v'[l] && h in v'[m] && g.number == h.number
      ensures l == m && g == h
    {
      ReplacedFrom(v, v', level, [f], [], [f], l, g);
      ReplacedFrom(v, v', level, [f], [], [f], m, h);
    }
    forall l, g | 0 <= l < |v'| && g in v'[l] ensures g.number < next {
      ReplacedFrom(v, v', level, [f], [], [f], l, g);
    }
  }

  /** Moving a file down changes neither the version invariant nor what is stored. */
  lemma MoveKeepsFiles(c: Compaction, v: seq<seq<File>>, next: nat)
    requires FilesOk(v, next) && InputsOk(c, v) && |c.inputs0| == 1 && c.inputs1 == []
    ensures FilesOk(ApplyEdit(v, MoveEdit(c)), next)
    ensures EntriesFrom(ApplyEdit(v, MoveEdit(c)), 0) == EntriesFrom(v, 0)
  {
    assert |v| == NUM_LEVELS;
    hide VersionOk, InputsOk, ApplyEdit, LevelsInOrder, NumbersUnique, NumbersBelow;
    var v', f := ApplyEdit(v, MoveEdit(c)), c.inputs0[0];
    assert c.inputs0 == [f];
    InputFacts(c, v);
    MoveEffect(v, c);
    MovedFileOk(c, v, f);
    IsReplaceable(c, v, [f]);
    ReplacedOk(v, v', c.level, c.inputs0, c.inputs1, [f]);
    MoveKeepsNumbers(v, v', c.level, f, next);
    StoredBefore(v, c);
    StoredAfter(v, v', c, [f]);
    SameInputs(c, f);
    ReplacedInOrder(v, v', c.level, c.inputs0, c.inputs1, [f]);
  }

  /** What makes a move trivial: one file, nothing to merge it with in the next level, and at most ten file sizes below
      that for it to lie over; exactly then it is moved and not rewritten. */
  lemma TrivialMoveIff(maxFileSize: nat, c: Compaction)
    requires |c.base| == NUM_LEVELS && c.level + 1 < NUM_LEVELS && c.inputs0 != []
    ensures IsTrivialMove(maxFileSize, c) <==>
            && |c.inputs0 + c.inputs1| == |c.inputs0| == 1
            && (c.level + 2 < NUM_LEVELS ==>
                  TotalFileSize(OverlappingInputs(c.level + 2, c.base[c.level + 2], UserRange(c.inputs0))) <=
                    10 * maxFileSize)
  {
    if c.inputs1 == [] { assert c.inputs0 + c.inputs1 == c.inputs0; }
    PickingRules.TotalOfNone();
    hide TotalFileSize, OverlappingInputs, UserRange;
  }

  lemma MoveKeepsInv(maxFileSize: nat, d: Db)
    requires Inv(d) && Enabled(maxFileSize, d, Move)
    ensures Inv(Apply(maxFileSize, d, Move))
    ensures All(Apply(maxFileSize, d, Move)) == All(d)
  {
    hide FilesOk, LogOk, PlacesOk, SnapshotsOk, InputsOk, BaseOk, SmallestOk, ApplyEdit, MoveEdit, Grandparents;
    var c := d.running.value;
    var v' := ApplyEdit(d.v, MoveEdit(c));
    MoveKeepsFiles(c, d.v, d.next);
    FewerEntriesKeepPlaces(d.mem, ImmRun(d), d.v, v', d.log);
  }

  lemma SameInputs(c: Compaction, f: File)
    requires c.inputs0 == [f] && c.inputs1 == []
    ensures LevelEntries([f]) == InputEntries(c)
  {
    assert c.inputs0 + c.inputs1 == [f];
  }

  lemma MovedFileOk(c: Compaction, v: seq<seq<File>>, f: File)
    requires VersionOk(v) && InputsOk(c, v) && c.inputs0 == [f] && c.inputs1 == []
    ensures AllFilesOk([f]) && Disjoint([f]) && LevelEntries([f]) <= InputEntries(c)
  {
    InputsAreBounded(c, v);
    SameInputs(c, f);
  }

  lemma ReplacedInOrder(v: seq<seq<File>>, v': seq<seq<File>>, level: nat, inputs0: seq<File>, inputs1: seq<File>,
                        outputs: seq<File>)
    requires Replaced(v, v', level, inputs0, inputs1, outputs)
    ensures LevelsInOrder(v')
  {
  }

  // ------------------------------------------------------------------ installs

  lemma InstalledEntries(c: Compaction, v: seq<seq<File>>, outputs: seq<File>)
    requires Contents(outputs) == Kept(c.base, c.level, c.smallest, MergedInputs(c), |MergedInputs(c)|)
    requires Sorted(MergedInputs(c))
    ensures LevelEntries(outputs) <= InputEntries(c)
  {
    var m := MergedInputs(c);
    KeptIsSorted(c.base, c.level, c.smallest, m, |m|);
    forall x | x in LevelEntries(outputs) ensures x in InputEntries(c) {
      ContentsHolds(outputs, x);
      assert x in m[..|m|];
      MergedHolds(c, x);
    }
  }

  lemma InstallKeepsNumbers(v: seq<seq<File>>, v': seq<seq<File>>, c: Compaction, outputs: seq<File>, next: nat)
    requires NumbersUnique(v) && NumbersBelow(v, next) && ReservedOk(c.reserved, v, next)
    requires Replaced(v, v', c.level, c.inputs0, c.inputs1, outputs)
    requires DistinctNumbers(outputs) && forall f :: f in outputs ==> f.number in c.reserved
    ensures NumbersUnique(v') && NumbersBelow(v', next)
  {
    forall l, m, g, h | 0 <= l < |v'| && 0 <= m < |v'| && g in v'[l] && h in v'[m] && g.number == h.number
      ensures l == m && g == h
    {
      ReplacedFrom(v, v', c.level, c.inputs0, c.inputs1, outputs, l, g);
      ReplacedFrom(v, v', c.level, c.inputs0, c.inputs1, outputs, m, h);
      if g in outputs && h in outputs {
        var i :| 0 <= i < |outputs| && outputs[i] == g;
        var j :| 0 <= j < |outputs| && outputs[j] == h;
      }
    }
    forall l, g | 0 <= l < |v'| && g in v'[l] ensures g.number < next {
      ReplacedFrom(v, v', c.level, c.inputs0, c.inputs1, outputs, l, g);
    }
  }

  ghost predicate Installable(c: Compaction, v: seq<seq<File>>, next: nat, outputs: seq<File>) {
    && FilesOk(v, next) && InputsOk(c, v) && ReservedOk(c.reserved, v, next)
    && UniqueSeqnos(EntriesFrom(v, 0))
    && AllFilesOk(outputs) && Disjoint(outputs)
    && (forall f :: f in outputs ==> f.number in c.reserved) && DistinctNumbers(outputs)
    && Contents(outputs) == Kept(c.base, c.level, c.smallest, MergedInputs(c), |MergedInputs(c)|)
  }

  lemma InstallReplaces(c: Compaction, v: seq<seq<File>>, next: nat, outputs: seq<File>)
    requires Installable(c, v, next, outputs)
    ensures Replaced(v, ApplyEdit(v, CompactionEdit(c, outputs)), c.level, c.inputs0, c.inputs1, outputs)
  {
    hide VersionOk, ApplyEdit, UniqueSeqnos, Kept, MergedInputs;
    InputFacts(c, v);
    CompactionEffect(v, c, outputs);
  }

  lemma InstallKeepsFiles(c: Compaction, v: seq<seq<File>>, next: nat, outputs: seq<File>)
    requires Installable(c, v, next, outputs)
    ensures var v' := ApplyEdit(v, CompactionEdit(c, outputs));
            && FilesOk(v', next)
            && EntriesFrom(v', 0) == LeftEntries(v, c) + LevelEntries(outputs)
            && EntriesFrom(v', 0) <= EntriesFrom(v, 0)
  {
    assert |v| == NUM_LEVELS;
    hide VersionOk, InputsOk, ApplyEdit, LevelsInOrder, NumbersUnique, NumbersBelow, Kept, MergedInputs, Replaced,
      AllFilesOk, Disjoint, UniqueSeqnos, EntriesFrom, ReservedOk;
    var v' := ApplyEdit(v, CompactionEdit(c, outputs));
    MergedSorts(c, v);
    InstalledEntries(c, v, outputs);
    InstallReplaces(c, v, next, outputs);
    IsReplaceable(c, v, outputs);
    ReplacedOk(v, v', c.level, c.inputs0, c.inputs1, outputs);
    InstallKeepsNumbers(v, v', c, outputs, next);
    StoredBefore(v, c);
    StoredAfter(v, v', c, outputs);
    ReplacedInOrder(v, v', c.level, c.inputs0, c.inputs1, outputs);
  }

  lemma InstallIsOk(maxFileSize: nat, d: Db, outputs: seq<File>)
    requires Inv(d) && Enabled(maxFileSize, d, Install(outputs))
    ensures d.running.Some? && Installable(d.running.value, d.v, d.next, outputs)
  {
    StoredIsUnique(EntriesFrom(d.v, 0), d.log);
    hide FilesOk, InputsOk, BaseOk, ReservedOk, LogOk, PlacesOk, SnapshotsOk, SmallestOk, Kept, MergedInputs,
         UniqueSeqnos;
  }

  lemma InstallMakes(maxFileSize: nat, d: Db, outputs: seq<File>)
    requires Enabled(maxFileSize, d, Install(outputs))
    ensures |d.v| == NUM_LEVELS && d.running.Some?
    ensures var c := d.running.value;
            Apply(maxFileSize, d, Install(outputs)) ==
            d.(running := None, floor := c.smallest, v := ApplyEdit(d.v, CompactionEdit(c, outputs)))
  {
    hide AllFilesOk, Disjoint, Kept, MergedInputs, ApplyEdit, CompactionEdit;
  }

  lemma RaisedFloorOk(d: Db, c: Compaction)
    requires SnapshotsOk(d.floor, d.last, d.snapshots) && SmallestOk(c, d.floor, d.last, d.snapshots)
    ensures SnapshotsOk(c.smallest, d.last, d.snapshots)
  {
  }

  /** Installing a compaction keeps the invariant, whatever the compaction dropped. */
  lemma InstallKeepsInv(maxFileSize: nat, d: Db, outputs: seq<File>)
    requires Inv(d) && Enabled(maxFileSize, d, Install(outputs))
    ensures Inv(Apply(maxFileSize, d, Install(outputs)))
  {
    hide Enabled, Apply, FilesOk, LogOk, PlacesOk, SnapshotsOk, SmallestOk, InputsOk, BaseOk, ReservedOk, ApplyEdit,
         CompactionEdit, Installable, EntriesFrom;
    InstallIsOk(maxFileSize, d, outputs);
    InstallMakes(maxFileSize, d, outputs);
    var c := d.running.value;
    InstallKeepsFiles(c, d.v, d.next, outputs);
    RaisedFloorOk(d, c);
    FewerEntriesKeepPlaces(d.mem, ImmRun(d), d.v, ApplyEdit(d.v, CompactionEdit(c, outputs)), d.log);
  }
}
