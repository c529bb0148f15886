/** Beginning, moving and installing compactions. */
module LsmCompaction {
  import opened Keys
  import opened Versions
  import opened Inputs
  import opened Selection
  import opened Picking
  import opened Merging
  import opened CompactionRun
  import opened Lsm
  import opened LsmSteps
  import opened LsmFlush

  // ------------------------------------------------------------------ Begin

  lemma LeftBehindIsApart(files1: seq<File>, inputs0: seq<File>, inputs1: seq<File>, f: File)
    requires AllFilesOk(files1) && Disjoint(files1) && inputs0 != []
    requires forall g :: g in inputs1 <==> g in files1 && Overlaps(g, UserRange(inputs0))
    requires f in files1 && f !in inputs1
    ensures Apart(f, inputs0 + inputs1) && ClearOf(f, inputs0)
  {
    var r := UserRange(inputs0);
    SmallestToLargest(f);
    forall g | g in inputs0 + inputs1
      ensures if f.largest.user < r.begin.value then Less(f.largest, g.smallest) else Less(g.largest, f.smallest)
    {
      if g in inputs0 {
        assert !Less(g.smallest, SmallestKey(inputs0)) && !Less(LargestKey(inputs0), g.largest);
      } else {
        DisjointOrders(files1, f, g);
        SmallestToLargest(g);
      }
    }
  }

  lemma LevelIsOk(v: seq<seq<File>>, l: nat)
    requires VersionOk(v) && l < NUM_LEVELS && UniqueSeqnos(EntriesFrom(v, 0))
    ensures LevelOk(l, v[l]) && Bounded(v[l])
  {
    forall x | x in LevelEntries(v[l]) ensures x in EntriesFrom(v, 0) {
      EntriesFromHolds(v, 0, x);
    }
    FilesOkAreBounded(v[l]);
  }

  lemma ChosenInputsOk(v: seq<seq<File>>, c: Compaction)
    requires |v| == NUM_LEVELS && c.level + 1 < NUM_LEVELS && AllFilesOk(v[c.level + 1]) && Disjoint(v[c.level + 1])
    requires ChosenOk(c.level, v[c.level], v[c.level + 1], Chosen(c.inputs0, c.inputs1))
    ensures InputsOk(c, v)
  {
    hide AllFilesOk, Disjoint, GapFree, LeavesNewer, Listed, Apart, ClearOf, Overlaps;
    forall f | f in v[c.level + 1] && f !in c.inputs1 ensures Apart(f, c.inputs0 + c.inputs1) && ClearOf(f, c.inputs0) {
      LeftBehindIsApart(v[c.level + 1], c.inputs0, c.inputs1, f);
    }
  }

  lemma LevelHasOrder(v: seq<seq<File>>, l: nat)
    requires VersionOk(v) && 1 <= l < NUM_LEVELS
    ensures |v| == NUM_LEVELS && AllFilesOk(v[l]) && Disjoint(v[l])
  {
  }

  lemma OwnBaseOk(v: seq<seq<File>>, c: Compaction)
    requires VersionOk(v) && c.base == v
    ensures BaseOk(c, v)
  {
  }

  /** PickCompaction leaves the inputs closed, gap-free and in order. */
  lemma PickedInputsOk(maxFileSize: nat, v: seq<seq<File>>, level: nat, seed: File, smallest: nat)
    requires VersionOk(v) && level + 1 < NUM_LEVELS && UniqueSeqnos(EntriesFrom(v, 0))
    requires Bounded(v[level]) && seed in v[level]
    ensures var p := Pick(maxFileSize, level, v[level], v[level + 1], seed);
            var c := Compaction(level, p.inputs0, p.inputs1, smallest, v, {});
            InputsOk(c, v) && BaseOk(c, v)
  {
    hide VersionOk, UniqueSeqnos, ChosenOk, Pick, LevelOk, Bounded, InputsOk, BaseOk, EntriesFrom;
    LevelHasOrder(v, level + 1);
    LevelIsOk(v, level);
    LevelIsOk(v, level + 1);
    PickIsOk(maxFileSize, level, v[level], v[level + 1], seed);
    var p := Pick(maxFileSize, level, v[level], v[level + 1], seed);
    var c := Compaction(level, p.inputs0, p.inputs1, smallest, v, {});
    ChosenInputsOk(v, c);
    OwnBaseOk(v, c);
  }

  lemma FilesAreUnique(d: Db)
    requires Inv(d)
    ensures VersionOk(d.v) && UniqueSeqnos(EntriesFrom(d.v, 0))
  {
    StoredIsUnique(EntriesFrom(d.v, 0), d.log);
  }

  lemma SmallestSnapshotOk(d: Db, c: Compaction)
    requires SnapshotsOk(d.floor, d.last, d.snapshots) && c.smallest == SmallestSnapshot(d)
    ensures SmallestOk(c, d.floor, d.last, d.snapshots)
  {
  }

  lemma BeginMakes(maxFileSize: nat, d: Db, level: nat, seed: File)
    requires Enabled(maxFileSize, d, Begin(level, seed))
    ensures level + 1 < NUM_LEVELS == |d.v| && Bounded(d.v[level]) && seed in d.v[level]
    ensures var p := Pick(maxFileSize, level, d.v[level], d.v[level + 1], seed);
            Apply(maxFileSize, d, Begin(level, seed)) ==
            d.(running := Some(Compaction(level, p.inputs0, p.inputs1, SmallestSnapshot(d), d.v, {})))
  {
    hide Pick, Bounded;
  }

  lemma BeginKeepsInv(maxFileSize: nat, d: Db, level: nat, seed: File)
    requires Inv(d) && Enabled(maxFileSize, d, Begin(level, seed))
    ensures Inv(Apply(maxFileSize, d, Begin(level, seed)))
  {
    hide VersionOk, InputsOk, BaseOk, LogOk, PlacesOk, FilesOk, SnapshotsOk, SmallestOk, Pick, Enabled, Apply,
         SmallestSnapshot, Bounded;
    FilesAreUnique(d);
    BeginMakes(maxFileSize, d, level, seed);
    PickedInputsOk(maxFileSize, d.v, level, seed, SmallestSnapshot(d));
    SmallestSnapshotOk(d, Apply(maxFileSize, d, Begin(level, seed)).running.value);
  }

  // ------------------------------------------------------------------ the merged inputs

  lemma {:induction false} ContentsSort(files: seq<File>)
    requires AllFilesOk(files) && Disjoint(files)
    ensures Sorted(Contents(files))
  {
    if files != [] {
      hide Less, Sorted, FileOk;
      var init, f := files[..|files| - 1], files[|files| - 1];
      assert files == init + [f] && f in files;
      ContentsSort(init);
      forall x, y | x in Contents(init) && y in f.run ensures Less(x.ik, y.ik) {
        InitIsBefore(files, x, y);
      }
      RunSorts(f);
      SortedConcat(Contents(init), f.run);
    }
  }

  lemma RunSorts(f: File)
    requires FileOk(f)
    ensures Sorted(f.run)
  {
  }

  lemma InitIsBefore(files: seq<File>, x: Entry, y: Entry)
    requires files != [] && AllFilesOk(files) && Disjoint(files)
    requires x in Contents(files[..|files| - 1]) && y in files[|files| - 1].run
    ensures Less(x.ik, y.ik)
  {
    var init, f := files[..|files| - 1], files[|files| - 1];
    ContentsHolds(init, x);
    hide Contents, FileOk;
    var g :| g in init && x in g.run;
    var i :| 0 <= i < |init| && init[i] == g;
    assert files[i] == g && files[i] in files && f in files;
    SmallestToLargest(g);
    SmallestToLargest(f);
    assert Less(files[i].largest, f.smallest);
  }

  lemma SortedConcat(a: Run, b: Run)
    requires Sorted(a) && Sorted(b) && forall x, y :: x in a && y in b ==> Less(x.ik, y.ik)
    ensures Sorted(a + b)
  {
  }

  lemma MergedHolds(c: Compaction, e: Entry)
    ensures e in MergedInputs(c) <==> e in LevelEntries(c.inputs0 + c.inputs1)
  {
    var runs := InputRuns(c);
    MergeHolds(runs, e);
    ContentsHolds(c.inputs0, e);
    ContentsHolds(c.inputs1, e);
    if e in MergedInputs(c) {
      var i :| 0 <= i < |runs| && e in runs[i];
      if c.level == 0 && i < |c.inputs0| {
        assert e in c.inputs0[i].run;
        assert c.inputs0[i] in c.inputs0 + c.inputs1;
      }
    }
    if e in LevelEntries(c.inputs0 + c.inputs1) {
      var f :| f in c.inputs0 + c.inputs1 && e in f.run;
      if f in c.inputs1 {
        assert e in LevelEntries(c.inputs1);
        assert e in runs[|runs| - 1];
      } else if c.level == 0 {
        var i :| 0 <= i < |c.inputs0| && c.inputs0[i] == f;
        assert e in runs[i];
      } else {
        assert e in LevelEntries(c.inputs0);
        assert e in runs[0];
      }
    }
  }

  lemma NewerIsDisjointKeys(a: Run, b: Run, es: set<Entry>)
    requires Newer(Elems(a), Elems(b)) || Newer(Elems(b), Elems(a))
    requires UniqueSeqnos(es) && Elems(a) <= es && Elems(b) <= es
    ensures DisjointKeys(a, b)
  {
    forall x, y | x in a && y in b ensures x.ik != y.ik {
      assert x in Elems(a) && y in Elems(b);
    }
  }

  lemma InputFacts(c: Compaction, v: seq<seq<File>>)
    requires VersionOk(v) && InputsOk(c, v)
    ensures |v| == NUM_LEVELS && c.level + 1 < NUM_LEVELS && Level0Ok(v[0])
    ensures c.level == 0 ==> DistinctNumbers(c.inputs0)
    ensures c.level > 0 ==> Disjoint(c.inputs0)
    ensures Disjoint(c.inputs1) && LeavesNewer(v[c.level], c.inputs0)
    ensures forall f :: f in c.inputs0 ==> f in v[c.level]
    ensures forall f :: f in c.inputs1 ==> f in v[c.level + 1]
  {
    hide Level0Ok, LeavesNewer, GapFree, Disjoint, Apart, ClearOf, AllFilesOk, Newer;
  }

  lemma InputRunSorts(c: Compaction, v: seq<seq<File>>, i: nat)
    requires VersionOk(v) && InputsOk(c, v) && i < |InputRuns(c)|
    ensures Sorted(InputRuns(c)[i])
  {
    InputFacts(c, v);
    InputsAreBounded(c, v);
    hide VersionOk, InputsOk, Disjoint, LeavesNewer, Level0Ok;
    if c.level == 0 && i < |c.inputs0| {
      assert c.inputs0[i] in c.inputs0 + c.inputs1;
    } else if c.level > 0 && i == 0 {
      forall f | f in c.inputs0 ensures FileOk(f) { assert f in c.inputs0 + c.inputs1; }
      ContentsSort(c.inputs0);
    } else {
      forall f | f in c.inputs1 ensures FileOk(f) { assert f in c.inputs0 + c.inputs1; }
      ContentsSort(c.inputs1);
    }
  }

  lemma MergedSorts(c: Compaction, v: seq<seq<File>>)
    requires VersionOk(v) && InputsOk(c, v) && UniqueSeqnos(EntriesFrom(v, 0))
    ensures Sorted(MergedInputs(c))
  {
    hide VersionOk, InputsOk, UniqueSeqnos, EntriesFrom, Sorted, DisjointKeys, InputRuns;
    var runs := InputRuns(c);
    forall i | 0 <= i < |runs| ensures Sorted(runs[i]) { InputRunSorts(c, v, i); }
    forall i, j | 0 <= i < j < |runs| ensures DisjointKeys(runs[i], runs[j]) { InputRunsDiffer(c, v, i, j); }
    MergeSorts(runs);
  }

  lemma ContentsStored(files: seq<File>, v: seq<seq<File>>, l: nat)
    requires l < |v| && forall f :: f in files ==> f in v[l]
    ensures Elems(Contents(files)) <= LevelEntries(v[l]) && Elems(Contents(files)) <= EntriesFrom(v, 0)
  {
    forall x | x in Contents(files) ensures x in LevelEntries(v[l]) && x in EntriesFrom(v, 0) {
      ContentsHolds(files, x);
      var f :| f in files && x in f.run;
      StoredInFile(v, l, f, x);
    }
  }

  lemma FileStored(v: seq<seq<File>>, l: nat, f: File)
    requires l < |v| && f in v[l]
    ensures Elems(f.run) <= LevelEntries(v[l]) && Elems(f.run) <= EntriesFrom(v, 0)
  {
    forall x | x in f.run ensures x in EntriesFrom(v, 0) { StoredInFile(v, l, f, x); }
  }

  lemma TwoLevel0Runs(v: seq<seq<File>>, f: File, g: File)
    requires |v| == NUM_LEVELS && Level0Ok(v[0]) && UniqueSeqnos(EntriesFrom(v, 0))
    requires f in v[0] && g in v[0] && f.number != g.number
    ensures DisjointKeys(f.run, g.run)
  {
    FileStored(v, 0, f);
    FileStored(v, 0, g);
    assert Newer(Elems(f.run), Elems(g.run)) || Newer(Elems(g.run), Elems(f.run));
    NewerIsDisjointKeys(f.run, g.run, EntriesFrom(v, 0));
  }

  lemma RunsOfTwoLevels(v: seq<seq<File>>, l: nat, a: Run, b: Run)
    requires VersionOk(v) && UniqueSeqnos(EntriesFrom(v, 0)) && l + 1 < NUM_LEVELS
    requires Elems(a) <= LevelEntries(v[l]) && Elems(a) <= EntriesFrom(v, 0)
    requires Elems(b) <= LevelEntries(v[l + 1]) && Elems(b) <= EntriesFrom(v, 0)
    ensures DisjointKeys(a, b)
  {
    NewerSubsets(LevelEntries(v[l]), LevelEntries(v[l + 1]), Elems(a), Elems(b));
    NewerIsDisjointKeys(a, b, EntriesFrom(v, 0));
  }

  lemma InputRunsDiffer(c: Compaction, v: seq<seq<File>>, i: nat, j: nat)
    requires VersionOk(v) && InputsOk(c, v) && UniqueSeqnos(EntriesFrom(v, 0))
    requires i < j < |InputRuns(c)|
    ensures DisjointKeys(InputRuns(c)[i], InputRuns(c)[j])
  {
    hide VersionOk, InputsOk, Level0Ok, UniqueSeqnos, DisjointKeys, EntriesFrom, LevelEntries, Contents, Elems;
    var runs := InputRuns(c);
    InputFacts(c, v);
    ContentsStored(c.inputs1, v, c.level + 1);
    if c.level > 0 {
      ContentsStored(c.inputs0, v, c.level);
      RunsOfTwoLevels(v, c.level, runs[i], runs[j]);
    } else {
      assert c.inputs0[i] in c.inputs0;
      FileStored(v, 0, c.inputs0[i]);
      if j < |c.inputs0| {
        assert c.inputs0[j] in c.inputs0;
        TwoLevel0Runs(v, c.inputs0[i], c.inputs0[j]);
      } else {
        RunsOfTwoLevels(v, 0, runs[i], runs[j]);
      }
    }
  }

  lemma NewerSubsets(a: set<Entry>, b: set<Entry>, a': set<Entry>, b': set<Entry>)
    requires Newer(a, b) && a' <= a && b' <= b
    ensures Newer(a', b')
  {
  }
}
