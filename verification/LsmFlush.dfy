/** CompactMemTable as a step: a flush may happen at any time, also while a compaction runs. */
module LsmFlush {
  import opened Keys
  import opened Versions
  import opened Inputs
  import opened Selection
  import opened Flushing
  import opened Building
  import opened Lsm
  import opened LsmFiles
  import opened LsmEdits

  lemma StoredInFile(v: seq<seq<File>>, l: nat, g: File, x: Entry)
    requires l < |v| && g in v[l] && x in g.run
    ensures x in EntriesFrom(v, 0)
  {
    assert x in LevelEntries(v[l]);
    EntriesFromHolds(v, 0, x);
  }

  lemma FileOfStored(v: seq<seq<File>>, x: Entry) returns (l: nat, g: File)
    requires x in EntriesFrom(v, 0)
    ensures l < |v| && g in v[l] && x in g.run
  {
    EntriesFromHolds(v, 0, x);
    l :| l < |v| && x in LevelEntries(v[l]);
    g :| g in v[l] && x in g.run;
  }

  lemma WithFileStores(v: seq<seq<File>>, v': seq<seq<File>>, level: nat, f: File)
    requires WithFile(v, v', level, f)
    ensures EntriesFrom(v', 0) == EntriesFrom(v, 0) + Elems(f.run)
  {
    forall x ensures x in EntriesFrom(v', 0) <==> x in EntriesFrom(v, 0) + Elems(f.run) {
      if x in EntriesFrom(v', 0) {
        var l, g := FileOfStored(v', x);
        if g in v[l] {
          StoredInFile(v, l, g, x);
        }
      }
      if x in EntriesFrom(v, 0) {
        var l, g := FileOfStored(v, x);
        StoredInFile(v', l, g, x);
      }
      if x in Elems(f.run) {
        StoredInFile(v', level, f, x);
      }
    }
  }

  lemma NewerThanFile(es: set<Entry>, v: seq<seq<File>>, l: nat, g: File)
    requires Newer(es, EntriesFrom(v, 0)) && l < |v| && g in v[l]
    ensures Newer(es, Elems(g.run))
  {
    forall y | y in Elems(g.run) ensures y in EntriesFrom(v, 0) {
      StoredInFile(v, l, g, y);
    }
  }

  lemma NoOverlapIsNothing(files: seq<File>, f: File)
    requires !AnyOverlap(files, Range(Some(f.smallest.user), Some(f.largest.user)))
    ensures NothingAt(files, f)
  {
    forall g | g in files ensures !Overlaps(g, Range(Some(f.smallest.user), Some(f.largest.user))) {}
  }

  lemma FlushedRunIsNewest(mem: Run, run: Run, v: seq<seq<File>>, log: seq<Entry>, k: nat, g: File)
    requires PlacesOk(mem, run, v, log) && k < |v| && g in v[k]
    ensures Newer(Elems(run), Elems(g.run))
  {
    hide EntriesFrom, Elems;
    NewerPart(Elems(mem), Elems(run), EntriesFrom(v, 0));
    NewerThanFile(Elems(run), v, k, g);
  }

  lemma FlushLevelIsClear(maxFileSize: nat, v: seq<seq<File>>, f: File)
    requires |v| == NUM_LEVELS && f.run != [] && f.smallest == f.run[0].ik && f.largest == f.run[|f.run| - 1].ik
    ensures var l := FlushLevel(maxFileSize, v, f.run);
            l < NUM_LEVELS && (l > 0 ==> forall k :: 0 <= k <= l ==> NothingAt(v[k], f))
  {
    var r := Range(Some(f.smallest.user), Some(f.largest.user));
    var l := PickLevel(maxFileSize, v, r);
    PickLevelIsClear(maxFileSize, v, r);
    hide AnyOverlap, PickLevel;
    if l > 0 {
      forall k | 0 <= k <= l ensures NothingAt(v[k], f) {
        NoOverlapIsNothing(v[k], f);
      }
    }
  }

  /** The file written by a flush, where it goes, and what it finds there. */
  lemma FlushedFileFits(maxFileSize: nat, mem: Run, run: Run, v: seq<seq<File>>, log: seq<Entry>, next: nat, size: nat)
    requires run != [] && PlacesOk(mem, run, v, log) && FilesOk(v, next)
    ensures var f := FlushedFile(next, size, run); var l := FlushLevel(maxFileSize, v, run);
            && FileOk(f) && l < NUM_LEVELS
            && (forall k, g :: 0 <= k < NUM_LEVELS && g in v[k] ==>
               Newer(Elems(f.run), Elems(g.run)) && g.number < f.number)
            && (l > 0 ==> forall k :: 0 <= k <= l ==> NothingAt(v[k], f))
            && WithFile(v, ApplyEdit(v, Edit({}, [(l, f)])), l, f)
  {
    assert |v| == NUM_LEVELS && Sorted(run);
    hide VersionOk, LevelsInOrder, NumbersUnique, Newer, PlacesOk, FlushLevel, ApplyEdit, NothingAt, WithFile, Sorted;
    var f := FlushedFile(next, size, run);
    FlushLevelIsClear(maxFileSize, v, f);
    forall k, g | 0 <= k < NUM_LEVELS && g in v[k]
      ensures Newer(Elems(run), Elems(g.run)) && g.number < next
    {
      FlushedRunIsNewest(mem, run, v, log, k, g);
    }
    FlushEffect(v, FlushLevel(maxFileSize, v, run), f);
  }

  lemma NewerPart(a: set<Entry>, b: set<Entry>, older: set<Entry>)
    requires Newer(a + b, older)
    ensures Newer(a, older) && Newer(b, older)
  {
  }

  lemma FlushKeepsPlaces(mem: Run, run: Run, v: seq<seq<File>>, v': seq<seq<File>>, log: seq<Entry>, level: nat,
                         f: File)
    requires PlacesOk(mem, run, v, log) && WithFile(v, v', level, f) && f.run == run
    ensures PlacesOk(mem, [], v', log) && Stored(mem, [], v') == Stored(mem, run, v)
  {
    WithFileStores(v, v', level, f);
  }

  lemma FlushKeepsNumbers(v: seq<seq<File>>, v': seq<seq<File>>, level: nat, f: File)
    requires WithFile(v, v', level, f) && NumbersUnique(v) && NumbersBelow(v, f.number)
    ensures NumbersUnique(v') && NumbersBelow(v', f.number + 1)
  {
    forall l, m, g, h | 0 <= l < |v'| && 0 <= m < |v'| && g in v'[l] && h in v'[m] && g.number == h.number
      ensures l == m && g == h
    {
      assert g in v[l] || (l == level && g == f);
      assert h in v[m] || (m == level && h == f);
    }
  }

  // ------------------------------------------------------------------ flushing under a running compaction

  /** A file that shares no key range with a chain of inputs lies on one side of all of them. */
  lemma ClearIsApart(f: File, inputs: seq<File>)
    requires Bounded(inputs) && GapFree(inputs) && ClearOf(f, inputs)
    requires !Less(f.largest, f.smallest)
    ensures Apart(f, inputs)
  {
    assert !CoveredBy(inputs, f.smallest.user);
    if !(forall g :: g in inputs ==> f.largest.user < g.smallest.user) {
      var below :| below in inputs && !(f.largest.user < below.smallest.user);
      assert below.smallest.user <= f.smallest.user;
      forall g | g in inputs ensures Less(g.largest, f.smallest) {
        assert !(f.smallest.user <= g.largest.user);
      }
    }
  }

  lemma NothingIsClear(v: seq<seq<File>>, f: File, c: Compaction, level: nat)
    requires InputsOk(c, v) && level >= c.level + 1
    requires forall k :: 0 <= k <= level && k < |v| ==> NothingAt(v[k], f)
    ensures ClearOf(f, c.inputs0 + c.inputs1)
  {
    forall g | g in c.inputs0 + c.inputs1
      ensures f.largest.user < g.smallest.user || g.largest.user < f.smallest.user
    {
      if g in c.inputs0 {
        assert NothingAt(v[c.level], f);
      } else {
        assert NothingAt(v[c.level + 1], f);
      }
    }
  }

  lemma InputsAreBounded(c: Compaction, v: seq<seq<File>>)
    requires VersionOk(v) && InputsOk(c, v)
    ensures AllFilesOk(c.inputs0 + c.inputs1) && Bounded(c.inputs0 + c.inputs1)
  {
    forall f | f in c.inputs0 + c.inputs1 ensures FileOk(f) {
      assert f in v[c.level] || f in v[c.level + 1];
    }
    FilesOkAreBounded(c.inputs0 + c.inputs1);
  }

  lemma FlushKeepsInputs(c: Compaction, v: seq<seq<File>>, v': seq<seq<File>>, level: nat, f: File)
    requires VersionOk(v) && InputsOk(c, v) && WithFile(v, v', level, f) && FileOk(f)
    requires forall k, g :: 0 <= k < NUM_LEVELS && g in v[k] ==> Newer(Elems(f.run), Elems(g.run))
    requires level > 0 ==> forall k :: 0 <= k <= level ==> NothingAt(v[k], f)
    ensures InputsOk(c, v')
  {
    InputsAreBounded(c, v);
    hide VersionOk;
    forall g, h | g in v'[c.level] && g !in c.inputs0 && h in c.inputs0
      ensures Newer(Elems(g.run), Elems(h.run))
    {
      assert h in v[c.level];
      assert g in v[c.level] || g == f;
    }
    forall g | g in v'[c.level + 1] && g !in c.inputs1
      ensures Apart(g, c.inputs0 + c.inputs1) && ClearOf(g, c.inputs0)
    {
      if g !in v[c.level + 1] {
        NothingIsClear(v, f, c, level);
        SmallestToLargest(f);
        ClearIsApart(f, c.inputs0 + c.inputs1);
      }
    }
  }

  lemma FlushKeepsBase(c: Compaction, v: seq<seq<File>>, v': seq<seq<File>>, level: nat, f: File)
    requires InputsOk(c, v) && BaseOk(c, v) && WithFile(v, v', level, f)
    requires level > 0 ==> forall k :: 0 <= k <= level ==> NothingAt(v[k], f)
    ensures BaseOk(c, v')
  {
    forall l, g | c.level + 1 <= l < NUM_LEVELS && g in v'[l]
      ensures g in c.base[l] || ClearOf(g, c.inputs0 + c.inputs1)
    {
      if g !in v[l] {
        NothingIsClear(v, f, c, level);
      }
    }
  }

  lemma FlushMakes(maxFileSize: nat, d: Db, size: nat)
    requires Enabled(maxFileSize, d, Flush(size))
    ensures |d.v| == NUM_LEVELS && d.imm.Some?
    ensures var run := d.imm.value;
            Apply(maxFileSize, d, Flush(size)) ==
            if run == [] then d.(imm := None, next := d.next + 1)
            else d.(imm := None, next := d.next + 1,
                    v := ApplyEdit(d.v, Edit({},
                      [(FlushLevel(maxFileSize, d.v, run), FlushedFile(d.next, size, run))])))
  {
    hide FlushLevel, ApplyEdit;
  }

  lemma FlushKeepsInv(maxFileSize: nat, d: Db, size: nat)
    requires Inv(d) && Enabled(maxFileSize, d, Flush(size))
    ensures Inv(Apply(maxFileSize, d, Flush(size)))
    ensures All(Apply(maxFileSize, d, Flush(size))) == All(d)
  {
    hide VersionOk, LevelsInOrder, LogOk, PlacesOk, SnapshotsOk, InputsOk, BaseOk, SmallestOk, ApplyEdit, WithFile,
         Enabled,
      NumbersUnique, Stored, Apply, FlushLevel, FileOk;
    FlushMakes(maxFileSize, d, size);
    var d' := Apply(maxFileSize, d, Flush(size));
    var run := d.imm.value;
    if run != [] {
      var f, l := FlushedFile(d.next, size, run), FlushLevel(maxFileSize, d.v, run);
      FlushedFileFits(maxFileSize, d.mem, run, d.v, d.log, d.next, size);
      AddedFileOk(d.v, d'.v, l, f);
      FlushKeepsPlaces(d.mem, run, d.v, d'.v, d.log, l, f);
      FlushKeepsNumbers(d.v, d'.v, l, f);
      WithFileInOrder(d.v, d'.v, l, f);
      if d.running.Some? {
        var c := d.running.value;
        FlushKeepsInputs(c, d.v, d'.v, l, f);
        FlushKeepsBase(c, d.v, d'.v, l, f);
        FlushKeepsReserved(c.reserved, d.v, d'.v, l, f);
      }
    }
  }

  lemma WithFileInOrder(v: seq<seq<File>>, v': seq<seq<File>>, level: nat, f: File)
    requires WithFile(v, v', level, f)
    ensures LevelsInOrder(v')
  {
  }

  lemma FlushKeepsReserved(reserved: set<nat>, v: seq<seq<File>>, v': seq<seq<File>>, level: nat, f: File)
    requires WithFile(v, v', level, f) && ReservedOk(reserved, v, f.number)
    ensures ReservedOk(reserved, v', f.number + 1)
  {
  }
}
