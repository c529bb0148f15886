/** How the steps that install files keep the version invariant. */
module LsmFiles {
  import opened Keys
  import opened Versions
  import opened Inputs
  import opened Selection
  import opened Building
  import opened Lsm

  // ------------------------------------------------------------------ the effect of an edit

  lemma EditEffect(v: seq<seq<File>>, e: Edit, l: nat)
    requires |v| == NUM_LEVELS && l < NUM_LEVELS && InOrder(v[l])
    requires DistinctAdds(e.added, l)
    requires forall f :: f in v[l] ==> f.number !in Numbers(AddedAt(e.added, l))
    ensures InOrder(ApplyEdit(v, e)[l])
    ensures forall f :: f in ApplyEdit(v, e)[l] <==>
              (f in v[l] && f.number !in DeletedAt(e, l)) || f in AddedAt(e.added, l)
  {
    var st := ApplyAt(l, EMPTY_STATE, e);
    AddAllAdds(l, EMPTY_STATE.(deleted := EMPTY_STATE.deleted + DeletedAt(e, l)), e.added);
    forall f | f in AddedAt(e.added, l) ensures f.number in Numbers(AddedAt(e.added, l)) {}
    SaveIsSound(v[l], st);
  }

  // ------------------------------------------------------------------ orders

  lemma SubsetIsDisjoint(sub: seq<File>, files: seq<File>)
    requires InOrder(sub) && Bounded(files) && Disjoint(files)
    requires forall f :: f in sub ==> f in files
    ensures Disjoint(sub)
  {
    forall f, g | f in sub && g in sub
      ensures f == g || Less(f.largest, g.smallest) || Less(g.largest, f.smallest)
    {
      DisjointOrders(files, f, g);
    }
    OrderedAndApart(sub);
  }

  lemma OrderedAndApart(files: seq<File>)
    requires InOrder(files) && Bounded(files)
    requires forall f, g :: f in files && g in files ==>
             f == g || Less(f.largest, g.smallest) || Less(g.largest, f.smallest)
    ensures Disjoint(files)
  {
    forall i, j | 0 <= i < j < |files|
      ensures Less(files[i].largest, files[j].smallest)
    {
      var f, g := files[i], files[j];
      assert f in files && g in files && FileBefore(f, g);
      LessComparesTrailers(f.smallest, g.smallest);
    }
  }

  lemma OrderedHasDistinctNumbers(files: seq<File>)
    requires InOrder(files)
    requires forall f, g :: f in files && g in files && f.number == g.number ==> f == g
    ensures DistinctNumbers(files)
  {
    forall i, j | 0 <= i < j < |files| ensures files[i].number != files[j].number {
      assert files[i] in files && files[j] in files && FileBefore(files[i], files[j]);
    }
  }

  // ------------------------------------------------------------------ adding a flushed file

  ghost predicate NothingAt(files: seq<File>, f: File) {
    forall g :: g in files ==> g.largest.user < f.smallest.user || f.largest.user < g.smallest.user
  }

  ghost predicate WithFile(v: seq<seq<File>>, v': seq<seq<File>>, level: nat, f: File) {
    && |v| == |v'| == NUM_LEVELS && level < NUM_LEVELS
    && (forall l :: 0 <= l < NUM_LEVELS ==> InOrder(v'[l]))
    && (forall l, g :: 0 <= l < NUM_LEVELS ==> (g in v'[l] <==> g in v[l] || (l == level && g == f)))
  }

  lemma LevelsNewer(v: seq<seq<File>>, l: nat, m: nat, f: File, g: File)
    requires VersionOk(v) && l < m < NUM_LEVELS && f in v[l] && g in v[m]
    ensures Newer(Elems(f.run), Elems(g.run))
  {
    forall x, y | x in Elems(f.run) && y in Elems(g.run) && x.ik.user == y.ik.user
      ensures x.ik.seqno > y.ik.seqno
    {
      assert x in LevelEntries(v[l]) && y in LevelEntries(v[m]);
    }
  }

  lemma ApartByUser(f: File, g: File)
    requires FileOk(f) && FileOk(g)
    requires f.largest.user < g.smallest.user || g.largest.user < f.smallest.user
    ensures Newer(Elems(f.run), Elems(g.run))
  {
    SmallestToLargest(f);
    SmallestToLargest(g);
  }

  lemma FilesNewer(a: seq<File>, b: seq<File>)
    requires forall f, g :: f in a && g in b ==> Newer(Elems(f.run), Elems(g.run))
    ensures Newer(LevelEntries(a), LevelEntries(b))
  {
    forall x, y | x in LevelEntries(a) && y in LevelEntries(b) && x.ik.user == y.ik.user
      ensures x.ik.seqno > y.ik.seqno
    {
      var f :| f in a && x in f.run;
      var g :| g in b && y in g.run;
      assert x in Elems(f.run) && y in Elems(g.run);
    }
  }

  lemma AddedFileKeepsOrder(v: seq<seq<File>>, v': seq<seq<File>>, level: nat, f: File, l: nat, m: nat)
    requires VersionOk(v) && WithFile(v, v', level, f) && FileOk(f) && l < m < NUM_LEVELS
    requires forall k, g :: 0 <= k < NUM_LEVELS && g in v[k] ==> Newer(Elems(f.run), Elems(g.run))
    requires level > 0 ==> forall k :: 0 <= k <= level ==> NothingAt(v[k], f)
    ensures Newer(LevelEntries(v'[l]), LevelEntries(v'[m]))
  {
    forall g, h | g in v'[l] && h in v'[m]
      ensures Newer(Elems(g.run), Elems(h.run))
    {
      if g in v[l] && h in v[m] {
        LevelsNewer(v, l, m, g, h);
      } else if g in v[l] {
        assert m == level && NothingAt(v[l], f);
        ApartByUser(g, f);
      } else if h in v[m] {
        assert g == f;
      }
    }
    FilesNewer(v'[l], v'[m]);
  }

  lemma AddedFileKeepsLevel0(files: seq<File>, files': seq<File>, f: File)
    requires Level0Ok(files) && InOrder(files') && forall g :: g in files' <==> g in files || g == f
    requires forall g :: g in files ==> g.number < f.number && Newer(Elems(f.run), Elems(g.run))
    ensures Level0Ok(files')
  {
    forall g, h | g in files' && h in files' && g.number == h.number ensures g == h {
      if g in files && h in files {
        var i :| 0 <= i < |files| && files[i] == g;
        var j :| 0 <= j < |files| && files[j] == h;
      }
    }
    OrderedHasDistinctNumbers(files');
  }

  lemma AddedFileKeepsDisjoint(files: seq<File>, files': seq<File>, f: File)
    requires AllFilesOk(files) && Disjoint(files) && FileOk(f)
    requires InOrder(files') && forall g :: g in files' <==> g in files || g == f
    requires NothingAt(files, f)
    ensures Disjoint(files')
  {
    forall g | g in files' ensures !Less(g.largest, g.smallest) { SmallestToLargest(g); }
    forall g, h | g in files' && h in files'
      ensures g == h || Less(g.largest, h.smallest) || Less(h.largest, g.smallest)
    {
      if g in files && h in files {
        DisjointOrders(files, g, h);
      }
    }
    OrderedAndApart(files');
  }

  lemma SameFilesKeepLevel(l: nat, files: seq<File>, files': seq<File>)
    requires AllFilesOk(files) && (l == 0 ==> Level0Ok(files)) && (l > 0 ==> Disjoint(files))
    requires InOrder(files') && forall g :: g in files' ==> g in files
    ensures AllFilesOk(files') && (l == 0 ==> Level0Ok(files')) && (l > 0 ==> Disjoint(files'))
  {
    FilesOkAreBounded(files);
    if l > 0 {
      SubsetIsDisjoint(files', files);
    } else {
      forall g, h | g in files' && h in files' && g.number == h.number ensures g == h {
        var i :| 0 <= i < |files| && files[i] == g;
        var j :| 0 <= j < |files| && files[j] == h;
      }
      OrderedHasDistinctNumbers(files');
    }
  }

  /** Flushing keeps the version invariant. */
  lemma AddedFileOk(v: seq<seq<File>>, v': seq<seq<File>>, level: nat, f: File)
    requires VersionOk(v) && WithFile(v, v', level, f) && FileOk(f)
    requires forall k, g :: 0 <= k < NUM_LEVELS && g in v[k] ==>
             Newer(Elems(f.run), Elems(g.run)) && g.number < f.number
    requires level > 0 ==> forall k :: 0 <= k <= level ==> NothingAt(v[k], f)
    ensures VersionOk(v')
  {
    forall l | 0 <= l < NUM_LEVELS
      ensures AllFilesOk(v'[l]) && (l == 0 ==> Level0Ok(v'[l])) && (l > 0 ==> Disjoint(v'[l]))
    {
      if l != level {
        SameFilesKeepLevel(l, v[l], v'[l]);
      } else if l == 0 {
        AddedFileKeepsLevel0(v[0], v'[0], f);
      } else {
        AddedFileKeepsDisjoint(v[l], v'[l], f);
      }
    }
    forall l, m | 0 <= l < m < NUM_LEVELS
      ensures Newer(LevelEntries(v'[l]), LevelEntries(v'[m]))
    {
      AddedFileKeepsOrder(v, v', level, f, l, m);
    }
  }

  // ------------------------------------------------------------------ replacing inputs by outputs

  ghost predicate Replaced(v: seq<seq<File>>, v': seq<seq<File>>, level: nat, inputs0: seq<File>, inputs1: seq<File>,
                           outputs: seq<File>) {
    && |v| == |v'| == NUM_LEVELS && level + 1 < NUM_LEVELS
    && (forall l :: 0 <= l < NUM_LEVELS ==> InOrder(v'[l]))
    && (forall l, f {:trigger f in v'[l]} {:trigger f in v[l]} :: 0 <= l < NUM_LEVELS ==>
          (f in v'[l] <==>
             || (f in v[l] && !(l == level && f in inputs0) && !(l == level + 1 && f in inputs1))
             || (l == level + 1 && f in outputs)))
  }

  ghost predicate Replaceable(v: seq<seq<File>>, level: nat, inputs0: seq<File>, inputs1: seq<File>,
                              outputs: seq<File>) {
    && VersionOk(v) && level + 1 < NUM_LEVELS
    && (forall f :: f in inputs0 ==> f in v[level])
    && (forall f :: f in inputs1 ==> f in v[level + 1])
    && LeavesNewer(v[level], inputs0)
    && (forall f :: f in v[level + 1] && f !in inputs1 ==> Apart(f, inputs0 + inputs1))
    && AllFilesOk(outputs) && Disjoint(outputs)
    && (forall e :: e in LevelEntries(outputs) ==> e in LevelEntries(inputs0 + inputs1))
  }

  /** An entry of an output file lies within an input file. */
  lemma OutputFromInput(inputs: seq<File>, outputs: seq<File>, g: File, e: Entry) returns (h: File)
    requires AllFilesOk(inputs) && g in outputs && e in g.run
    requires forall x :: x in LevelEntries(outputs) ==> x in LevelEntries(inputs)
    ensures h in inputs && !Less(e.ik, h.smallest) && !Less(h.largest, e.ik)
  {
    assert e in LevelEntries(outputs);
    h :| h in inputs && e in h.run;
    SmallestToLargest(h);
  }

  lemma EndsOfFile(g: File)
    requires FileOk(g)
    ensures g.run != [] && g.run[0] in g.run && g.run[|g.run| - 1] in g.run
    ensures g.smallest == g.run[0].ik && g.largest == g.run[|g.run| - 1].ik
  {
  }

  lemma OutputIsApart(f: File, inputs: seq<File>, outputs: seq<File>, g: File)
    requires FileOk(f) && AllFilesOk(inputs) && AllFilesOk(outputs) && Apart(f, inputs) && g in outputs
    requires forall e :: e in LevelEntries(outputs) ==> e in LevelEntries(inputs)
    ensures Less(f.largest, g.smallest) || Less(g.largest, f.smallest)
  {
    EndsOfFile(g);
    hide FileOk, LevelEntries;
    if forall h :: h in inputs ==> Less(f.largest, h.smallest) {
      var h := OutputFromInput(inputs, outputs, g, g.run[0]);
      assert Less(f.largest, h.smallest);
    } else {
      var h := OutputFromInput(inputs, outputs, g, g.run[|g.run| - 1]);
      assert Less(h.largest, f.smallest);
    }
  }

  lemma ReplacedIsDisjoint(v: seq<seq<File>>, v': seq<seq<File>>, level: nat, inputs0: seq<File>, inputs1: seq<File>,
                           outputs: seq<File>)
    requires Replaceable(v, level, inputs0, inputs1, outputs)
    requires Replaced(v, v', level, inputs0, inputs1, outputs)
    ensures AllFilesOk(v'[level + 1]) && Disjoint(v'[level + 1])
  {
    var files, files' := v[level + 1], v'[level + 1];
    forall g | g in files' ensures FileOk(g) && !Less(g.largest, g.smallest) { SmallestToLargest(g); }
    forall g | g in inputs0 + inputs1 ensures FileOk(g) {}
    forall g, h | g in files' && h in files'
      ensures g == h || Less(g.largest, h.smallest) || Less(h.largest, g.smallest)
    {
      if g in outputs && h in outputs {
        DisjointOrders(outputs, g, h);
      } else if g in outputs {
        OutputIsApart(h, inputs0 + inputs1, outputs, g);
      } else if h in outputs {
        OutputIsApart(g, inputs0 + inputs1, outputs, h);
      } else {
        DisjointOrders(files, g, h);
      }
    }
    OrderedAndApart(files');
  }

  /** Outputs are as new as the inputs they came from. */
  lemma OutputsNewer(inputs: seq<File>, outputs: seq<File>, older: File)
    requires forall e :: e in LevelEntries(outputs) ==> e in LevelEntries(inputs)
    requires forall f :: f in inputs ==> Newer(Elems(f.run), Elems(older.run))
    ensures forall g :: g in outputs ==> Newer(Elems(g.run), Elems(older.run))
  {
    forall g, x, y | g in outputs && x in Elems(g.run) && y in Elems(older.run) && x.ik.user == y.ik.user
      ensures x.ik.seqno > y.ik.seqno
    {
      assert x in LevelEntries(outputs);
      var f :| f in inputs && x in f.run;
      assert x in Elems(f.run);
    }
  }

  lemma OutputsOlder(inputs: seq<File>, outputs: seq<File>, newer: File)
    requires forall e :: e in LevelEntries(outputs) ==> e in LevelEntries(inputs)
    requires forall f :: f in inputs ==> Newer(Elems(newer.run), Elems(f.run))
    ensures forall g :: g in outputs ==> Newer(Elems(newer.run), Elems(g.run))
  {
    forall g, x, y | g in outputs && x in Elems(newer.run) && y in Elems(g.run) && x.ik.user == y.ik.user
      ensures x.ik.seqno > y.ik.seqno
    {
      assert y in LevelEntries(outputs);
      var f :| f in inputs && y in f.run;
      assert y in Elems(f.run);
    }
  }

  lemma ReplacedFrom(v: seq<seq<File>>, v': seq<seq<File>>, level: nat, inputs0: seq<File>, inputs1: seq<File>,
                     outputs: seq<File>, l: nat, f: File)
    requires Replaced(v, v', level, inputs0, inputs1, outputs) && l < NUM_LEVELS && f in v'[l]
    ensures || (f in v[l] && !(l == level && f in inputs0) && !(l == level + 1 && f in inputs1))
            || (l == level + 1 && f in outputs)
  {
  }

  lemma OutputBelow(v: seq<seq<File>>, level: nat, inputs0: seq<File>, inputs1: seq<File>, outputs: seq<File>, l: nat,
                    g: File)
    requires Replaceable(v, level, inputs0, inputs1, outputs)
    requires l <= level && g in v[l] && !(l == level && g in inputs0)
    ensures forall h :: h in outputs ==> Newer(Elems(g.run), Elems(h.run))
  {
    hide VersionOk, Newer, Apart, AllFilesOk, Disjoint, LevelEntries;
    forall f | f in inputs0 + inputs1 ensures Newer(Elems(g.run), Elems(f.run)) {
      if f in inputs1 {
        LevelsNewer(v, l, level + 1, g, f);
      } else if l < level {
        LevelsNewer(v, l, level, g, f);
      }
    }
    OutputsOlder(inputs0 + inputs1, outputs, g);
  }

  lemma OutputAbove(v: seq<seq<File>>, level: nat, inputs0: seq<File>, inputs1: seq<File>, outputs: seq<File>, m: nat,
                    h: File)
    requires Replaceable(v, level, inputs0, inputs1, outputs)
    requires level + 1 < m < NUM_LEVELS && h in v[m]
    ensures forall g :: g in outputs ==> Newer(Elems(g.run), Elems(h.run))
  {
    forall f | f in inputs0 + inputs1 ensures Newer(Elems(f.run), Elems(h.run)) {
      LevelsNewer(v, if f in inputs0 then level else level + 1, m, f, h);
    }
    OutputsNewer(inputs0 + inputs1, outputs, h);
  }

  lemma ReplacedPair(v: seq<seq<File>>, v': seq<seq<File>>, level: nat, inputs0: seq<File>, inputs1: seq<File>,
                     outputs: seq<File>, l: nat, m: nat, g: File, h: File)
    requires Replaceable(v, level, inputs0, inputs1, outputs)
    requires Replaced(v, v', level, inputs0, inputs1, outputs)
    requires l < m < NUM_LEVELS && g in v'[l] && h in v'[m]
    ensures Newer(Elems(g.run), Elems(h.run))
  {
    ReplacedFrom(v, v', level, inputs0, inputs1, outputs, l, g);
    ReplacedFrom(v, v', level, inputs0, inputs1, outputs, m, h);
    assert |v| == NUM_LEVELS && VersionOk(v);
    hide Replaceable, Replaced, VersionOk;
    if g in v[l] && h in v[m] {
      LevelsNewer(v, l, m, g, h);
    } else if g in v[l] {
      OutputBelow(v, level, inputs0, inputs1, outputs, l, g);
    } else {
      OutputAbove(v, level, inputs0, inputs1, outputs, m, h);
    }
  }

  lemma ReplacedKeepsOrder(v: seq<seq<File>>, v': seq<seq<File>>, level: nat, inputs0: seq<File>, inputs1: seq<File>,
                           outputs: seq<File>, l: nat, m: nat)
    requires Replaceable(v, level, inputs0, inputs1, outputs)
    requires Replaced(v, v', level, inputs0, inputs1, outputs)
    requires l < m < NUM_LEVELS
    ensures Newer(LevelEntries(v'[l]), LevelEntries(v'[m]))
  {
    forall g, h | g in v'[l] && h in v'[m] ensures Newer(Elems(g.run), Elems(h.run)) {
      ReplacedPair(v, v', level, inputs0, inputs1, outputs, l, m, g, h);
    }
    FilesNewer(v'[l], v'[m]);
  }

  /** Installing a compaction, or moving a file, keeps the version invariant. */
  lemma ReplacedOk(v: seq<seq<File>>, v': seq<seq<File>>, level: nat, inputs0: seq<File>, inputs1: seq<File>,
                   outputs: seq<File>)
    requires Replaceable(v, level, inputs0, inputs1, outputs)
    requires Replaced(v, v', level, inputs0, inputs1, outputs)
    ensures VersionOk(v')
  {
    forall l | 0 <= l < NUM_LEVELS
      ensures AllFilesOk(v'[l]) && (l == 0 ==> Level0Ok(v'[l])) && (l > 0 ==> Disjoint(v'[l]))
    {
      if l == level + 1 {
        ReplacedIsDisjoint(v, v', level, inputs0, inputs1, outputs);
      } else {
        forall f | f in v'[l] ensures f in v[l] {
          ReplacedFrom(v, v', level, inputs0, inputs1, outputs, l, f);
        }
        SameFilesKeepLevel(l, v[l], v'[l]);
      }
    }
    forall l, m | 0 <= l < m < NUM_LEVELS
      ensures Newer(LevelEntries(v'[l]), LevelEntries(v'[m]))
    {
      ReplacedKeepsOrder(v, v', level, inputs0, inputs1, outputs, l, m);
    }
  }
}
