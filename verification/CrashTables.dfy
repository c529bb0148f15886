/** Recovery turns replayed memtables into tables of level 0. */
module CrashTables {
  import opened Keys
  import opened Versions
  import opened Building
  import opened Lsm
  import opened LsmFiles
  import opened LsmEdits
  import opened LsmSteps
  import opened LsmFlush
  import opened Crashes

  // ------------------------------------------------------------------ replayed memtables

  lemma {:induction false} MemOfHolds(es: seq<Entry>)
    requires Chronological(es)
    ensures Elems(MemOf(es)) == Elems(es) && Sorted(MemOf(es))
    ensures es != [] ==> MemOf(es) != []
  {
    hide MemInsert, Sorted, Chronological;
    if es == [] {
      EmptySorts();
    } else {
      var n := |es| - 1;
      LastIsNewest(es);
      MemOfHolds(es[..n]);
      var before := MemOf(es[..n]);
      MemInsertHolds(before, es[n]);
      forall x | x in before ensures x.ik != es[n].ik {
        assert x in Elems(es[..n]);
      }
      MemInsertSorts(before, es[n]);
      assert es[n] in Elems(MemInsert(before, es[n]));
    }
  }

  lemma EmptySorts()
    ensures Sorted([]) && Elems([]) == {}
  {
  }

  lemma LastIsNewest(es: seq<Entry>)
    requires es != [] && Chronological(es)
    ensures var n := |es| - 1;
            && Chronological(es[..n]) && Elems(es) == Elems(es[..n]) + {es[n]}
            && forall x :: x in Elems(es[..n]) ==> x.ik.seqno < es[n].ik.seqno
  {
    var n := |es| - 1;
    assert es == es[..n] + [es[n]];
  }

  lemma ElemsJoin(a: seq<Entry>, b: seq<Entry>)
    ensures Elems(a + b) == Elems(a) + Elems(b)
  {
  }

  lemma ChronologicalParts(a: seq<Entry>, b: seq<Entry>)
    requires Chronological(a + b)
    ensures Chronological(a) && Chronological(b)
    ensures forall x, y :: x in a && y in b ==> x.ik.seqno < y.ik.seqno
  {
    forall i, j | 0 <= i < j < |a| ensures a[i].ik.seqno < a[j].ik.seqno {
      assert (a + b)[i] == a[i] && (a + b)[j] == a[j];
    }
    forall i, j | 0 <= i < j < |b| ensures b[i].ik.seqno < b[j].ik.seqno {
      assert (a + b)[|a| + i] == b[i] && (a + b)[|a| + j] == b[j];
    }
    forall x, y | x in a && y in b ensures x.ik.seqno < y.ik.seqno {
      var i :| 0 <= i < |a| && a[i] == x;
      var j :| 0 <= j < |b| && b[j] == y;
      assert (a + b)[i] == x && (a + b)[|a| + j] == y;
    }
  }

  // ------------------------------------------------------------------ one more table

  lemma FilesOkBelow(v: seq<seq<File>>, next: nat, more: nat)
    requires FilesOk(v, next) && next <= more
    ensures FilesOk(v, more)
  {
    hide VersionOk, LevelsInOrder, NumbersUnique;
  }

  /** A table whose entries are newer than all stored ones may go to level 0. */
  lemma AddTable(v: seq<seq<File>>, f: File)
    requires FilesOk(v, f.number) && FileOk(f)
    requires forall e, x :: e in EntriesFrom(v, 0) && x in f.run ==> e.ik.seqno < x.ik.seqno
    ensures var v' := ApplyEdit(v, Edit({}, [(0, f)]));
            && FilesOk(v', f.number + 1) && WithFile(v, v', 0, f)
            && EntriesFrom(v', 0) == EntriesFrom(v, 0) + Elems(f.run)
  {
    var v' := ApplyEdit(v, Edit({}, [(0, f)]));
    assert |v| == NUM_LEVELS;
    hide VersionOk, ApplyEdit, EntriesFrom, NumbersUnique, FileOk;
    FlushEffect(v, 0, f);
    hide LevelsInOrder, WithFile;
    forall k, g | 0 <= k < NUM_LEVELS && g in v[k] ensures Newer(Elems(f.run), Elems(g.run)) && g.number < f.number {
      OlderFile(v, f, k, g);
    }
    AddedFileOk(v, v', 0, f);
    WithFileStores(v, v', 0, f);
    FlushKeepsNumbers(v, v', 0, f);
    WithFileInOrder(v, v', 0, f);
  }

  lemma OlderFile(v: seq<seq<File>>, f: File, k: nat, g: File)
    requires |v| == NUM_LEVELS && k < NUM_LEVELS && g in v[k]
    requires forall e, x :: e in EntriesFrom(v, 0) && x in f.run ==> e.ik.seqno < x.ik.seqno
    ensures Newer(Elems(f.run), Elems(g.run))
  {
    forall x, y | x in Elems(f.run) && y in Elems(g.run) && x.ik.user == y.ik.user ensures x.ik.seqno > y.ik.seqno {
      StoredInFile(v, k, g, y);
    }
  }

  // ------------------------------------------------------------------ all tables

  /** The version with the first `n` tables added one after another. */
  function Stacked(v: seq<seq<File>>, files: seq<File>, n: nat): (v': seq<seq<File>>)
    requires |v| == NUM_LEVELS && n <= |files|
    ensures |v'| == NUM_LEVELS
  {
    if n == 0 then v else ApplyEdit(Stacked(v, files, n - 1), Edit({}, [(0, files[n - 1])]))
  }

  ghost predicate NumbersAscend(files: seq<File>, next: nat) {
    && (forall i :: 0 <= i < |files| ==> FileOk(files[i]) && files[i].number >= next)
    && (forall i, j :: 0 <= i < j < |files| ==> files[i].number < files[j].number)
  }

  ghost predicate NewerThanStored(v: seq<seq<File>>, files: seq<File>) {
    forall i, e, x :: 0 <= i < |files| && e in EntriesFrom(v, 0) && x in files[i].run ==> e.ik.seqno < x.ik.seqno
  }

  ghost predicate RunsAscend(files: seq<File>) {
    forall i, j, e, x :: 0 <= i < j < |files| && e in files[i].run && x in files[j].run ==> e.ik.seqno < x.ik.seqno
  }

  /** Tables of ascending numbers and ascending sequence numbers. */
  ghost predicate Stackable(v: seq<seq<File>>, files: seq<File>, next: nat) {
    FilesOk(v, next) && NumbersAscend(files, next) && NewerThanStored(v, files) && RunsAscend(files)
  }

  ghost function RunsOf(files: seq<File>, n: nat): set<Entry>
    requires n <= |files|
  {
    set i, e | 0 <= i < n && e in files[i].run :: e
  }

  ghost predicate StackedOk(v: seq<seq<File>>, files: seq<File>, next: nat, n: nat)
    requires |v| == NUM_LEVELS && n <= |files|
  {
    var v' := Stacked(v, files, n);
    && FilesOk(v', if n == 0 then next else files[n - 1].number + 1)
    && EntriesFrom(v', 0) == EntriesFrom(v, 0) + RunsOf(files, n)
    && HasTables(v, v', files[..n])
  }

  ghost predicate HasTables(v: seq<seq<File>>, v': seq<seq<File>>, added: seq<File>) {
    && |v| == |v'| == NUM_LEVELS
    && forall l, g {:trigger g in v'[l]} {:trigger g in v[l]} :: 0 <= l < NUM_LEVELS ==>
         (g in v'[l] <==> g in v[l] || (l == 0 && g in added))
  }

  lemma {:induction false} StackTables(v: seq<seq<File>>, files: seq<File>, next: nat, n: nat)
    requires Stackable(v, files, next) && n <= |files|
    ensures |v| == NUM_LEVELS && StackedOk(v, files, next, n)
  {
    hide EntriesFrom, StackedOk;
    assert |v| == NUM_LEVELS;
    if n > 0 {
      StackTables(v, files, next, n - 1);
      StackOne(v, files, next, n - 1);
    } else {
      StackNone(v, files, next);
    }
  }

  lemma StackNone(v: seq<seq<File>>, files: seq<File>, next: nat)
    requires FilesOk(v, next) && |v| == NUM_LEVELS
    ensures StackedOk(v, files, next, 0)
  {
    hide FilesOk, EntriesFrom;
    assert RunsOf(files, 0) == {} && files[..0] == [];
  }

  lemma StackOne(v: seq<seq<File>>, files: seq<File>, next: nat, n: nat)
    requires Stackable(v, files, next) && n < |files| && |v| == NUM_LEVELS && StackedOk(v, files, next, n)
    ensures StackedOk(v, files, next, n + 1)
  {
    hide FilesOk, EntriesFrom, ApplyEdit, WithFile, FileOk, HasTables;
    var before, f := Stacked(v, files, n), files[n];
    FilesOkBelow(before, if n == 0 then next else files[n - 1].number + 1, f.number);
    forall e, x | e in EntriesFrom(before, 0) && x in f.run ensures e.ik.seqno < x.ik.seqno {
      if e !in EntriesFrom(v, 0) {
        var i :| 0 <= i < n && e in files[i].run;
      }
    }
    AddTable(before, f);
    RunsGrow(files, n);
    assert files[..n + 1] == files[..n] + [f];
    HasOneMore(v, before, Stacked(v, files, n + 1), files[..n], f);
  }

  lemma HasOneMore(v: seq<seq<File>>, before: seq<seq<File>>, v': seq<seq<File>>, added: seq<File>, f: File)
    requires HasTables(v, before, added) && WithFile(before, v', 0, f)
    ensures HasTables(v, v', added + [f])
  {
  }

  lemma RunsGrow(files: seq<File>, n: nat)
    requires n < |files|
    ensures RunsOf(files, n + 1) == RunsOf(files, n) + Elems(files[n].run)
  {
    forall e ensures e in RunsOf(files, n + 1) <==> e in RunsOf(files, n) || e in Elems(files[n].run) {
      if e in Elems(files[n].run) { assert e in files[n].run; }
    }
  }

  lemma OneEditHas(v: seq<seq<File>>, files: seq<File>)
    requires LevelsInOrder(v) && DistinctNumbers(files)
    requires forall l, g, f :: 0 <= l < NUM_LEVELS && g in v[l] && f in files ==> g.number != f.number
    ensures var v' := ApplyEdit(v, Edit({}, Additions(0, files))); HasTables(v, v', files) && LevelsInOrder(v')
  {
    var e := Edit({}, Additions(0, files));
    forall l | 0 <= l < NUM_LEVELS
      ensures InOrder(ApplyEdit(v, e)[l])
      ensures forall g :: g in ApplyEdit(v, e)[l] <==> g in v[l] || (l == 0 && g in files)
    {
      AdditionsAt(0, files, l);
      EditEffect(v, e, l);
    }
  }

  lemma SameTables(v: seq<seq<File>>, a: seq<seq<File>>, b: seq<seq<File>>, files: seq<File>)
    requires HasTables(v, a, files) && HasTables(v, b, files) && LevelsInOrder(a) && LevelsInOrder(b)
    ensures a == b
  {
    forall l | 0 <= l < NUM_LEVELS ensures a[l] == b[l] {
      forall f ensures f in a[l] <==> f in b[l] {}
      OrderedFilesAreUnique(a[l], b[l]);
    }
  }

  /** One edit with all tables does what adding them one after another does. */
  lemma OneEditStacks(v: seq<seq<File>>, files: seq<File>, next: nat)
    requires Stackable(v, files, next)
    ensures |v| == NUM_LEVELS && ApplyEdit(v, Edit({}, Additions(0, files))) == Stacked(v, files, |files|)
  {
    StackTables(v, files, next, |files|);
    StackableNumbers(v, files, next);
    hide Stackable, EntriesFrom, Stacked, RunsOf, ApplyEdit, HasTables, LevelsInOrder, NumbersUnique, VersionOk,
         DistinctNumbers;
    assert files[..|files|] == files;
    OneEditHas(v, files);
    SameTables(v, ApplyEdit(v, Edit({}, Additions(0, files))), Stacked(v, files, |files|), files);
  }

  lemma StackableNumbers(v: seq<seq<File>>, files: seq<File>, next: nat)
    requires Stackable(v, files, next)
    ensures |v| == NUM_LEVELS && LevelsInOrder(v) && DistinctNumbers(files)
    ensures forall l, g, f :: 0 <= l < NUM_LEVELS && g in v[l] && f in files ==> g.number != f.number
  {
    hide EntriesFrom, VersionOk, NumbersUnique;
  }

  /** The tables of recovery: the version stays in order and holds their entries too. */
  lemma RecoveredFilesOk(v: seq<seq<File>>, files: seq<File>, next: nat, last: nat)
    requires Stackable(v, files, next) && next <= last && forall f :: f in files ==> f.number < last
    ensures |v| == NUM_LEVELS
    ensures var v' := ApplyEdit(v, Edit({}, Additions(0, files)));
            FilesOk(v', last) && EntriesFrom(v', 0) == EntriesFrom(v, 0) + RunsOf(files, |files|)
  {
    hide Stackable, FilesOk, EntriesFrom, Stacked, RunsOf, ApplyEdit, HasTables;
    OneEditStacks(v, files, next);
    StackTables(v, files, next, |files|);
    FilesOkBelow(Stacked(v, files, |files|), if files == [] then next else files[|files| - 1].number + 1, last);
  }
}
