/** The iterator of a whole database (db/db_impl.cc NewInternalIterator and NewIterator,
    db/version_set.cc AddIterators): what the client iterates over is what the client can read,
    and it does not change while the iterator lives.  */
module SnapshotView {
  import opened Keys
  import opened Versions
  import opened Merging
  import opened CompactionRun
  import opened UserView
  import opened Lsm
  import opened LsmSteps
  import opened LsmCompaction

  // ------------------------------------------------------------------ the children

  /** Level-0 files separately; any other non-empty level as one concatenation. */
  function UpperRuns(v: seq<seq<File>>, l: nat): seq<Run>
    decreases |v| - l
  {
    if l >= |v| then [] else (if v[l] == [] then [] else [Contents(v[l])]) + UpperRuns(v, l + 1)
  }

  function FileRuns(v: seq<seq<File>>): seq<Run> {
    if v == [] then [] else Runs(v[0]) + UpperRuns(v, 1)
  }

  function MemRuns(d: Db): seq<Run> {
    [d.mem] + if d.imm.Some? then [d.imm.value] else []
  }

  function ChildRuns(d: Db): seq<Run> {
    MemRuns(d) + FileRuns(d.v)
  }

  /** What the merging iterator of a database state ranges over. */
  function Flat(d: Db): Run {
    Merge(ChildRuns(d))
  }

  // ------------------------------------------------------------------ they cover every entry once

  ghost predicate SortedAndDistinct(runs: seq<Run>) {
    AllSorted(runs) && DistinctKeys(runs)
  }

  lemma Joined(a: seq<Run>, b: seq<Run>)
    requires SortedAndDistinct(a) && SortedAndDistinct(b)
    requires forall x, y :: InSomeRun(a, x) && InSomeRun(b, y) ==> x.ik != y.ik
    ensures SortedAndDistinct(a + b)
    ensures forall e :: InSomeRun(a + b, e) <==> InSomeRun(a, e) || InSomeRun(b, e)
  {
    var c := a + b;
    forall i, j | 0 <= i < j < |c| ensures DisjointKeys(c[i], c[j]) {
      if i < |a| <= j {
        forall x: Entry, y: Entry | x in c[i] && y in c[j] ensures x.ik != y.ik {
          assert x in a[i] && y in b[j - |a|];
        }
      } else if j < |a| {
        assert DisjointKeys(a[i], a[j]);
      } else {
        assert DisjointKeys(b[i - |a|], b[j - |a|]);
      }
    }
    forall e ensures InSomeRun(c, e) <==> InSomeRun(a, e) || InSomeRun(b, e) {
      if InSomeRun(a, e) {
        var i :| 0 <= i < |a| && e in a[i];
        assert e in c[i];
      }
      if InSomeRun(b, e) {
        var i :| 0 <= i < |b| && e in b[i];
        assert e in c[|a| + i];
      }
      if InSomeRun(c, e) {
        var i :| 0 <= i < |c| && e in c[i];
        assert i < |a| ==> e in a[i];
        assert i >= |a| ==> e in b[i - |a|];
      }
    }
  }

  lemma OneRun(r: Run)
    requires Sorted(r)
    ensures SortedAndDistinct([r]) && forall e :: InSomeRun([r], e) <==> e in r
  {
    forall e ensures InSomeRun([r], e) <==> e in r {
      assert [r][0] == r;
    }
  }

  lemma {:induction false} UpperRunsHold(v: seq<seq<File>>, l: nat)
    requires VersionOk(v) && l >= 1
    ensures SortedAndDistinct(UpperRuns(v, l))
    ensures forall e :: InSomeRun(UpperRuns(v, l), e) <==> e in EntriesFrom(v, l)
    decreases |v| - l
  {
    if l < |v| {
      UpperRunsHold(v, l + 1);
      ContentsSort(v[l]);
      forall e ensures e in Contents(v[l]) <==> e in LevelEntries(v[l]) { ContentsHolds(v[l], e); }
      NewerThanTheRest(v, l);
      assert Newer(LevelEntries(v[l]), EntriesFrom(v, l + 1));
      assert EntriesFrom(v, l) == LevelEntries(v[l]) + EntriesFrom(v, l + 1);
      hide VersionOk, EntriesFrom, LevelEntries, Sorted, Contents, InSomeRun, SortedAndDistinct;
      if v[l] == [] {
        assert LevelEntries(v[l]) == {} by { EmptyLevel(v[l]); }
        assert UpperRuns(v, l) == UpperRuns(v, l + 1);
      } else {
        OneRun(Contents(v[l]));
        Joined([Contents(v[l])], UpperRuns(v, l + 1));
      }
    }
  }

  lemma EmptyLevel(files: seq<File>)
    requires files == []
    ensures LevelEntries(files) == {}
  {
  }

  lemma FilesDiffer(files: seq<File>, i: nat, j: nat)
    requires Level0Ok(files) && i < j < |files|
    ensures DisjointKeys(files[i].run, files[j].run)
  {
    assert files[i] in files && files[j] in files && files[i].number != files[j].number;
    assert Newer(Elems(files[i].run), Elems(files[j].run)) || Newer(Elems(files[j].run), Elems(files[i].run));
    forall x: Entry, y: Entry | x in files[i].run && y in files[j].run ensures x.ik != y.ik {
      assert x in Elems(files[i].run) && y in Elems(files[j].run);
    }
  }

  lemma RunsHold(files: seq<File>, e: Entry)
    ensures InSomeRun(Runs(files), e) <==> e in LevelEntries(files)
  {
    var runs := Runs(files);
    if e in LevelEntries(files) {
      var f :| f in files && e in f.run;
      var i :| 0 <= i < |files| && files[i] == f;
      assert e in runs[i];
    }
    if InSomeRun(runs, e) {
      var i :| 0 <= i < |runs| && e in runs[i];
      assert files[i] in files;
    }
  }

  lemma Level0RunsHold(files: seq<File>)
    requires AllFilesOk(files) && Level0Ok(files)
    ensures SortedAndDistinct(Runs(files))
    ensures forall e :: InSomeRun(Runs(files), e) <==> e in LevelEntries(files)
  {
    hide Level0Ok, Sorted, DisjointKeys, InSomeRun, LevelEntries;
    var runs := Runs(files);
    forall i | 0 <= i < |runs| ensures Sorted(runs[i]) { assert FileOk(files[i]); }
    forall i, j | 0 <= i < j < |runs| ensures DisjointKeys(runs[i], runs[j]) { FilesDiffer(files, i, j); }
    forall e ensures InSomeRun(runs, e) <==> e in LevelEntries(files) { RunsHold(files, e); }
  }

  lemma FileRunsHold(v: seq<seq<File>>)
    requires VersionOk(v)
    ensures SortedAndDistinct(FileRuns(v))
    ensures forall e :: InSomeRun(FileRuns(v), e) <==> e in EntriesFrom(v, 0)
  {
    Level0RunsHold(v[0]);
    UpperRunsHold(v, 1);
    NewerThanTheRest(v, 0);
    assert Newer(LevelEntries(v[0]), EntriesFrom(v, 1));
    assert EntriesFrom(v, 0) == LevelEntries(v[0]) + EntriesFrom(v, 1);
    hide VersionOk, EntriesFrom, LevelEntries, Runs, UpperRuns, InSomeRun, SortedAndDistinct;
    Joined(Runs(v[0]), UpperRuns(v, 1));
  }

  lemma MemRunsHold(d: Db)
    requires PlacesOk(d.mem, ImmRun(d), d.v, d.log)
    ensures SortedAndDistinct(MemRuns(d))
    ensures forall e :: InSomeRun(MemRuns(d), e) <==> e in d.mem || e in ImmRun(d)
  {
    OneRun(d.mem);
    if d.imm.Some? {
      OneRun(d.imm.value);
      forall x, y | x in d.mem && y in d.imm.value ensures x.ik != y.ik {
        assert x in Elems(d.mem) && y in Elems(ImmRun(d));
      }
      assert MemRuns(d) == [d.mem] + [d.imm.value];
      hide SortedAndDistinct, InSomeRun, PlacesOk;
      Joined([d.mem], [d.imm.value]);
    } else {
      assert MemRuns(d) == [d.mem];
    }
  }

  /** The children of the database's merging iterator are sorted, share no key, and hold exactly
      the stored entries. */
  lemma ChildrenHold(d: Db)
    requires Inv(d)
    ensures AllSorted(ChildRuns(d)) && DistinctKeys(ChildRuns(d))
    ensures Sorted(Flat(d)) && Elems(Flat(d)) == All(d)
  {
    MemRunsHold(d);
    FileRunsHold(d.v);
    forall x, y | InSomeRun(MemRuns(d), x) && InSomeRun(FileRuns(d.v), y) ensures x.ik != y.ik {
      assert x in Elems(d.mem) + Elems(ImmRun(d)) && y in EntriesFrom(d.v, 0);
    }
    hide Inv, MemRuns, FileRuns, InSomeRun, EntriesFrom;
    Joined(MemRuns(d), FileRuns(d.v));
    MergeSorts(ChildRuns(d));
    forall e ensures e in Flat(d) <==> e in All(d) {
      MergeHolds(ChildRuns(d), e);
    }
  }

  // ------------------------------------------------------------------ iterating is reading

  /** The iterator lists a pair exactly when a read at the same sequence number returns it. */
  lemma IteratorAgreesWithGet(d: Db, s: nat, user: UserKey, value: string)
    requires Inv(d)
    ensures (user, value) in View(Flat(d), s) <==> Answer(Get(d, user, s)) == Some(value)
  {
    ChildrenHold(d);
    ViewIsReads(Flat(d), s, user, value);
    RunGetFinds(Flat(d), user, s);
    GetFindsInv(d, user, s);
    StoredIsUnique(All(d), d.log);
    hide Inv, All, Flat, RunGet, Get, View, Elems;
    FindsIsUnique(All(d), user, s, RunGet(Flat(d), user, s), Get(d, user, s));
  }

  /** Where reads are exact, the iterator lists the replayed map in ascending key order. */
  lemma IteratorListsReplay(d: Db, s: nat)
    requires Inv(d) && ReadsOk(d) && s >= d.floor
    ensures var v := View(Flat(d), s); var m := Replay(d.log, s);
            && (forall i, j :: 0 <= i < j < |v| ==> v[i].0 < v[j].0)
            && (forall user, value :: (user, value) in v <==> user in m && m[user] == value)
  {
    ChildrenHold(d);
    ViewAscends(Flat(d), s, |Flat(d)|);
    hide Inv, Flat, Get, Replay, ViewUpTo;
    var v, m := View(Flat(d), s), Replay(d.log, s);
    forall user, value ensures (user, value) in v <==> user in m && m[user] == value {
      IteratorAgreesWithGet(d, s, user, value);
      assert Answer(Get(d, user, s)) == Lookup(m, user);
    }
  }

  // ------------------------------------------------------------------ later writes do not show

  /** The entries visible at `s`. */
  function Trim(m: Run, s: nat): (t: Run)
    ensures forall e :: e in t <==> e in m && e.ik.seqno <= s
  {
    if m == [] then [] else
    var n := |m| - 1;
    Trim(m[..n], s) + if m[n].ik.seqno <= s then [m[n]] else []
  }

  lemma {:induction false} TrimSorted(m: Run, s: nat)
    requires Sorted(m)
    ensures Sorted(Trim(m, s))
  {
    if m != [] {
      var n := |m| - 1;
      TrimSorted(m[..n], s);
      var t := Trim(m[..n], s);
      forall i | 0 <= i < |t| ensures Less(t[i].ik, m[n].ik) {
        assert t[i] in t;
        var j :| 0 <= j < n && m[j] == t[i];
      }
    }
  }

  /** Some visible entry of `before` has this user key. */
  ghost predicate Shadows(before: Run, user: UserKey, s: nat) {
    exists e :: e in before && e.ik.user == user && e.ik.seqno <= s
  }

  lemma LiveIffUnshadowed(m: Run, s: nat, i: nat)
    requires i < |m|
    ensures Live(m, s, i) <==> Visible(m, s, i) && m[i].ik.typ.Value? && !Shadows(m[..i], m[i].ik.user, s)
  {
    if !Shadows(m[..i], m[i].ik.user, s) {
      forall j | 0 <= j < i && m[j].ik.user == m[i].ik.user ensures !Visible(m, s, j) {
        assert m[j] in m[..i];
      }
    }
  }

  lemma {:induction false} ViewOfPrefix(m: Run, m': Run, s: nat, n: nat)
    requires n <= |m| && n <= |m'| && forall i :: 0 <= i < n ==> m[i] == m'[i]
    ensures ViewUpTo(m, s, n) == ViewUpTo(m', s, n)
  {
    if n > 0 {
      ViewOfPrefix(m, m', s, n - 1);
    }
  }

  lemma TrimShadows(m: Run, user: UserKey, s: nat)
    ensures Shadows(Trim(m, s), user, s) <==> Shadows(m, user, s)
  {
  }

  lemma VisibleIs(m: Run, s: nat, i: nat)
    requires i < |m|
    ensures Visible(m, s, i) <==> m[i].ik.seqno <= s
  {
  }

  lemma SameLast(m: Run, t: Run, s: nat, n: nat, k: nat)
    requires n + 1 == |m| && k + 1 == |t| && m[n] == t[k] && (Live(m, s, n) <==> Live(t, s, k))
    requires ViewUpTo(t, s, k) == ViewUpTo(m, s, n)
    ensures View(t, s) == View(m, s)
  {
    hide Live;
  }

  lemma {:induction false} ViewOfTrim(m: Run, s: nat)
    ensures View(Trim(m, s), s) == View(m, s)
  {
    if m != [] {
      hide Live, Shadows, Visible;
      var n := |m| - 1;
      var init, t := m[..n], Trim(m, s);
      ViewOfTrim(init, s);
      ViewOfPrefix(m, init, s, n);
      if m[n].ik.seqno <= s {
        var k := |t| - 1;
        assert t[k] == m[n] && t[..k] == Trim(init, s);
        LiveIffUnshadowed(m, s, n);
        LiveIffUnshadowed(t, s, k);
        TrimShadows(init, m[n].ik.user, s);
        VisibleIs(m, s, n);
        VisibleIs(t, s, k);
        ViewOfPrefix(t, t[..k], s, k);
        SameLast(m, t, s, n, k);
      } else {
        VisibleIs(m, s, n);
        LiveIffUnshadowed(m, s, n);
        assert t == Trim(init, s);
      }
    }
  }

  /** An iterator opened at `s` keeps its view while its memtables grow: entries written later,
      with sequence numbers above `s`, change nothing. */
  lemma LaterWritesAreInvisible(m: Run, m': Run, s: nat)
    requires Sorted(m) && Sorted(m')
    requires forall e :: e in m ==> e in m'
    requires forall e :: e in m' && e !in m ==> e.ik.seqno > s
    ensures View(m', s) == View(m, s)
  {
    TrimSorted(m, s);
    TrimSorted(m', s);
    SortedIsUnique(Trim(m, s), Trim(m', s));
    ViewOfTrim(m, s);
    ViewOfTrim(m', s);
  }
}
