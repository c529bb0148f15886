/** A crash at any point, and opening the database again. */
module CrashRecovery {
  import opened Keys
  import opened Versions
  import opened Building
  import opened Lsm
  import opened LsmEdits
  import opened LsmSteps
  import opened LsmManifest
  import opened Crashes
  import opened CrashTables
  import opened CrashSteps

  // ------------------------------------------------------------------ what survives

  /** The surviving writes of the immutable memtable. */
  ghost function ImmSurvivors(s: Sys, cuts: seq<nat>): seq<Entry>
    requires LogsOk(s) && CutsOk(s.logs, cuts)
  {
    var n := |s.logs|;
    if s.db.imm.Some? then Cut(s.logs[n - 2], cuts[n - 2]) else []
  }

  ghost function MemSurvivors(s: Sys, cuts: seq<nat>): seq<Entry>
    requires LogsOk(s) && CutsOk(s.logs, cuts)
  {
    var n := |s.logs|;
    Cut(s.logs[n - 1], cuts[n - 1])
  }

  lemma {:induction false} NoSurvivors(logs: seq<LogFile>, cuts: seq<nat>, logNumber: nat)
    requires CutsOk(logs, cuts) && forall i :: 0 <= i < |logs| ==> logs[i].number < logNumber
    ensures Survivors(logs, cuts, logNumber) == []
  {
    if logs != [] {
      NoSurvivors(logs[..|logs| - 1], cuts[..|logs| - 1], logNumber);
    }
  }

  lemma SurvivorsStep(logs: seq<LogFile>, cuts: seq<nat>, logNumber: nat, n: nat)
    requires n < |logs| && CutsOk(logs, cuts)
    ensures CutsOk(logs[..n + 1], cuts[..n + 1]) && CutsOk(logs[..n], cuts[..n])
    ensures Survivors(logs[..n + 1], cuts[..n + 1], logNumber) ==
            Survivors(logs[..n], cuts[..n], logNumber) +
              if logs[n].number >= logNumber then Cut(logs[n], cuts[n]) else []
  {
    hide Cut;
    assert logs[..n + 1][..n] == logs[..n] && cuts[..n + 1][..n] == cuts[..n];
  }

  /** Recovery replays what survives of the memtables' logs. */
  lemma SurvivorsAre(s: Sys, cuts: seq<nat>)
    requires LogsOk(s) && CutsOk(s.logs, cuts)
    ensures Survivors(s.logs, cuts, LastCounters(s.manifest).logNumber) == ImmSurvivors(s, cuts) + MemSurvivors(s, cuts)
  {
    hide LastCounters, Cut, Survivors;
    var n, k := |s.logs|, LastCounters(s.manifest).logNumber;
    var live := n - if s.db.imm.Some? then 2 else 1;
    LiveLogs(s, live);
    hide LogsOk;
    assert s.logs[..n] == s.logs && cuts[..n] == cuts;
    NoSurvivors(s.logs[..live], cuts[..live], k);
    SurvivorsStep(s.logs, cuts, k, live);
    Regroup([], Cut(s.logs[live], cuts[live]), []);
    if s.db.imm.Some? {
      SurvivorsStep(s.logs, cuts, k, n - 1);
    }
  }

  /** Everything written to the logs or the tables, in order. */
  function History(s: Sys): seq<Entry> {
    s.base + s.immPart + (s.memPart + s.pending)
  }

  lemma HistoryAscends(s: Sys)
    requires Inv(s.db) && PartsOk(s)
    ensures Chronological(History(s))
    ensures forall e :: e in History(s) ==> e.ik.seqno < MAX_SEQUENCE - 1
  {
    hide EntriesFrom, FilesOk, PlacesOk, SnapshotsOk, InputsOk, BaseOk, SmallestOk, ReservedOk, Elems;
    var h, log := History(s), s.db.log;
    Regroup(s.base + s.immPart, s.memPart, s.pending);
    assert h == log + s.pending;
    forall i, j | 0 <= i < j < |h| ensures h[i].ik.seqno < h[j].ik.seqno {
      if i < |log| { assert log[i] in log; }
    }
    forall e | e in h ensures e.ik.seqno < MAX_SEQUENCE - 1 {
      var i :| 0 <= i < |h| && h[i] == e;
      if i < |log| { assert log[i] in log; }
    }
  }

  lemma SurvivorsArePrefixes(s: Sys, cuts: seq<nat>)
    requires LogsOk(s) && PartsOk(s) && CutsOk(s.logs, cuts)
    ensures ImmSurvivors(s, cuts) <= s.immPart
    ensures MemSurvivors(s, cuts) <= s.memPart + s.pending
  {
    hide LastCounters, EntriesFrom;
    var n := |s.logs|;
    FlatPrefix(s.logs[n - 1].records, cuts[n - 1]);
    if s.db.imm.Some? { FlatPrefix(s.logs[n - 2].records, cuts[n - 2]); }
  }

  /** Dropping the ends of two parts of a history leaves it in order. */
  lemma CutHistory(base: seq<Entry>, imm: seq<Entry>, mem: seq<Entry>, a: seq<Entry>, b: seq<Entry>)
    requires Chronological(base + imm + mem) && a <= imm && b <= mem
    ensures Chronological(base + (a + b)) && Chronological(a + b)
    ensures forall e :: e in a + b ==> e in base + imm + mem
  {
    var h, r := base + imm + mem, base + (a + b);
    forall i, j | 0 <= i < j < |r| ensures r[i].ik.seqno < r[j].ik.seqno {
      assert r[i] == h[if i < |base| + |a| then i else i - |a| + |imm|];
      assert r[j] == h[if j < |base| + |a| then j else j - |a| + |imm|];
    }
    ChronologicalParts(base, a + b);
    forall e | e in a + b ensures e in h {
      var i :| 0 <= i < |a + b| && (a + b)[i] == e;
      assert h[if i < |a| then |base| + i else |base| + |imm| + i - |a|] == e;
    }
  }

  ghost predicate SurvivorsOk(s: Sys, survivors: seq<Entry>) {
    && Chronological(s.base + survivors) && Chronological(survivors)
    && (forall x, y :: x in s.base && y in survivors ==> x.ik.seqno < y.ik.seqno)
    && (forall e :: e in survivors ==> e.ik.seqno < MAX_SEQUENCE - 1)
  }

  lemma SurvivorsAreOk(s: Sys, cuts: seq<nat>)
    requires Inv(s.db) && PartsOk(s) && LogsOk(s) && CutsOk(s.logs, cuts)
    ensures SurvivorsOk(s, Survivors(s.logs, cuts, LastCounters(s.manifest).logNumber))
  {
    HistoryAscends(s);
    SurvivorsAre(s, cuts);
    SurvivorsArePrefixes(s, cuts);
    hide Inv, PartsOk, LogsOk, Survivors, ImmSurvivors, MemSurvivors, LastCounters, CutsOk, Chronological;
    var a, b := ImmSurvivors(s, cuts), MemSurvivors(s, cuts);
    CutHistory(s.base, s.immPart, s.memPart + s.pending, a, b);
    ChronologicalParts(s.base, a + b);
  }

  // ------------------------------------------------------------------ the tables of recovery

  ghost predicate ChunksAscend(chunks: seq<seq<Entry>>) {
    && (forall i :: 0 <= i < |chunks| ==> Chronological(chunks[i]))
    && (forall i, j, x, y :: 0 <= i < j < |chunks| && x in chunks[i] && y in chunks[j] ==> x.ik.seqno < y.ik.seqno)
  }

  ghost predicate InChunk(chunks: seq<seq<Entry>>, e: Entry) {
    exists i :: 0 <= i < |chunks| && e in chunks[i]
  }

  lemma {:induction false} ChunksAre(chunks: seq<seq<Entry>>)
    requires Chronological(Flat(chunks))
    ensures ChunksAscend(chunks)
    ensures forall e :: InChunk(chunks, e) <==> e in Flat(chunks)
  {
    hide Chronological, InChunk, ChunksAscend;
    if chunks == [] {
      NoChunks();
    } else {
      var n := |chunks| - 1;
      ChronologicalParts(Flat(chunks[..n]), chunks[n]);
      ChunksAre(chunks[..n]);
      ChunksExtend(chunks[..n], chunks[n]);
      assert chunks[..n] + [chunks[n]] == chunks;
    }
  }

  lemma NoChunks()
    ensures ChunksAscend([]) && forall e :: !InChunk([], e)
  {
  }

  lemma ChunksExtend(init: seq<seq<Entry>>, last: seq<Entry>)
    requires ChunksAscend(init) && Chronological(last)
    requires forall x, y :: InChunk(init, x) && y in last ==> x.ik.seqno < y.ik.seqno
    ensures ChunksAscend(init + [last])
    ensures forall e :: InChunk(init + [last], e) <==> InChunk(init, e) || e in last
  {
    hide Chronological;
    var n, chunks := |init|, init + [last];
    forall i, j, x: Entry, y: Entry | 0 <= i < j < |chunks| && x in chunks[i] && y in chunks[j]
      ensures x.ik.seqno < y.ik.seqno
    {
      assert x in init[i];
      if j == n { assert InChunk(init, x); }
    }
    forall e ensures InChunk(chunks, e) <==> InChunk(init, e) || e in last {
      if InChunk(init, e) {
        var i :| 0 <= i < n && e in init[i];
        assert e in chunks[i];
      }
      if e in last { assert e in chunks[n]; }
    }
  }

  /** A table of the replayed writes `chunk`. */
  ghost predicate Holds(f: File, chunk: seq<Entry>, number: nat) {
    FileOk(f) && f.number == number && forall e :: e in f.run <==> e in chunk
  }

  lemma TableHolds(chunk: seq<Entry>, size: nat, number: nat)
    requires Chronological(chunk) && MemOf(chunk) != []
    ensures Holds(TableOf(chunk, size, number), chunk, number)
  {
    MemOfHolds(chunk);
    RunIsOk(TableOf(chunk, size, number));
    ElemsHold(chunk);
    ElemsHold(MemOf(chunk));
  }

  lemma RunIsOk(f: File)
    requires f.run != [] && Sorted(f.run) && f.smallest == f.run[0].ik && f.largest == f.run[|f.run| - 1].ik
    ensures FileOk(f)
  {
  }

  ghost predicate HoldAll(fs: seq<File>, chunks: seq<seq<Entry>>, numbers: seq<nat>) {
    |fs| == |chunks| == |numbers| && forall i :: 0 <= i < |fs| ==> Holds(fs[i], chunks[i], numbers[i])
  }

  lemma TablesAreOk(chunks: seq<seq<Entry>>, sizes: seq<nat>, numbers: seq<nat>, nextFile: nat, newLog: nat)
    requires ChunksOk(chunks, sizes, numbers, nextFile, newLog) && Chronological(Flat(chunks))
    ensures var fs := Tables(chunks, sizes, numbers);
            HoldAll(fs, chunks, numbers) && RunsOf(fs, |fs|) == Elems(Flat(chunks))
  {
    ChunksAre(chunks);
    hide Chronological, Flat, TableOf, MemOf, Holds, RunsOf;
    var fs := Tables(chunks, sizes, numbers);
    forall i | 0 <= i < |fs| ensures Holds(fs[i], chunks[i], numbers[i]) {
      TableHolds(chunks[i], sizes[i], numbers[i]);
    }
    HoldTheirRuns(fs, chunks, numbers);
  }

  lemma HoldTheirRuns(fs: seq<File>, chunks: seq<seq<Entry>>, numbers: seq<nat>)
    requires HoldAll(fs, chunks, numbers) && forall e :: InChunk(chunks, e) <==> e in Flat(chunks)
    ensures RunsOf(fs, |fs|) == Elems(Flat(chunks))
  {
    hide Flat, FileOk;
    forall e ensures e in RunsOf(fs, |fs|) <==> InChunk(chunks, e) {
      if e in RunsOf(fs, |fs|) {
        var i :| 0 <= i < |fs| && e in fs[i].run;
        assert Holds(fs[i], chunks[i], numbers[i]);
      }
      if InChunk(chunks, e) {
        var i :| 0 <= i < |chunks| && e in chunks[i];
        assert Holds(fs[i], chunks[i], numbers[i]);
      }
    }
  }

  lemma TablesStack(v: seq<seq<File>>, base: seq<Entry>, chunks: seq<seq<Entry>>, sizes: seq<nat>, numbers: seq<nat>,
                    nextFile: nat, newLog: nat)
    requires FilesOk(v, nextFile) && EntriesFrom(v, 0) <= Elems(base)
    requires ChunksOk(chunks, sizes, numbers, nextFile, newLog) && Chronological(Flat(chunks))
    requires forall x, y :: x in base && y in Flat(chunks) ==> x.ik.seqno < y.ik.seqno
    ensures Stackable(v, Tables(chunks, sizes, numbers), nextFile)
  {
    hide FilesOk, EntriesFrom, Chronological, Flat, MemOf, InChunk, ChunksAscend, Tables, HoldAll, NumbersAscend,
         NewerThanStored, RunsAscend,
      RunsOf;
    TablesAreOk(chunks, sizes, numbers, nextFile, newLog);
    ChunksAre(chunks);
    var fs := Tables(chunks, sizes, numbers);
    TablesNumbered(fs, chunks, sizes, numbers, nextFile, newLog);
    TablesAreNewer(v, base, fs, chunks, numbers);
    TablesAscend(fs, chunks, numbers);
  }

  lemma TablesNumbered(fs: seq<File>, chunks: seq<seq<Entry>>, sizes: seq<nat>, numbers: seq<nat>, nextFile: nat,
                       newLog: nat)
    requires HoldAll(fs, chunks, numbers) && ChunksOk(chunks, sizes, numbers, nextFile, newLog)
    ensures NumbersAscend(fs, nextFile)
  {
    hide FileOk, MemOf;
    forall i | 0 <= i < |fs| ensures FileOk(fs[i]) && fs[i].number == numbers[i] {
      assert Holds(fs[i], chunks[i], numbers[i]);
    }
  }

  lemma TablesAreNewer(v: seq<seq<File>>, base: seq<Entry>, fs: seq<File>, chunks: seq<seq<Entry>>, numbers: seq<nat>)
    requires HoldAll(fs, chunks, numbers) && EntriesFrom(v, 0) <= Elems(base)
    requires forall y :: InChunk(chunks, y) <==> y in Flat(chunks)
    requires forall y, z :: y in base && z in Flat(chunks) ==> y.ik.seqno < z.ik.seqno
    ensures NewerThanStored(v, fs)
  {
    hide Flat, FileOk, EntriesFrom;
    forall i, e, x | 0 <= i < |fs| && e in EntriesFrom(v, 0) && x in fs[i].run ensures e.ik.seqno < x.ik.seqno {
      assert Holds(fs[i], chunks[i], numbers[i]);
      assert x in chunks[i] && InChunk(chunks, x) && e in Elems(base);
    }
  }

  lemma TablesAscend(fs: seq<File>, chunks: seq<seq<Entry>>, numbers: seq<nat>)
    requires HoldAll(fs, chunks, numbers) && ChunksAscend(chunks)
    ensures RunsAscend(fs)
  {
    hide FileOk, Chronological;
    forall i, j, e, x | 0 <= i < j < |fs| && e in fs[i].run && x in fs[j].run ensures e.ik.seqno < x.ik.seqno {
      assert Holds(fs[i], chunks[i], numbers[i]) && Holds(fs[j], chunks[j], numbers[j]);
    }
  }

  // ------------------------------------------------------------------ the recovered state

  ghost predicate Crashable(s: Sys, cuts: seq<nat>, chunks: seq<seq<Entry>>, sizes: seq<nat>, numbers: seq<nat>,
                            newLog: nat) {
    var k := LastCounters(s.manifest);
    && SysInv(s) && CutsOk(s.logs, cuts)
    && ChunksOk(chunks, sizes, numbers, k.nextFile, newLog) && k.nextFile < newLog
    && Flat(chunks) == Survivors(s.logs, cuts, k.logNumber)
  }

  /** The recovered version: the tables of the manifest, and those of the replayed logs. */
  lemma RecoveredVersion(s: Sys, cuts: seq<nat>, chunks: seq<seq<Entry>>, sizes: seq<nat>, numbers: seq<nat>,
                         newLog: nat)
    requires Crashable(s, cuts, chunks, sizes, numbers, newLog)
    ensures var k := LastCounters(s.manifest); var r := Recovered(s, cuts, chunks, sizes, numbers, newLog);
            var fs := Tables(chunks, sizes, numbers);
            && Replayed(EditsIn(s.manifest)) == s.db.v && SurvivorsOk(s, Flat(chunks))
            && FilesOk(s.db.v, k.nextFile) && |s.db.v| == NUM_LEVELS
            && r.db.v == ApplyEdit(s.db.v, Edit({}, Additions(0, fs)))
            && FilesOk(r.db.v, newLog + 1)
            && EntriesFrom(r.db.v, 0) == EntriesFrom(s.db.v, 0) + Elems(Flat(chunks))
  {
    var k := LastCounters(s.manifest);
    SurvivorsAreOk(s, cuts);
    assert FilesOk(s.db.v, s.db.next) && |s.db.v| == NUM_LEVELS && EntriesFrom(s.db.v, 0) <= Elems(s.base);
    FilesBelow(s.db.v, s.db.next, k.nextFile);
    LoggedReplays(s.db.v, s.db.next, Reserved(s.db), EditsIn(s.manifest));
    hide Inv, PartsOk, LogsOk, SyncedOk, ManifestOk, FilesOk, EntriesFrom, Flat, Survivors, LastCounters, ApplyEdit,
         Stackable, Tables,
      RunsOf, Chronological, Elems, Logged, Replayed;
    TablesStack(s.db.v, s.base, chunks, sizes, numbers, k.nextFile, newLog);
    TablesAreOk(chunks, sizes, numbers, k.nextFile, newLog);
    TableNumbers(chunks, sizes, numbers, k.nextFile, newLog);
    RecoveredFilesOk(s.db.v, Tables(chunks, sizes, numbers), k.nextFile, newLog + 1);
  }

  lemma FilesBelow(v: seq<seq<File>>, next: nat, bound: nat)
    requires FilesOk(v, next) && NumbersBelow(v, bound)
    ensures FilesOk(v, bound)
  {
    hide VersionOk, LevelsInOrder, NumbersUnique;
  }

  lemma TableNumbers(chunks: seq<seq<Entry>>, sizes: seq<nat>, numbers: seq<nat>, nextFile: nat, newLog: nat)
    requires ChunksOk(chunks, sizes, numbers, nextFile, newLog)
    ensures var fs := Tables(chunks, sizes, numbers);
            DistinctNumbers(fs) && forall f :: f in fs ==> nextFile < f.number < newLog
  {
    hide MemOf;
    var fs := Tables(chunks, sizes, numbers);
    forall f | f in fs ensures nextFile < f.number < newLog {
      var i :| 0 <= i < |fs| && fs[i] == f;
      assert fs[i].number == numbers[i];
    }
  }

  lemma LastIsGreatest(es: seq<Entry>)
    requires Chronological(es)
    ensures forall e :: e in es ==> e.ik.seqno <= LastSeqno(es)
    ensures es != [] ==> es[|es| - 1] in es
  {
  }

  lemma RecoveredInv(s: Sys, cuts: seq<nat>, chunks: seq<seq<Entry>>, sizes: seq<nat>, numbers: seq<nat>, newLog: nat)
    requires Crashable(s, cuts, chunks, sizes, numbers, newLog)
    ensures var r := Recovered(s, cuts, chunks, sizes, numbers, newLog); Inv(r.db) && PartsOk(r)
  {
    RecoveredVersion(s, cuts, chunks, sizes, numbers, newLog);
    RecoveredDb(s, cuts, chunks, sizes, numbers, newLog);
    BaseBounds(s);
    var r := Recovered(s, cuts, chunks, sizes, numbers, newLog);
    hide Crashable, SysInv, Inv, PartsOk, FilesOk, EntriesFrom, Flat, LastCounters, Recovered, ApplyEdit, Tables,
         Replayed, CutsOk, ChunksOk, Elems,
      SurvivorsOk;
    SurvivorsLog(s, Flat(chunks), r);
    ElemsJoin(s.base, Flat(chunks));
    NewDbOk(r.db);
    NewPartsOk(r);
  }

  /** The recovered database is one of tables only. */
  lemma RecoveredDb(s: Sys, cuts: seq<nat>, chunks: seq<seq<Entry>>, sizes: seq<nat>, numbers: seq<nat>, newLog: nat)
    requires Crashable(s, cuts, chunks, sizes, numbers, newLog)
    ensures var r, k, survivors :=
            Recovered(s, cuts, chunks, sizes, numbers, newLog), LastCounters(s.manifest), Flat(chunks);
            && r.db.mem == [] && r.db.imm.None? && r.db.running.None? && r.db.snapshots == [] && r.db.next == newLog + 1
            && r.immPart == r.memPart == r.pending == [] && r.db.log == r.base == s.base + survivors
            && r.db.applied == r.db.last == Max(k.lastSequence, LastSeqno(survivors))
            && r.db.floor == Min(s.db.floor, LastSeqno(s.base))
  {
    hide SysInv, Flat, Survivors, LastCounters, ApplyEdit, Tables, Replayed, SnapshotEdit;
  }

  /** The history of the recovered database. */
  lemma SurvivorsLog(s: Sys, survivors: seq<Entry>, r: Sys)
    requires SurvivorsOk(s, survivors) && r.db.log == s.base + survivors
    requires var k := LastCounters(s.manifest);
      && k.lastSequence + 1 < MAX_SEQUENCE && (forall e :: e in s.base ==> e.ik.seqno <= k.lastSequence) &&
         LastSeqno(s.base) <= k.lastSequence
      && r.db.applied == r.db.last == Max(k.lastSequence, LastSeqno(survivors)) &&
         r.db.floor == Min(s.db.floor, LastSeqno(s.base))
    ensures LogOk(r.db.log, r.db.applied, r.db.last) && r.db.applied + 1 < MAX_SEQUENCE && r.db.floor <= r.db.last
  {
    hide LastCounters, Chronological;
    LastIsGreatest(survivors);
    RecoveredLog(s.base, survivors, LastCounters(s.manifest).lastSequence, r.db.applied);
  }

  lemma RecoveredLog(base: seq<Entry>, survivors: seq<Entry>, last: nat, applied: nat)
    requires Chronological(base + survivors) && applied == Max(last, LastSeqno(survivors)) && applied + 1 < MAX_SEQUENCE
    requires (forall e :: e in base ==> e.ik.seqno <= last) &&
             (forall e :: e in survivors ==> e.ik.seqno <= LastSeqno(survivors))
    ensures LogOk(base + survivors, applied, applied)
  {
    hide Chronological;
  }

  lemma BaseBounds(s: Sys)
    requires SysInv(s)
    ensures EntriesFrom(s.db.v, 0) <= Elems(s.base)
    ensures var k := LastCounters(s.manifest);
            && k.lastSequence + 1 < MAX_SEQUENCE && (forall e :: e in s.base ==> e.ik.seqno <= k.lastSequence)
            && LastSeqno(s.base) <= k.lastSequence
  {
    hide EntriesFrom, Elems, FilesOk, PlacesOk, LogsOk, SyncedOk, Logged, LastCounters;
    if s.base != [] { assert s.base[|s.base| - 1] in s.base; }
  }

  /** A database of tables only. */
  lemma NewDbOk(d: Db)
    requires d.mem == [] && d.imm.None? && d.running.None? && d.snapshots == []
    requires LogOk(d.log, d.applied, d.last) && FilesOk(d.v, d.next) && EntriesFrom(d.v, 0) <= Elems(d.log) &&
             d.floor <= d.last
    ensures Inv(d)
  {
    hide FilesOk, EntriesFrom, LogOk;
    EmptySorts();
  }

  lemma NewPartsOk(r: Sys)
    requires r.db.mem == [] && r.db.imm.None? && r.immPart == r.memPart == r.pending == []
    requires r.db.log == r.base && EntriesFrom(r.db.v, 0) <= Elems(r.base) && LogOk(r.db.log, r.db.applied, r.db.last)
    requires r.db.applied == r.db.last && r.db.applied + 1 < MAX_SEQUENCE
    ensures PartsOk(r)
  {
    hide EntriesFrom, Chronological;
    EmptySorts();
    Regroup(r.base, [], []);
  }

  // ------------------------------------------------------------------ the new manifest

  /** The manifest written on reopening: the whole recovered version, then the tables of the replayed logs. */
  lemma RecoveredManifest(v: seq<seq<File>>, files: seq<File>, nextFile: nat, newLog: nat)
    requires FilesOk(v, nextFile) && DistinctNumbers(files) && nextFile < newLog
    requires forall f :: f in files ==> nextFile < f.number < newLog
    ensures |v| == NUM_LEVELS
    ensures var e := Edit({}, Additions(0, files));
            Logged(ApplyEdit(v, e), newLog + 1, {}, [SnapshotEdit(v), e])
  {
    hide VersionOk, LevelsInOrder, NumbersUnique, NumbersBelow, SnapshotEdit, ApplyEdit, DistinctNumbers, HasTables,
         Logged, LevelLogged;
    var e := Edit({}, Additions(0, files));
    SnapshotIsLogged(v, nextFile);
    StackOnto(v, files, nextFile);
    assert [SnapshotEdit(v)] + [e] == [SnapshotEdit(v), e];
    LoggedOnto(v, files, nextFile, newLog);
  }

  lemma LoggedOnto(v: seq<seq<File>>, files: seq<File>, nextFile: nat, newLog: nat)
    requires DistinctNumbers(files) && nextFile < newLog && forall f :: f in files ==> nextFile < f.number < newLog
    requires Logged(v, nextFile, {}, [SnapshotEdit(v)])
    requires HasTables(v, ApplyEdit(v, Edit({}, Additions(0, files))), files)
    ensures var e := Edit({}, Additions(0, files));
            Logged(ApplyEdit(v, e), newLog + 1, {}, [SnapshotEdit(v)] + [e])
  {
    hide SnapshotEdit, ApplyEdit, DistinctNumbers, HasTables, LevelLogged;
    var e := Edit({}, Additions(0, files));
    var v', edits', next' := ApplyEdit(v, e), [SnapshotEdit(v)] + [e], newLog + 1;
    AppliedLength(v, e);
    forall l | 0 <= l < NUM_LEVELS ensures LevelLogged(l, v', next', {}, edits') {
      assert LevelLogged(l, v, nextFile, {}, [SnapshotEdit(v)]);
      RecoveredLevel(v, files, nextFile, newLog, l);
    }
  }

  lemma StackOnto(v: seq<seq<File>>, files: seq<File>, nextFile: nat)
    requires LevelsInOrder(v) && NumbersBelow(v, nextFile) && DistinctNumbers(files) && forall f :: f in files ==>
             nextFile < f.number
    ensures HasTables(v, ApplyEdit(v, Edit({}, Additions(0, files))), files)
  {
    OneEditHas(v, files);
  }

  lemma RecoveredLevel(v: seq<seq<File>>, files: seq<File>, nextFile: nat, newLog: nat, l: nat)
    requires |v| == NUM_LEVELS && l < NUM_LEVELS && DistinctNumbers(files) && nextFile < newLog
    requires forall f :: f in files ==> nextFile < f.number < newLog
    requires LevelLogged(l, v, nextFile, {}, [SnapshotEdit(v)])
    requires HasTables(v, ApplyEdit(v, Edit({}, Additions(0, files))), files)
    ensures var e := Edit({}, Additions(0, files));
            LevelLogged(l, ApplyEdit(v, e), newLog + 1, {}, [SnapshotEdit(v)] + [e])
  {
    hide SnapshotEdit, ApplyEdit, AddedAt, Numbers, EverAt, AddedOnce, SaveSeq, DistinctNumbers, DistinctAdds;
    var e := Edit({}, Additions(0, files));
    var v' := ApplyEdit(v, e);
    AdditionsAt(0, files, l);
    NumbersOf(files);
    NothingNumbered();
    forall k: nat, f: File | 0 <= k < l && f in v'[k]
      ensures f.number !in Numbers(EverAt(l, [], [SnapshotEdit(v)])) && f.number !in Numbers(AddedAt(e.added, l))
    {
      if f !in v[k] { assert f in files; }
    }
    EditKeepsLevel(l, v, nextFile, {}, [SnapshotEdit(v)], e, v', newLog + 1, {});
  }

  lemma RecoveredManifestOk(s: Sys, cuts: seq<nat>, chunks: seq<seq<Entry>>, sizes: seq<nat>, numbers: seq<nat>,
                            newLog: nat)
    requires Crashable(s, cuts, chunks, sizes, numbers, newLog)
    ensures ManifestOk(Recovered(s, cuts, chunks, sizes, numbers, newLog))
  {
    RecoveredVersion(s, cuts, chunks, sizes, numbers, newLog);
    RecoveredInv(s, cuts, chunks, sizes, numbers, newLog);
    var r, k := Recovered(s, cuts, chunks, sizes, numbers, newLog), LastCounters(s.manifest);
    var fs := Tables(chunks, sizes, numbers);
    var e := Edit({}, Additions(0, fs));
    TableNumbers(chunks, sizes, numbers, k.nextFile, newLog);
    RecoveredManifest(s.db.v, fs, k.nextFile, newLog);
    NewCounters(SnapshotEdit(s.db.v), e, Counters(newLog, newLog + 1, r.db.last));
    BasePartVisible(r);
    hide Crashable, ApplyEdit, Logged, SnapshotEdit, Inv, PartsOk, EntriesFrom, VersionOk, LevelsInOrder,
         NumbersUnique, Flat, Survivors, Tables, Replayed, LastCounters, EditsIn;
  }

  lemma NewCounters(snapshot: Edit, e: Edit, k: Counters)
    ensures var manifest := [ManifestRecord(snapshot, None), ManifestRecord(e, Some(k))];
            LastCounters(manifest) == k && EditsIn(manifest) == [snapshot, e]
  {
  }

  lemma BasePartVisible(r: Sys)
    requires PartsOk(r)
    ensures forall e :: e in r.base ==> e.ik.seqno <= r.db.last
  {
    hide EntriesFrom;
  }

  // ------------------------------------------------------------------ nothing synced is lost

  /** A crash loses no write of which the log was ever synced. */
  lemma SyncedSurvives(s: Sys, cuts: seq<nat>)
    requires LogsOk(s) && SyncedOk(s) && CutsOk(s.logs, cuts)
    ensures s.synced <= Elems(s.base + Survivors(s.logs, cuts, LastCounters(s.manifest).logNumber))
  {
    SurvivorsAre(s, cuts);
    hide Survivors, LastCounters, Flat;
    var n := |s.logs|;
    CutGrows(s.logs[n - 1], s.logs[n - 1].synced, cuts[n - 1]);
    if s.db.imm.Some? { CutGrows(s.logs[n - 2], s.logs[n - 2].synced, cuts[n - 2]); }
  }

  lemma CutGrows(f: LogFile, j: nat, k: nat)
    requires j <= k <= |f.records|
    ensures Cut(f, j) <= Cut(f, k)
  {
    FlatPrefix(f.records[..k], j);
    assert f.records[..k][..j] == f.records[..j];
  }

  lemma RecoveredLogsOk(s: Sys, cuts: seq<nat>, chunks: seq<seq<Entry>>, sizes: seq<nat>, numbers: seq<nat>,
                        newLog: nat)
    requires Crashable(s, cuts, chunks, sizes, numbers, newLog)
    ensures var r := Recovered(s, cuts, chunks, sizes, numbers, newLog); LogsOk(r) && SyncedOk(r)
  {
    SyncedSurvives(s, cuts);
    var r := Recovered(s, cuts, chunks, sizes, numbers, newLog);
    RecoveredDisk(s, cuts, chunks, sizes, numbers, newLog);
    hide Crashable, Survivors, LastCounters, Recovered;
    NewLogsOk(r, newLog);
  }

  /** What is on disk after reopening. */
  lemma RecoveredDisk(s: Sys, cuts: seq<nat>, chunks: seq<seq<Entry>>, sizes: seq<nat>, numbers: seq<nat>, newLog: nat)
    requires Crashable(s, cuts, chunks, sizes, numbers, newLog)
    ensures var r := Recovered(s, cuts, chunks, sizes, numbers, newLog);
            && r.logs == [LogFile(newLog, [], 0)] && LastCounters(r.manifest).logNumber == newLog &&
               r.db.next == newLog + 1
            && r.db.imm.None? && r.memPart == r.pending == [] && r.synced == s.synced
            && r.base == s.base + Survivors(s.logs, cuts, LastCounters(s.manifest).logNumber)
  {
    var r, v := Recovered(s, cuts, chunks, sizes, numbers, newLog), Replayed(EditsIn(s.manifest));
    NewCounters(SnapshotEdit(v), Edit({}, Additions(0, Tables(chunks, sizes, numbers))),
      Counters(newLog, newLog + 1, r.db.last));
    hide Crashable, Survivors, Replayed, SnapshotEdit, Tables, LastCounters, ApplyEdit;
  }

  lemma NewLogsOk(r: Sys, newLog: nat)
    requires r.logs == [LogFile(newLog, [], 0)] && LastCounters(r.manifest).logNumber == newLog && newLog < r.db.next
    requires r.db.imm.None? && r.memPart == r.pending == [] && r.synced <= Elems(r.base)
    ensures LogsOk(r) && SyncedOk(r)
  {
    hide LastCounters;
    assert Flat<Entry>([]) == [] && [] + r.pending == [];
  }

  /** Crashing and reopening keeps the invariant: the recovered database is sound. */
  lemma CrashKeeps(maxFileSize: nat, s: Sys, step: Step)
    requires SysInv(s) && CanStep(maxFileSize, s, step) && step.Crash?
    ensures SysInv(After(maxFileSize, s, step))
  {
    hide SysInv, Survivors, Inv, PartsOk, LogsOk, SyncedOk, ManifestOk;
    assert Crashable(s, step.cuts, step.chunks, step.sizes, step.numbers, step.newLog);
    hide Crashable, CanStep, Recovered;
    RecoveredInv(s, step.cuts, step.chunks, step.sizes, step.numbers, step.newLog);
    RecoveredManifestOk(s, step.cuts, step.chunks, step.sizes, step.numbers, step.newLog);
    RecoveredLogsOk(s, step.cuts, step.chunks, step.sizes, step.numbers, step.newLog);
    SysInvFrom(After(maxFileSize, s, step));
  }

  lemma SysInvFrom(s: Sys)
    requires Inv(s.db) && PartsOk(s) && LogsOk(s) && SyncedOk(s) && ManifestOk(s)
    ensures SysInv(s)
  {
  }

  // ------------------------------------------------------------------ all steps

  lemma StepKeepsSysInv(maxFileSize: nat, s: Sys, step: Step)
    requires SysInv(s) && CanStep(maxFileSize, s, step)
    ensures SysInv(After(maxFileSize, s, step))
  {
    hide SysInv, CanStep, After;
    match step
    case Append(ops) => AppendKeeps(maxFileSize, s, ops);
    case SyncLog => SyncKeeps(maxFileSize, s);
    case Do(a) => DoKeeps(maxFileSize, s, a);
    case DeleteLogs => DeleteKeeps(maxFileSize, s);
    case Crash(_, _, _, _, _) => CrashKeeps(maxFileSize, s, step);
  }

  lemma DoKeeps(maxFileSize: nat, s: Sys, a: Action)
    requires SysInv(s) && CanStep(maxFileSize, s, Do(a))
    ensures SysInv(After(maxFileSize, s, Do(a)))
  {
    hide SysInv, CanStep, After;
    match a
    case Insert(_, _, _) => InsertTakes(maxFileSize, s, a);
    case Switch => SwitchTakes(maxFileSize, s);
    case Flush(_) => EditTakes(maxFileSize, s, a);
    case Move => EditTakes(maxFileSize, s, a);
    case Install(_) => EditTakes(maxFileSize, s, a);
    case _ => QuietTakes(maxFileSize, s, a);
  }
}
