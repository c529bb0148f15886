/** Every step, crashes included, keeps the invariant that ties memory to disk. */
module CrashSteps {
  import opened Keys
  import opened Versions
  import opened Picking
  import opened Lsm
  import opened LsmSteps
  import opened LsmRuns
  import opened LsmManifest
  import opened WriteBatches
  import opened Crashes
  import opened CrashTables

  // ------------------------------------------------------------------ sequences of sequences

  lemma FlatLast<T>(ss: seq<seq<T>>, s: seq<T>)
    ensures Flat(ss + [s]) == Flat(ss) + s
  {
    assert (ss + [s])[..|ss|] == ss;
  }

  lemma {:induction false} FlatPrefix<T>(ss: seq<seq<T>>, k: nat)
    requires k <= |ss|
    ensures Flat(ss[..k]) <= Flat(ss)
  {
    if k < |ss| {
      var n := |ss| - 1;
      FlatPrefix(ss[..n], k);
      assert ss[..n][..k] == ss[..k];
    } else {
      assert ss[..k] == ss;
    }
  }

  lemma Regroup<T>(a: seq<T>, b: seq<T>, c: seq<T>)
    ensures (a + b) + c == a + (b + c) && a + [] == a && [] + a == a
  {
  }

  // ------------------------------------------------------------------ writing to the log

  lemma AppendKeeps(maxFileSize: nat, s: Sys, ops: seq<Op>)
    requires SysInv(s) && CanStep(maxFileSize, s, Append(ops))
    ensures SysInv(After(maxFileSize, s, Append(ops)))
  {
    hide Inv, ManifestOk, PartsOk, LogsOk, SyncedOk, Numbered;
    var s', es := After(maxFileSize, s, Append(ops)), Numbered(s.db.applied + 1, ops);
    AppendParts(s, s', es);
    SameManifest(s, s');
    AppendLogs(s, s', es);
  }

  lemma AppendLogs(s: Sys, s': Sys, es: seq<Entry>)
    requires LogsOk(s) && SyncedOk(s) && s.pending == []
    requires s' == WithCurrent(s, Current(s).(records := Current(s).records + [es])).(pending := es)
    ensures LogsOk(s') && SyncedOk(s')
  {
    hide LastCounters, Flat;
    var f := Current(s);
    FlatLast(f.records, es);
    Regroup(s.memPart, [], es);
    assert f.records[..f.synced] == (f.records + [es])[..f.synced];
  }

  lemma AppendParts(s: Sys, s': Sys, es: seq<Entry>)
    requires PartsOk(s) && s' == s.(pending := es, logs := s'.logs) && s.db.applied + |es| + 1 < MAX_SEQUENCE
    requires forall i :: 0 <= i < |es| ==> es[i].ik.seqno == s.db.applied + 1 + i
    ensures PartsOk(s')
  {
    hide EntriesFrom;
  }

  lemma SameManifest(s: Sys, s': Sys)
    requires ManifestOk(s) && s'.manifest == s.manifest && s'.db == s.db && s'.base == s.base
    ensures ManifestOk(s')
  {
    hide Logged;
  }

  lemma SyncKeeps(maxFileSize: nat, s: Sys)
    requires SysInv(s) && CanStep(maxFileSize, s, SyncLog)
    ensures SysInv(After(maxFileSize, s, SyncLog))
  {
    hide Inv, ManifestOk, PartsOk, LogsOk, SyncedOk;
    var s' := After(maxFileSize, s, SyncLog);
    SameManifest(s, s');
    SameParts(s, s');
    SyncLogs(s, s');
  }

  lemma SyncLogs(s: Sys, s': Sys)
    requires LogsOk(s) && SyncedOk(s)
    requires s' == WithCurrent(s,
             Current(s).(synced := |Current(s).records|)).(synced := s.synced + Elems(s.memPart + s.pending))
    ensures LogsOk(s') && SyncedOk(s')
  {
    hide LastCounters, Flat;
    var f := Current(s);
    assert f.records[..|f.records|] == f.records;
    FlatPrefix(f.records, f.synced);
    forall e | e in s.synced && e in Cut(f, f.synced) ensures e in Flat(f.records) {}
  }

  lemma SameParts(s: Sys, s': Sys)
    requires PartsOk(s) && s'.db == s.db && s'.base == s.base && s'.immPart == s.immPart && s'.memPart == s.memPart &&
             s'.pending == s.pending
    ensures PartsOk(s')
  {
    hide EntriesFrom;
  }

  // ------------------------------------------------------------------ steps of the database

  lemma InvAdvances(d: Db)
    requires Inv(d)
    ensures Inv(d.(next := d.next + 1))
  {
    hide VersionOk, LevelsInOrder, NumbersUnique, PlacesOk, LogOk, SnapshotsOk, InputsOk, BaseOk, SmallestOk;
  }

  /** The logs are untouched, and so is what they hold. */
  lemma SameLogs(s: Sys, s': Sys)
    requires LogsOk(s) && SyncedOk(s) && s'.logs == s.logs && s'.manifest == s.manifest && s.db.next <= s'.db.next
    requires s'.db.imm.Some? == s.db.imm.Some? && s'.base == s.base && s'.immPart == s.immPart && s'.synced == s.synced
    requires s'.memPart + s'.pending == s.memPart + s.pending
    ensures LogsOk(s') && SyncedOk(s')
  {
    hide LastCounters, Cut, Flat;
  }

  /** The manifest and the tables are untouched. */
  lemma ManifestAdvances(s: Sys, s': Sys)
    requires ManifestOk(s) && s'.manifest == s.manifest && s'.base == s.base && s'.db.v == s.db.v
    requires s.db.next <= s'.db.next && s.db.last <= s'.db.last
    requires Logged(s'.db.v, s'.db.next, Reserved(s'.db), EditsIn(s.manifest))
    ensures ManifestOk(s')
  {
    hide Logged, LastCounters, NumbersBelow, EditsIn;
  }

  lemma InsertMakes(maxFileSize: nat, s: Sys, a: Action)
    requires CanStep(maxFileSize, s, Do(a)) && a.Insert?
    ensures Enabled(maxFileSize, s.db, a) && s.pending != []
    ensures var e, d := s.pending[0], s.db;
            && e == Entry(IKey(a.user, d.applied + 1, a.typ), a.value)
            && Apply(maxFileSize, d, a) == d.(mem := MemInsert(d.mem, e), applied := d.applied + 1, log := d.log + [e])
            && After(maxFileSize, s, Do(a)) ==
               s.(db := Apply(maxFileSize, d, a), memPart := s.memPart + [e], pending := s.pending[1..])
  {
  }

  lemma InsertParts(s: Sys, s': Sys, e: Entry)
    requires PartsOk(s) && s.pending != [] && e == s.pending[0]
    requires s'.db == s.db.(mem := MemInsert(s.db.mem, e), applied := s.db.applied + 1, log := s.db.log + [e])
    requires s'.base == s.base && s'.immPart == s.immPart && s'.memPart == s.memPart + [e] &&
             s'.pending == s.pending[1..]
    ensures PartsOk(s')
  {
    hide EntriesFrom, MemInsert, Elems;
    MemInsertHolds(s.db.mem, e);
    ElemsJoin(s.memPart, [e]);
    ElemsOfOne(e);
    Regroup(s.base + s.immPart, s.memPart, [e]);
  }

  lemma ElemsOfOne(e: Entry)
    ensures Elems([e]) == {e} && Elems([]) == {}
  {
  }

  lemma InsertTakes(maxFileSize: nat, s: Sys, a: Action)
    requires SysInv(s) && CanStep(maxFileSize, s, Do(a)) && a.Insert?
    ensures SysInv(After(maxFileSize, s, Do(a)))
  {
    hide Inv, Logged, PartsOk, LogsOk, SyncedOk, ManifestOk, CanStep, After, Enabled, Apply, MemInsert;
    InsertMakes(maxFileSize, s, a);
    var s', e := After(maxFileSize, s, Do(a)), s.pending[0];
    StepKeepsInv(maxFileSize, s.db, a);
    ManifestIsLogged(s);
    InsertIsQuiet(a);
    QuietLogged(maxFileSize, s.db, a, EditsIn(s.manifest));
    ManifestAdvances(s, s');
    InsertParts(s, s', e);
    assert [e] + s.pending[1..] == s.pending;
    Regroup(s.memPart, [e], s.pending[1..]);
    SameLogs(s, s');
  }

  lemma InsertIsQuiet(a: Action)
    ensures a.Insert? || a.Switch? || Quiet(a) ==> !LogsEdit(a)
  {
  }

  lemma ManifestIsLogged(s: Sys)
    requires ManifestOk(s)
    ensures Logged(s.db.v, s.db.next, Reserved(s.db), EditsIn(s.manifest))
  {
    hide Logged;
  }

  /** Steps that touch neither memtables, nor tables, nor logs. */
  predicate Quiet(a: Action) {
    a.Publish? || a.TakeSnapshot? || a.ReleaseSnapshot? || a.Begin? || a.Reserve?
  }

  lemma QuietEffect(maxFileSize: nat, d: Db, a: Action)
    requires Enabled(maxFileSize, d, a) && Quiet(a) && d.last <= d.applied
    ensures var d' := Apply(maxFileSize, d, a);
            && d'.mem == d.mem && d'.imm == d.imm && d'.v == d.v && d'.log == d.log && d'.applied == d.applied
            && d.last <= d'.last && d.next <= d'.next && d'.floor == d.floor
  {
    hide Pick;
  }

  lemma QuietMakes(maxFileSize: nat, s: Sys, a: Action)
    requires Inv(s.db) && CanStep(maxFileSize, s, Do(a)) && Quiet(a)
    ensures Enabled(maxFileSize, s.db, a)
    ensures var d, d' := s.db, Apply(maxFileSize, s.db, a);
            && d'.mem == d.mem && d'.imm == d.imm && d'.v == d.v && d'.log == d.log && d'.applied == d.applied
            && d.last <= d'.last && d.next <= d'.next
            && After(maxFileSize, s, Do(a)) == s.(db := d')
  {
    LastIsApplied(s.db);
    QuietTaken(maxFileSize, s, a);
    hide Inv, Enabled, Apply, CanStep, After;
    QuietEffect(maxFileSize, s.db, a);
  }

  lemma LastIsApplied(d: Db)
    requires Inv(d)
    ensures d.last <= d.applied
  {
    hide FilesOk, PlacesOk, SnapshotsOk, InputsOk, BaseOk, SmallestOk, ReservedOk, Chronological;
  }

  lemma QuietTaken(maxFileSize: nat, s: Sys, a: Action)
    requires CanStep(maxFileSize, s, Do(a)) && Quiet(a)
    ensures Enabled(maxFileSize, s.db, a) && After(maxFileSize, s, Do(a)) == s.(db := Apply(maxFileSize, s.db, a))
  {
    hide Enabled, Apply;
  }

  lemma QuietParts(s: Sys, s': Sys)
    requires PartsOk(s) && s' == s.(db := s'.db)
    requires var d, d' := s.db, s'.db;
      && d'.mem == d.mem && d'.imm == d.imm && d'.v == d.v && d'.log == d.log && d'.applied == d.applied &&
         d.last <= d'.last
    ensures PartsOk(s')
  {
    hide EntriesFrom, Elems;
  }

  lemma QuietTakes(maxFileSize: nat, s: Sys, a: Action)
    requires SysInv(s) && CanStep(maxFileSize, s, Do(a)) && Quiet(a)
    ensures SysInv(After(maxFileSize, s, Do(a)))
  {
    hide Inv, Logged, PartsOk, LogsOk, SyncedOk, ManifestOk, CanStep, After, Enabled, Apply, Quiet;
    QuietMakes(maxFileSize, s, a);
    var s' := After(maxFileSize, s, Do(a));
    StepKeepsInv(maxFileSize, s.db, a);
    ManifestIsLogged(s);
    InsertIsQuiet(a);
    QuietLogged(maxFileSize, s.db, a, EditsIn(s.manifest));
    ManifestAdvances(s, s');
    QuietParts(s, s');
    SameLogs(s, s');
  }

  lemma SwitchMakes(maxFileSize: nat, s: Sys)
    requires CanStep(maxFileSize, s, Do(Switch))
    ensures Enabled(maxFileSize, s.db, Switch) && s.db.imm.None? && s.db.applied == s.db.last && s.pending == []
    ensures var d := s.db;
            && Apply(maxFileSize, d, Switch) == d.(imm := Some(d.mem), mem := [])
            && After(maxFileSize, s, Do(Switch)) ==
               s.(db := Apply(maxFileSize, d, Switch).(next := d.next + 1), logs := s.logs + [LogFile(d.next, [], 0)],
                  immPart := s.memPart, memPart := [])
  {
  }

  lemma SwitchTakes(maxFileSize: nat, s: Sys)
    requires SysInv(s) && CanStep(maxFileSize, s, Do(Switch))
    ensures SysInv(After(maxFileSize, s, Do(Switch)))
  {
    hide Inv, Logged, PartsOk, LogsOk, SyncedOk, ManifestOk, CanStep, After, Enabled, Apply;
    SwitchMakes(maxFileSize, s);
    var s', d' := After(maxFileSize, s, Do(Switch)), Apply(maxFileSize, s.db, Switch);
    StepKeepsInv(maxFileSize, s.db, Switch);
    InvAdvances(d');
    ManifestIsLogged(s);
    InsertIsQuiet(Switch);
    QuietLogged(maxFileSize, s.db, Switch, EditsIn(s.manifest));
    NumbersAdvance(d'.v, d'.next, Reserved(d'), EditsIn(s.manifest), s'.db.next, Reserved(s'.db));
    ManifestAdvances(s, s');
    SwitchParts(s, s');
    SwitchLogs(s, s');
  }

  /** A switched database, with its new log. */
  ghost predicate Switched(s: Sys, s': Sys) {
    && s.db.imm.None? && s.db.applied == s.db.last && s.pending == []
    && s' == s.(db := s.db.(imm := Some(s.db.mem), mem := [], next := s.db.next + 1),
                logs := s.logs + [LogFile(s.db.next, [], 0)], immPart := s.memPart, memPart := [])
  }

  lemma SwitchParts(s: Sys, s': Sys)
    requires PartsOk(s) && Inv(s.db) && Switched(s, s')
    ensures PartsOk(s')
  {
    hide EntriesFrom, FilesOk, PlacesOk, SnapshotsOk, InputsOk, BaseOk, SmallestOk, ReservedOk;
    assert s.immPart == [];
    Regroup(s.base, s.memPart, []);
    Regroup(s.base, [], s.memPart);
    assert forall e :: e in s.memPart ==> e in s.db.log;
    ElemsOfOne(Entry(IKey(0.0, 0, Deletion), ""));
  }

  lemma SwitchLogs(s: Sys, s': Sys)
    requires LogsOk(s) && SyncedOk(s) && PartsOk(s) && Switched(s, s')
    ensures LogsOk(s') && SyncedOk(s')
  {
    hide LastCounters, PartsOk, Cut;
    var n := |s.logs|;
    Regroup(s.memPart, [], []);
    assert Flat<Entry>([]) == [];
    assert s'.logs[n - 1] == s.logs[n - 1] && s'.logs[n] == LogFile(s.db.next, [], 0);
    assert n >= 2 ==> s'.logs[n - 2] == s.logs[n - 2];
  }

  // ------------------------------------------------------------------ steps that log an edit

  lemma CountersOf(manifest: seq<ManifestRecord>, r: ManifestRecord)
    ensures LastCounters(manifest + [r]) == if r.counters.Some? then r.counters.value else LastCounters(manifest)
    ensures EditsIn(manifest + [r]) == EditsIn(manifest) + [r.edit]
  {
    assert (manifest + [r])[..|manifest|] == manifest;
  }

  lemma EditTakes(maxFileSize: nat, s: Sys, a: Action)
    requires SysInv(s) && CanStep(maxFileSize, s, Do(a)) && LogsEdit(a)
    ensures SysInv(After(maxFileSize, s, Do(a)))
  {
    hide Inv, Logged, PartsOk, LogsOk, SyncedOk, EntriesFrom, Enabled, Apply, EditOf, NumbersBelow, LastCounters;
    var s', d' := After(maxFileSize, s, Do(a)), Apply(maxFileSize, s.db, a);
    StepKeepsInv(maxFileSize, s.db, a);
    StepKeepsLogged(maxFileSize, s.db, a, EditsIn(s.manifest));
    NumbersStayBelow(maxFileSize, s.db, a);
    EditsKeepLast(maxFileSize, s.db, a);
    EditParts(maxFileSize, s, a);
    EditLogs(maxFileSize, s, a);
    CountersOf(s.manifest, s'.manifest[|s.manifest|]);
    BaseIsVisible(s, s');
  }

  lemma BaseIsVisible(s: Sys, s': Sys)
    requires PartsOk(s) && (s'.base == s.base || s'.base == s.base + s.immPart)
    ensures forall e :: e in s'.base ==> e.ik.seqno <= s.db.last
  {
    hide EntriesFrom;
  }

  lemma EditEffects(maxFileSize: nat, d: Db, a: Action)
    requires Enabled(maxFileSize, d, a) && LogsEdit(a)
    ensures var d' := Apply(maxFileSize, d, a);
            && d'.mem == d.mem && d'.log == d.log && d'.applied == d.applied && d'.last == d.last && d.next <= d'.next
            && d'.imm == (if a.Flush? then None else d.imm)
            && (a.Flush? ==> d.imm.Some?)
  {
    hide ApplyEdit, FlushLevel, MoveEdit, CompactionEdit;
  }

  lemma EditParts(maxFileSize: nat, s: Sys, a: Action)
    requires SysInv(s) && CanStep(maxFileSize, s, Do(a)) && LogsEdit(a)
    ensures PartsOk(After(maxFileSize, s, Do(a)))
  {
    hide Inv, EntriesFrom, Enabled, Apply, EditOf, LogsOk, SyncedOk, ManifestOk, LastCounters;
    StepStores(maxFileSize, s.db, a);
    EditEffects(maxFileSize, s.db, a);
    if a.Flush? {
      ElemsJoin(s.base, s.immPart);
      Regroup(s.base, s.immPart, []);
      Regroup(s.base + s.immPart, [], s.memPart);
      assert Elems([]) == {};
    }
  }

  lemma EditLogs(maxFileSize: nat, s: Sys, a: Action)
    requires SysInv(s) && CanStep(maxFileSize, s, Do(a)) && LogsEdit(a)
    ensures var s' := After(maxFileSize, s, Do(a)); LogsOk(s') && SyncedOk(s')
  {
    hide Inv, EntriesFrom, Enabled, Apply, EditOf, PartsOk, ManifestOk, LastCounters;
    EditEffects(maxFileSize, s.db, a);
    var s' := After(maxFileSize, s, Do(a));
    CountersOf(s.manifest, s'.manifest[|s.manifest|]);
    if a.Flush? {
      var n := |s.logs|;
      FlatPrefix(s.logs[n - 2].records, s.logs[n - 2].synced);
      forall e | e in s.synced ensures e in s'.base || e in Cut(s.logs[n - 1], s.logs[n - 1].synced) {}
    }
  }

  // ------------------------------------------------------------------ deleting obsolete logs

  lemma {:induction false} KeptAre(logs: seq<LogFile>, logNumber: nat, n: nat)
    requires n <= |logs|
    requires forall i :: 0 <= i < |logs| ==> (logs[i].number >= logNumber <==> i >= n)
    ensures KeptLogs(logs, logNumber) == logs[n..]
  {
    if logs != [] {
      var m := |logs| - 1;
      if n <= m {
        KeptAre(logs[..m], logNumber, n);
        assert logs[n..] == logs[..m][n..] + [logs[m]];
      } else {
        KeptAre(logs[..m], logNumber, m);
      }
    }
  }

  /** Exactly the logs below the recorded log number go. */
  lemma {:induction false} KeptAreNeeded(logs: seq<LogFile>, logNumber: nat, f: LogFile)
    ensures f in KeptLogs(logs, logNumber) <==> f in logs && f.number >= logNumber
  {
    if logs != [] {
      var m := |logs| - 1;
      KeptAreNeeded(logs[..m], logNumber, f);
      assert logs == logs[..m] + [logs[m]];
    }
  }

  lemma DeleteKeeps(maxFileSize: nat, s: Sys)
    requires SysInv(s) && CanStep(maxFileSize, s, DeleteLogs)
    ensures SysInv(After(maxFileSize, s, DeleteLogs))
  {
    hide Inv, PartsOk, ManifestOk, LastCounters;
    var s' := After(maxFileSize, s, DeleteLogs);
    SameParts(s, s');
    SameManifest(s, s');
    var live := |s.logs| - if s.db.imm.Some? then 2 else 1;
    LiveLogs(s, live);
    KeptAre(s.logs, LastCounters(s.manifest).logNumber, live);
  }

  /** The logs replayed are those of the memtables. */
  lemma LiveLogs(s: Sys, live: nat)
    requires LogsOk(s) && live == |s.logs| - (if s.db.imm.Some? then 2 else 1)
    ensures live < |s.logs|
    ensures forall i :: 0 <= i < |s.logs| ==> (s.logs[i].number >= LastCounters(s.manifest).logNumber <==> i >= live)
  {
    hide LastCounters;
  }
}
