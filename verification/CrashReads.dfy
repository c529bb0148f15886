/** What a database reads after crashes: the writes that survived, among them every synced one. */
module CrashReads {
  import opened Keys
  import opened Versions
  import opened Selection
  import opened Picking
  import opened CompactionRun
  import opened Lsm
  import opened LsmSteps
  import opened LsmCompaction
  import opened LsmInstall
  import opened LsmRuns
  import opened LsmManifest
  import opened Crashes
  import opened CrashTables
  import opened CrashSteps
  import opened CrashRecovery
  import opened WriteBatches

  // ------------------------------------------------------------------ newer writes on top

  lemma {:induction false} ReplayIgnores(log: seq<Entry>, es: seq<Entry>, user: UserKey, s: nat)
    requires forall e :: e in es && e.ik.user == user ==> e.ik.seqno > s
    ensures Lookup(Replay(log + es, s), user) == Lookup(Replay(log, s), user)
  {
    hide Replay, Lookup;
    if es == [] {
      assert log + es == log;
    } else {
      var n := |es| - 1;
      ReplayIgnores(log, es[..n], user, s);
      ReplayAppends(log + es[..n], es[n], user, s);
      assert log + es == log + es[..n] + [es[n]];
    }
  }

  lemma VisibleOnTop(stored: set<Entry>, log: seq<Entry>, es: seq<Entry>, user: UserKey, s: nat, found: Option<Entry>)
    requires Chronological(log + es) && stored <= Elems(log) && Finds(stored + Elems(es), user, s, found)
    requires exists e :: e in es && e.ik.user == user && e.ik.seqno <= s
    ensures Finds(Elems(log + es), user, s, found)
  {
    ChronologicalParts(log, es);
    ElemsJoin(log, es);
    hide Chronological;
    var e :| e in es && e.ik.user == user && e.ik.seqno <= s;
    assert e in Elems(es);
    assert found.Some? && found.value.ik.seqno >= e.ik.seqno;
    assert found.value in Elems(es);
  }

  lemma NothingOnTop(stored: set<Entry>, es: seq<Entry>, user: UserKey, s: nat, found: Option<Entry>)
    requires Finds(stored + Elems(es), user, s, found) && forall e :: e in es && e.ik.user == user ==> e.ik.seqno > s
    ensures Finds(stored, user, s, found)
  {
  }

  /** Storing newer writes, anywhere, keeps reads exact. */
  lemma NewerOnTop(d: Db, d': Db, es: seq<Entry>)
    requires Inv(d) && Inv(d') && ReadsOk(d) && d.floor <= d'.floor
    requires d'.log == d.log + es && All(d') == All(d) + Elems(es)
    ensures ReadsOk(d')
  {
    StoredIsLogged(d);
    LogAscends(d');
    forall user, s: nat | s >= d'.floor ensures Answer(Get(d', user, s)) == Lookup(Replay(d'.log, s), user) {
      ReadOnTop(d, d', es, user, s);
    }
  }

  lemma LogAscends(d: Db)
    requires Inv(d)
    ensures Chronological(d.log)
  {
  }

  lemma ReadOnTop(d: Db, d': Db, es: seq<Entry>, user: UserKey, s: nat)
    requires Inv(d) && Inv(d') && ReadsOk(d) && d.floor <= s && Chronological(d'.log)
    requires d'.log == d.log + es && All(d') == All(d) + Elems(es) && All(d) <= Elems(d.log) && UniqueSeqnos(All(d))
    ensures Answer(Get(d', user, s)) == Lookup(Replay(d'.log, s), user)
  {
    hide Inv, All, Get, Replay, Lookup, Chronological, Finds, UniqueSeqnos;
    GetFindsInv(d, user, s);
    GetFindsInv(d', user, s);
    if e :| e in es && e.ik.user == user && e.ik.seqno <= s {
      VisibleOnTop(All(d), d.log, es, user, s, Get(d', user, s));
      SearchIsReplay(d'.log, user, s, Get(d', user, s));
    } else {
      NothingOnTop(All(d), es, user, s, Get(d', user, s));
      FindsIsUnique(All(d), user, s, Get(d, user, s), Get(d', user, s));
      ReplayIgnores(d.log, es, user, s);
      assert Answer(Get(d, user, s)) == Lookup(Replay(d.log, s), user);
    }
  }

  /** Reads depend only on what is stored, on the history and on the floor. */
  lemma SameReadsOk(d: Db, d': Db)
    requires ReadsOk(d) && d'.mem == d.mem && d'.imm == d.imm && d'.v == d.v && d'.log == d.log && d.floor <= d'.floor
    ensures ReadsOk(d')
  {
    hide Replay, GetFrom, RunGet;
    forall user, s: nat | s >= d'.floor ensures Answer(Get(d', user, s)) == Lookup(Replay(d'.log, s), user) {
      assert Get(d', user, s) == Get(d, user, s);
    }
  }

  // ------------------------------------------------------------------ the durable part

  lemma DurableInv(s: Sys)
    requires SysInv(s)
    ensures Inv(Durable(s))
  {
    BaseBounds(s);
    SysInvHas(s);
    HistoryAscends(s);
    hide SysInv, Inv, PartsOk, EntriesFrom, Elems, Chronological, LastSeqno;
    Regroup(s.base, s.immPart, s.memPart + s.pending);
    ChronologicalParts(s.base, s.immPart + (s.memPart + s.pending));
    DurableLog(s);
    DurablePlaces(s.db.v, s.base);
    DurableSnapshots(s);
    DurableFiles(s);
    InvFrom(Durable(s));
  }

  lemma SysInvHas(s: Sys)
    requires SysInv(s)
    ensures Inv(s.db) && PartsOk(s) && LogsOk(s) && SyncedOk(s) && ManifestOk(s)
  {
  }

  lemma DurableFiles(s: Sys)
    requires Inv(s.db)
    ensures var d := Durable(s);
            && FilesOk(d.v, d.next)
            && (d.running.Some? ==>
               var c := d.running.value; InputsOk(c, d.v) && BaseOk(c, d.v) && ReservedOk(c.reserved, d.v, d.next))
  {
    hide FilesOk, PlacesOk, LogOk, SnapshotsOk, SmallestOk, LeavesNewer, GapFree, Listed, Apart, ClearOf, ReservedOk;
  }

  lemma InvFrom(d: Db)
    requires LogOk(d.log, d.applied, d.last) && PlacesOk(d.mem, ImmRun(d), d.v, d.log) && FilesOk(d.v, d.next)
    requires SnapshotsOk(d.floor, d.last, d.snapshots)
    requires d.running.Some? ==>
               var c := d.running.value;
               InputsOk(c, d.v) && BaseOk(c, d.v) && SmallestOk(c, d.floor, d.last, d.snapshots) &&
                 ReservedOk(c.reserved, d.v, d.next)
    ensures Inv(d)
  {
    hide FilesOk, PlacesOk, LogOk, SnapshotsOk, SmallestOk, InputsOk, BaseOk, ReservedOk;
  }

  lemma DurableLog(s: Sys)
    requires Chronological(s.base) && (forall e :: e in History(s) ==> e.ik.seqno < MAX_SEQUENCE - 1)
    ensures LogOk(s.base, LastSeqno(s.base), LastSeqno(s.base))
  {
    LastIsGreatest(s.base);
    hide Chronological;
    if s.base != [] { assert s.base[|s.base| - 1] in History(s); }
  }

  lemma DurablePlaces(v: seq<seq<File>>, base: seq<Entry>)
    requires EntriesFrom(v, 0) <= Elems(base)
    ensures PlacesOk([], [], v, base)
  {
    hide EntriesFrom;
    EmptySorts();
  }

  lemma DurableSnapshots(s: Sys)
    requires Inv(s.db)
    ensures var d := Durable(s);
            && SnapshotsOk(d.floor, d.last, d.snapshots)
            && (d.running.Some? ==> SmallestOk(d.running.value, d.floor, d.last, d.snapshots))
  {
    hide FilesOk, PlacesOk, LogOk, InputsOk, BaseOk, ReservedOk;
  }

  lemma DurableAll(s: Sys)
    ensures All(Durable(s)) == EntriesFrom(s.db.v, 0)
  {
    hide EntriesFrom;
    EmptySorts();
  }

  /** A smaller bound on the snapshots changes nothing when all entries are below both. */
  lemma {:induction false} KeptBelow(v: seq<seq<File>>, level: nat, smallest: nat, bound: nat, m: Run, n: nat)
    requires n <= |m| && smallest < MAX_SEQUENCE && forall e :: e in m ==> e.ik.seqno <= bound
    ensures CompactionRun.Kept(v, level, Min(smallest, bound), m, n) == CompactionRun.Kept(v, level, smallest, m, n)
  {
    if n > 0 {
      KeptBelow(v, level, smallest, bound, m, n - 1);
      hide IsBase;
      assert m[n - 1] in m;
      assert n > 1 ==> m[n - 2] in m;
      assert Dropped(v, level, Min(smallest, bound), m, n - 1) <==> Dropped(v, level, smallest, m, n - 1);
    }
  }

  lemma InputsAreBelow(s: Sys)
    requires SysInv(s) && s.db.running.Some?
    ensures forall e :: e in MergedInputs(s.db.running.value) ==> e.ik.seqno <= LastSeqno(s.base)
    ensures s.db.running.value.smallest < MAX_SEQUENCE && InputsOk(s.db.running.value, s.db.v)
  {
    var c := s.db.running.value;
    BaseBounds(s);
    HistoryAscends(s);
    Regroup(s.base, s.immPart, s.memPart + s.pending);
    ChronologicalParts(s.base, s.immPart + (s.memPart + s.pending));
    LastIsGreatest(s.base);
    assert c.smallest < MAX_SEQUENCE && InputsOk(c, s.db.v);
    hide SysInv, InputsOk, MergedInputs, EntriesFrom, Chronological;
    StoredBefore(s.db.v, c);
    forall e | e in MergedInputs(c) ensures e.ik.seqno <= LastSeqno(s.base) {
      MergedHolds(c, e);
      assert e in EntriesFrom(s.db.v, 0) && e in Elems(s.base);
    }
  }

  /** Installing a compaction does to the durable part what it does to the database. */
  lemma DurableInstalls(maxFileSize: nat, s: Sys, outputs: seq<File>)
    requires SysInv(s) && CanStep(maxFileSize, s, Do(Install(outputs)))
    ensures Enabled(maxFileSize, Durable(s), Install(outputs))
    ensures Apply(maxFileSize, Durable(s), Install(outputs)) == Durable(After(maxFileSize, s, Do(Install(outputs))))
  {
    InstallTaken(maxFileSize, s, outputs);
    DurableInstallEnabled(maxFileSize, s, outputs);
    hide SysInv, CanStep, After, LastSeqno, Enabled, Apply, ApplyEdit, CompactionEdit;
    InstallMakes(maxFileSize, s.db, outputs);
    InstallMakes(maxFileSize, Durable(s), outputs);
    SameEdit(s.db.running.value, Durable(s).running.value, outputs);
  }

  lemma SameEdit(c: Compaction, c': Compaction, outputs: seq<File>)
    requires c' == c.(smallest := c'.smallest)
    ensures CompactionEdit(c', outputs) == CompactionEdit(c, outputs)
  {
  }

  lemma DurableInstallEnabled(maxFileSize: nat, s: Sys, outputs: seq<File>)
    requires SysInv(s) && Enabled(maxFileSize, s.db, Install(outputs)) && s.db.running.Some?
    ensures Enabled(maxFileSize, Durable(s), Install(outputs))
  {
    InputsAreBelow(s);
    hide SysInv, InputsOk, LastSeqno, Enabled, MergedInputs;
    var d, c := Durable(s), s.db.running.value;
    KeptBelow(c.base, c.level, c.smallest, LastSeqno(s.base), MergedInputs(c), |MergedInputs(c)|);
    SameMerge(c, d.running.value);
    SameInstall(maxFileSize, s.db, d, outputs);
  }

  lemma SameInstall(maxFileSize: nat, d: Db, d': Db, outputs: seq<File>)
    requires Enabled(maxFileSize, d, Install(outputs)) && d.running.Some? && d'.running.Some? && d'.v == d.v
    requires var c, c' := d.running.value, d'.running.value;
      && c' == c.(smallest := c'.smallest) && MergedInputs(c') == MergedInputs(c)
      && (IsTrivialMove(maxFileSize, c') <==> IsTrivialMove(maxFileSize, c))
      && CompactionRun.Kept(c.base, c.level, c'.smallest, MergedInputs(c), |MergedInputs(c)|) ==
         CompactionRun.Kept(c.base, c.level, c.smallest, MergedInputs(c), |MergedInputs(c)|)
    ensures Enabled(maxFileSize, d', Install(outputs))
  {
    hide AllFilesOk, Disjoint, DistinctNumbers, CompactionRun.Kept, Contents, IsTrivialMove, MergedInputs;
  }

  lemma SameMerge(c: Compaction, c': Compaction)
    requires c' == c.(smallest := c'.smallest)
    ensures MergedInputs(c') == MergedInputs(c)
    ensures forall maxFileSize: nat :: IsTrivialMove(maxFileSize, c') <==> IsTrivialMove(maxFileSize, c)
  {
    assert InputRuns(c') == InputRuns(c);
    assert |c.base| == NUM_LEVELS && c.inputs0 != [] ==> Grandparents(c') == Grandparents(c);
  }

  lemma InstallTaken(maxFileSize: nat, s: Sys, outputs: seq<File>)
    requires CanStep(maxFileSize, s, Do(Install(outputs)))
    ensures Enabled(maxFileSize, s.db, Install(outputs)) && s.db.running.Some?
    ensures var s' := After(maxFileSize, s, Do(Install(outputs)));
            s'.base == s.base && s'.db == Apply(maxFileSize, s.db, Install(outputs))
  {
    hide Enabled, Apply, EditOf;
    EnabledRuns(maxFileSize, s.db, outputs);
  }

  lemma EnabledRuns(maxFileSize: nat, d: Db, outputs: seq<File>)
    requires Enabled(maxFileSize, d, Install(outputs))
    ensures d.running.Some?
  {
  }

  // ------------------------------------------------------------------ steps and the durable part

  /** An install that uncovers an old value in the tables, whatever the memtables hold above it. */
  ghost predicate DurablyResurrects(s: Sys, step: Step) {
    step.Do? && Resurrects(Durable(s), step.a)
  }

  lemma InstallKeepsDurableReadsIff(maxFileSize: nat, s: Sys, outputs: seq<File>)
    requires SysInv(s) && CanStep(maxFileSize, s, Do(Install(outputs))) && ReadsOk(Durable(s))
    ensures ReadsOk(Durable(After(maxFileSize, s, Do(Install(outputs))))) <==>
            !DurablyResurrects(s, Do(Install(outputs)))
  {
    hide SysInv, CanStep, After, Durable, ReadsOk, Resurrects, Enabled, Apply, Inv;
    DurableInv(s);
    DurableInstalls(maxFileSize, s, outputs);
    StepKeepsReadsIff(maxFileSize, Durable(s), Install(outputs));
  }

  lemma MoveTaken(maxFileSize: nat, s: Sys)
    requires CanStep(maxFileSize, s, Do(Move))
    ensures Enabled(maxFileSize, s.db, Move)
    ensures var s' := After(maxFileSize, s, Do(Move)); s'.base == s.base && s'.db == Apply(maxFileSize, s.db, Move)
    ensures Apply(maxFileSize, s.db, Move).floor == s.db.floor
  {
    hide EditOf, ApplyEdit, MoveEdit, IsTrivialMove;
  }

  lemma MoveKeepsDurableReads(maxFileSize: nat, s: Sys)
    requires SysInv(s) && CanStep(maxFileSize, s, Do(Move)) && ReadsOk(Durable(s))
    ensures ReadsOk(Durable(After(maxFileSize, s, Do(Move))))
  {
    hide SysInv, CanStep, After, ReadsOk, Enabled, Apply, Inv, EntriesFrom, LastSeqno, Elems, PartsOk;
    var s' := After(maxFileSize, s, Do(Move));
    MoveTaken(maxFileSize, s);
    SysInvHas(s);
    MoveStores(maxFileSize, s.db);
    DurableInv(s);
    StepKeepsSysInv(maxFileSize, s, Do(Move));
    DurableInv(s');
    DurableAll(s);
    DurableAll(s');
    SameEntriesSameReads(Durable(s), Durable(s'));
  }

  lemma FlushTaken(maxFileSize: nat, s: Sys, size: nat)
    requires CanStep(maxFileSize, s, Do(Flush(size)))
    ensures Enabled(maxFileSize, s.db, Flush(size))
    ensures var s' := After(maxFileSize, s, Do(Flush(size)));
            s'.base == s.base + s.immPart && s'.db == Apply(maxFileSize, s.db, Flush(size))
    ensures Apply(maxFileSize, s.db, Flush(size)).floor == s.db.floor
  {
    hide EditOf, ApplyEdit, FlushLevel;
  }

  lemma LastGrows(a: seq<Entry>, b: seq<Entry>)
    requires Chronological(a + b)
    ensures LastSeqno(a) <= LastSeqno(a + b)
  {
    var h, n := a + b, |a| - 1;
    if b == [] {
      assert h == a;
    } else if a != [] {
      assert h[n] == a[n] && n < |h| - 1 && h[n].ik.seqno < h[|h| - 1].ik.seqno;
    }
  }

  /** The parts of a history in order. */
  lemma PartsAscend(s: Sys)
    requires SysInv(s)
    ensures Chronological(s.base + s.immPart)
  {
    SysInvHas(s);
    HistoryAscends(s);
    hide SysInv, Inv, PartsOk, Chronological;
    ChronologicalParts(s.base + s.immPart, s.memPart + s.pending);
  }

  lemma FlushKeepsDurableReads(maxFileSize: nat, s: Sys, size: nat)
    requires SysInv(s) && CanStep(maxFileSize, s, Do(Flush(size))) && ReadsOk(Durable(s))
    ensures ReadsOk(Durable(After(maxFileSize, s, Do(Flush(size)))))
  {
    hide SysInv, CanStep, After, ReadsOk, Enabled, Apply, Inv, EntriesFrom, LastSeqno, Elems, PartsOk, Chronological;
    var s' := After(maxFileSize, s, Do(Flush(size)));
    FlushTaken(maxFileSize, s, size);
    SysInvHas(s);
    FlushStores(maxFileSize, s.db, size);
    DurableInv(s);
    StepKeepsSysInv(maxFileSize, s, Do(Flush(size)));
    DurableInv(s');
    DurableAll(s);
    DurableAll(s');
    PartsAscend(s);
    LastGrows(s.base, s.immPart);
    ImmIs(s);
    NewerOnTop(Durable(s), Durable(s'), s.immPart);
  }

  lemma ImmIs(s: Sys)
    requires PartsOk(s)
    ensures Elems(ImmRun(s.db)) == Elems(s.immPart)
  {
    hide EntriesFrom;
  }

  /** Steps that leave tables, their history and the floor alone. */
  lemma OtherTaken(maxFileSize: nat, s: Sys, step: Step)
    requires CanStep(maxFileSize, s, step) && !step.Crash? && (step.Do? ==> !LogsEdit(step.a))
    ensures var s' := After(maxFileSize, s, step); s'.base == s.base && s'.db.v == s.db.v && s'.db.floor == s.db.floor
  {
    hide Pick, MemInsert, Numbered;
  }

  lemma OtherKeepsDurableReads(maxFileSize: nat, s: Sys, step: Step)
    requires CanStep(maxFileSize, s, step) && !step.Crash? && (step.Do? ==> !LogsEdit(step.a)) && ReadsOk(Durable(s))
    ensures ReadsOk(Durable(After(maxFileSize, s, step)))
  {
    hide CanStep, After, ReadsOk, LogsEdit;
    OtherTaken(maxFileSize, s, step);
    SameReadsOk(Durable(s), Durable(After(maxFileSize, s, step)));
  }

  /** After a crash, reads agree with replaying the writes that survived. */
  lemma CrashReadsSurvivors(maxFileSize: nat, s: Sys, step: Step)
    requires SysInv(s) && CanStep(maxFileSize, s, step) && step.Crash? && ReadsOk(Durable(s))
    ensures var s' := After(maxFileSize, s, step);
            && s'.db.log == s'.base == s.base + Survivors(s.logs, step.cuts, LastCounters(s.manifest).logNumber)
            && ReadsOk(s'.db) && ReadsOk(Durable(s'))
  {
    CrashTaken(maxFileSize, s, step);
    hide SysInv, CanStep, After, ReadsOk, EntriesFrom, Durable, Survivors, LastCounters, CutsOk, SurvivorsOk;
    var s', survivors := After(maxFileSize, s, step), Flat(step.chunks);
    StepKeepsSysInv(maxFileSize, s, step);
    ReopenedReads(s, s', survivors);
    ReopenedDurable(s, s', survivors);
  }

  lemma ReopenedReads(s: Sys, s': Sys, survivors: seq<Entry>)
    requires SysInv(s) && SysInv(s') && ReadsOk(Durable(s))
    requires s'.db.mem == [] && s'.db.imm.None? && s'.db.floor == Durable(s).floor && s'.db.log == s.base + survivors
    requires EntriesFrom(s'.db.v, 0) == EntriesFrom(s.db.v, 0) + Elems(survivors)
    ensures ReadsOk(s'.db)
  {
    SysInvHas(s');
    hide SysInv, ReadsOk, EntriesFrom, Inv, LastSeqno, Elems;
    DurableInv(s);
    DurableAll(s);
    AllOfTables(s'.db);
    NewerOnTop(Durable(s), s'.db, survivors);
  }

  lemma ReopenedDurable(s: Sys, s': Sys, survivors: seq<Entry>)
    requires s'.db.mem == [] && s'.db.imm.None? && s'.db.floor == Durable(s).floor &&
             s'.base == s'.db.log == s.base + survivors
    requires SurvivorsOk(s, survivors) && ReadsOk(s'.db)
    ensures ReadsOk(Durable(s'))
  {
    hide ReadsOk;
    SurvivorsAscend(s, survivors);
    LastGrows(s.base, survivors);
    hide SurvivorsOk, LastSeqno, Chronological;
    SameReadsOk(s'.db, Durable(s'));
  }

  lemma SurvivorsAscend(s: Sys, survivors: seq<Entry>)
    requires SurvivorsOk(s, survivors)
    ensures Chronological(s.base + survivors)
  {
  }

  lemma AllOfTables(d: Db)
    requires d.mem == [] && d.imm.None?
    ensures All(d) == EntriesFrom(d.v, 0)
  {
    hide EntriesFrom;
    EmptySorts();
  }

  lemma CrashTaken(maxFileSize: nat, s: Sys, step: Step)
    requires SysInv(s) && CanStep(maxFileSize, s, step) && step.Crash?
    ensures CutsOk(s.logs, step.cuts) && SurvivorsOk(s, Flat(step.chunks))
    ensures var s', survivors := After(maxFileSize, s, step), Flat(step.chunks);
            && survivors == Survivors(s.logs, step.cuts, LastCounters(s.manifest).logNumber)
            && s'.db.log == s'.base == s.base + survivors
            && s'.db.mem == [] && s'.db.imm.None? && s'.db.floor == Durable(s).floor
            && EntriesFrom(s'.db.v, 0) == EntriesFrom(s.db.v, 0) + Elems(survivors)
  {
    hide SysInv, Survivors, EntriesFrom, LastCounters, ApplyEdit, Tables, Replayed, SnapshotEdit, FilesOk, SurvivorsOk;
    assert Crashable(s, step.cuts, step.chunks, step.sizes, step.numbers, step.newLog);
    RecoveredVersion(s, step.cuts, step.chunks, step.sizes, step.numbers, step.newLog);
  }

  /** Reads from the tables stay exact through every step, crashes included, but an install that
      uncovers an old value in them. */
  lemma StepKeepsDurableReadsIff(maxFileSize: nat, s: Sys, step: Step)
    requires SysInv(s) && CanStep(maxFileSize, s, step) && ReadsOk(Durable(s))
    ensures ReadsOk(Durable(After(maxFileSize, s, step))) <==> !DurablyResurrects(s, step)
  {
    OnlyInstallsResurrect(s, step);
    hide SysInv, CanStep, After, ReadsOk, DurablyResurrects, Durable;
    if step.Crash? {
      CrashReadsSurvivors(maxFileSize, s, step);
    } else if step.Do? && step.a.Install? {
      InstallKeepsDurableReadsIff(maxFileSize, s, step.a.outputs);
    } else if step.Do? && step.a.Move? {
      MoveKeepsDurableReads(maxFileSize, s);
    } else if step.Do? && step.a.Flush? {
      FlushKeepsDurableReads(maxFileSize, s, step.a.size);
    } else {
      OtherKeepsDurableReads(maxFileSize, s, step);
    }
  }

  lemma OnlyInstallsResurrect(s: Sys, step: Step)
    ensures DurablyResurrects(s, step) ==> step.Do? && step.a.Install?
  {
  }
}
