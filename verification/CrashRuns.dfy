/** Whole runs with crashes in them. */
module CrashRuns {
  import opened Keys
  import opened Versions
  import opened Building
  import opened WriteBatches
  import opened Lsm
  import opened CompactionReads
  import opened LsmRuns
  import opened LsmManifest
  import opened Crashes
  import opened CrashTables
  import opened CrashSteps
  import opened CrashRecovery
  import opened CrashReads

  // ------------------------------------------------------------------ one step

  /** An install whose next-level inputs end at a user-key boundary. */
  ghost predicate Guarded(s: Sys, step: Step) {
    step.Do? && step.a.Install? && s.db.running.Some? ==>
      var c := s.db.running.value;
      c.level + 1 < |c.base| && |c.base| == |s.db.v| && NextLevelClosed(c)
  }

  lemma GuardedIsSafe(s: Sys, step: Step)
    requires SysInv(s) && Guarded(s, step)
    ensures !DurablyResurrects(s, step)
    ensures step.Do? ==> !Resurrects(s.db, step.a)
  {
    hide Inv, SysInv, Uncovers, NextLevelClosed;
    SysInvHas(s);
    DurableInv(s);
    if step.Do? && step.a.Install? && s.db.running.Some? {
      var d, c := Durable(s), s.db.running.value;
      SameClosed(c, d.running.value);
      forall user ensures !Uncovers(s.db, c, user) && !Uncovers(d, d.running.value, user) {
        ClosedNextLevelIsSafe(s.db, user);
        ClosedNextLevelIsSafe(d, user);
      }
    }
  }

  lemma SameClosed(c: Compaction, c': Compaction)
    requires c' == c.(smallest := c'.smallest) && c.level + 1 < |c.base| && NextLevelClosed(c)
    ensures NextLevelClosed(c')
  {
  }

  lemma DoTakes(maxFileSize: nat, s: Sys, a: Action)
    requires CanStep(maxFileSize, s, Do(a))
    ensures Enabled(maxFileSize, s.db, a)
    ensures var d := Apply(maxFileSize, s.db, a);
            After(maxFileSize, s, Do(a)).db == if a.Switch? then d.(next := d.next + 1) else d
  {
    hide Enabled, Apply, EditOf;
  }

  lemma LogStepTakes(maxFileSize: nat, s: Sys, step: Step)
    requires CanStep(maxFileSize, s, step) && !step.Do? && !step.Crash?
    ensures After(maxFileSize, s, step).db == s.db
  {
  }

  lemma StepKeepsReads(maxFileSize: nat, s: Sys, step: Step)
    requires SysInv(s) && CanStep(maxFileSize, s, step) && Guarded(s, step) && ReadsOk(s.db) && ReadsOk(Durable(s))
    ensures ReadsOk(After(maxFileSize, s, step).db) && ReadsOk(Durable(After(maxFileSize, s, step)))
  {
    hide SysInv, CanStep, After, ReadsOk, Durable, Inv, Enabled, Apply, Guarded, Resurrects, DurablyResurrects;
    GuardedIsSafe(s, step);
    StepKeepsDurableReadsIff(maxFileSize, s, step);
    if step.Crash? {
      CrashReadsSurvivors(maxFileSize, s, step);
    } else if step.Do? {
      SysInvHas(s);
      DoTakes(maxFileSize, s, step.a);
      StepKeepsReadsIff(maxFileSize, s.db, step.a);
      SameReadsOk(Apply(maxFileSize, s.db, step.a), After(maxFileSize, s, step).db);
    } else {
      LogStepTakes(maxFileSize, s, step);
    }
  }

  // ------------------------------------------------------------------ runs

  ghost predicate IsSysRun(maxFileSize: nat, states: seq<Sys>, steps: seq<Step>) {
    && |states| == |steps| + 1 && states[0] == SysInitial()
    && forall i :: 0 <= i < |steps| ==>
         CanStep(maxFileSize, states[i], steps[i]) && states[i + 1] == After(maxFileSize, states[i], steps[i])
  }

  lemma SysInitialOk()
    ensures SysInv(SysInitial()) && ReadsOk(SysInitial().db) && ReadsOk(Durable(SysInitial()))
  {
    InitialIsOk();
    var s := SysInitial();
    hide ReadsOk;
    InitialDb();
    InitialParts();
    InitialManifest();
    hide Inv, PartsOk, ManifestOk;
    assert LogsOk(s) && SyncedOk(s) by {
      NewCounters(Edit({}, []), Edit({}, []), Counters(3, 4, 0));
      hide LastCounters;
      assert Flat<Entry>([]) == [] && s.memPart + s.pending == [];
    }
    hide LogsOk, SyncedOk;
    SysInvFrom(s);
    SameReadsOk(Initial(), s.db);
    SameReadsOk(Initial(), Durable(s));
  }

  lemma InitialDb()
    ensures Inv(SysInitial().db)
  {
    InitialIsOk();
    hide Inv;
    InvAdvances(Initial());
    InvAdvances(Initial().(next := 3));
  }

  lemma InitialParts()
    ensures PartsOk(SysInitial())
  {
    NothingStored(Initial().v, 0);
    hide EntriesFrom;
    EmptySorts();
  }

  lemma InitialManifest()
    ensures ManifestOk(SysInitial())
  {
    var s, v := SysInitial(), Initial().v;
    NewCounters(Edit({}, []), Edit({}, []), Counters(3, 4, 0));
    InitialIsLogged();
    assert LevelsInOrder(v);
    hide Logged, LastCounters, EditsIn;
    EmptyIsLogged(v, 2, {}, [Edit({}, [])]);
    assert [Edit({}, [])] + [Edit({}, [])] == [Edit({}, []), Edit({}, [])];
    NumbersAdvance(v, 3, {}, [Edit({}, []), Edit({}, [])], 4, {});
  }

  lemma NthSysStep(maxFileSize: nat, states: seq<Sys>, steps: seq<Step>, i: nat)
    requires IsSysRun(maxFileSize, states, steps) && i < |steps|
    ensures |states| == |steps| + 1
    ensures CanStep(maxFileSize, states[i], steps[i]) && states[i + 1] == After(maxFileSize, states[i], steps[i])
  {
    hide CanStep, After;
  }

  /** In every state of every run, however often it crashed, memory and disk fit together. */
  lemma {:induction false} SysRunsKeepInv(maxFileSize: nat, states: seq<Sys>, steps: seq<Step>, n: nat)
    requires IsSysRun(maxFileSize, states, steps) && n < |states|
    ensures SysInv(states[n])
  {
    hide SysInv, CanStep, After;
    if n == 0 {
      SysInitialOk();
    } else {
      SysRunsKeepInv(maxFileSize, states, steps, n - 1);
      NthSysStep(maxFileSize, states, steps, n - 1);
      hide IsSysRun;
      StepKeepsSysInv(maxFileSize, states[n - 1], steps[n - 1]);
    }
  }

  ghost predicate AllGuarded(states: seq<Sys>, steps: seq<Step>, n: nat)
    requires n <= |steps| <= |states|
  {
    forall i :: 0 <= i < n ==> Guarded(states[i], steps[i])
  }

  lemma {:induction false} SysRunsKeepReads(maxFileSize: nat, states: seq<Sys>, steps: seq<Step>, n: nat)
    requires IsSysRun(maxFileSize, states, steps) && n <= |steps| && AllGuarded(states, steps, n)
    ensures ReadsOk(states[n].db) && ReadsOk(Durable(states[n]))
  {
    if n == 0 {
      SysInitialOk();
    } else {
      NthSysStep(maxFileSize, states, steps, n - 1);
      SysRunsKeepInv(maxFileSize, states, steps, n - 1);
      SysRunsKeepReads(maxFileSize, states, steps, n - 1);
      assert Guarded(states[n - 1], steps[n - 1]);
      hide IsSysRun, SysInv, CanStep, After, ReadsOk, Durable, Guarded;
      StepKeepsReads(maxFileSize, states[n - 1], steps[n - 1]);
    }
  }

  /** What a client sees, however often the database crashed before: a read at the last sequence number or
      at a live snapshot returns what replaying the surviving writes gives. */
  lemma ClientReadsSurviveCrashes(maxFileSize: nat, states: seq<Sys>, steps: seq<Step>, n: nat, user: UserKey, at: nat)
    requires IsSysRun(maxFileSize, states, steps) && n <= |steps| && AllGuarded(states, steps, n)
    requires Readable(states[n].db, at)
    ensures Answer(Get(states[n].db, user, at)) == Lookup(Replay(states[n].db.log, at), user)
  {
    SysRunsKeepReads(maxFileSize, states, steps, n);
    SysRunsKeepInv(maxFileSize, states, steps, n);
    var d := states[n].db;
    SysInvHas(states[n]);
    AboveFloor(d, at);
    hide Inv, SysInv, IsSysRun, Get, Replay, AllGuarded, Durable;
  }

  lemma AboveFloor(d: Db, at: nat)
    requires Inv(d) && Readable(d, at)
    ensures d.floor <= at
  {
    hide FilesOk, PlacesOk, LogOk, InputsOk, BaseOk, ReservedOk, SmallestOk;
  }

  // ------------------------------------------------------------------ what is lost, and what is not

  lemma SyncedGrows(maxFileSize: nat, s: Sys, step: Step)
    requires CanStep(maxFileSize, s, step)
    ensures s.synced <= After(maxFileSize, s, step).synced
    ensures step.SyncLog? ==> Elems(s.memPart + s.pending) <= After(maxFileSize, s, step).synced
  {
    hide Enabled, Apply, EditOf, Numbered, Survivors, Replayed, ApplyEdit;
  }

  /** What is recovered is a prefix of what was written if and only if the log of the immutable memtable
      survived whole, or nothing of the current log survived: switching memtables does not sync the old log. */
  lemma RecoveredIsPrefixIff(s: Sys, cuts: seq<nat>)
    requires SysInv(s) && CutsOk(s.logs, cuts)
    ensures LogsOk(s)
    ensures s.base + Survivors(s.logs, cuts, LastCounters(s.manifest).logNumber) <= History(s)
            <==> ImmSurvivors(s, cuts) == s.immPart || MemSurvivors(s, cuts) == []
  {
    SysInvHas(s);
    HistoryAscends(s);
    SurvivorsAre(s, cuts);
    SurvivorsArePrefixes(s, cuts);
    hide SysInv, Inv, PartsOk, LogsOk, Survivors, ImmSurvivors, MemSurvivors, LastCounters;
    PrefixIff(s.base, s.immPart, s.memPart + s.pending, ImmSurvivors(s, cuts), MemSurvivors(s, cuts));
  }

  lemma PrefixIff(base: seq<Entry>, imm: seq<Entry>, mem: seq<Entry>, a: seq<Entry>, b: seq<Entry>)
    requires Chronological(base + imm + mem) && a <= imm && b <= mem
    ensures base + (a + b) <= base + imm + mem <==> a == imm || b == []
  {
    var h, r := base + imm + mem, base + (a + b);
    if a == imm {
      assert r == base + imm + b && r == h[..|r|];
    } else if b == [] {
      assert r == base + a && r == h[..|r|];
    } else {
      var i, j := |base| + |a|, |base| + |imm|;
      assert r[i] == b[0] == mem[0] == h[j] && i < j;
      assert h[i].ik.seqno < h[j].ik.seqno;
      assert r[i] != h[i];
    }
  }

  /** Whatever crash comes, what is recovered is a prefix of what was written. */
  ghost predicate PrefixInEveryCrash(s: Sys) {
    forall cuts: seq<nat> | CutsOk(s.logs, cuts) ::
      s.base + Survivors(s.logs, cuts, LastCounters(s.manifest).logNumber) <= History(s)
  }

  /** Before the crash: every crash recovers a prefix if and only if there is no immutable memtable, or all of
      its log is synced, or nothing was written to the current log yet. */
  lemma EveryCrashKeepsPrefixIff(s: Sys)
    requires SysInv(s)
    ensures LogsOk(s)
    ensures PrefixInEveryCrash(s) <==> s.db.imm.None? || OldLogSynced(s) || s.memPart + s.pending == []
  {
    SysInvHas(s);
    hide SysInv, Inv, PartsOk, LogsOk, SyncedOk, ManifestOk, Survivors, ImmSurvivors, MemSurvivors, LastCounters,
         CutsOk;
    if s.db.imm.None? || OldLogSynced(s) || s.memPart + s.pending == [] {
      forall cuts: seq<nat> | CutsOk(s.logs, cuts)
        ensures s.base + Survivors(s.logs, cuts, LastCounters(s.manifest).logNumber) <= History(s)
      {
        RecoveredIsPrefixIff(s, cuts);
        SurvivorsArePrefixes(s, cuts);
        SyncedPartSurvives(s, cuts);
      }
    } else {
      WorstCuts(s);
      RecoveredIsPrefixIff(s, Worst(s.logs));
    }
  }

  /** All of the immutable memtable's log is synced. */
  ghost predicate OldLogSynced(s: Sys)
    requires LogsOk(s)
  {
    s.db.imm.Some? ==> var f := s.logs[|s.logs| - 2]; Cut(f, f.synced) == s.immPart
  }

  lemma SyncedPartSurvives(s: Sys, cuts: seq<nat>)
    requires LogsOk(s) && PartsOk(s) && CutsOk(s.logs, cuts)
    ensures s.db.imm.None? || OldLogSynced(s) ==> ImmSurvivors(s, cuts) == s.immPart
  {
    hide LastCounters, EntriesFrom;
    SurvivorsArePrefixes(s, cuts);
    var n := |s.logs|;
    if s.db.imm.Some? { CutGrows(s.logs[n - 2], s.logs[n - 2].synced, cuts[n - 2]); }
  }

  /** Of the current log everything survives, of every other log only what was synced. */
  function Worst(logs: seq<LogFile>): (cuts: seq<nat>)
    ensures |cuts| == |logs|
  {
    seq(|logs|, i requires 0 <= i < |logs| => if i + 1 < |logs| then logs[i].synced else |logs[i].records|)
  }

  lemma WorstCuts(s: Sys)
    requires LogsOk(s) && PartsOk(s)
    ensures CutsOk(s.logs, Worst(s.logs))
    ensures MemSurvivors(s, Worst(s.logs)) == s.memPart + s.pending
    ensures s.db.imm.Some? && !OldLogSynced(s) ==> ImmSurvivors(s, Worst(s.logs)) != s.immPart
  {
    hide LastCounters, EntriesFrom, Flat;
    var n := |s.logs|;
    assert s.logs[n - 1].records[..|s.logs[n - 1].records|] == s.logs[n - 1].records;
  }

  /** A crash that keeps everything written to the logs recovers the whole history. */
  lemma CleanCrashLosesNothing(s: Sys, cuts: seq<nat>)
    requires SysInv(s) && CutsOk(s.logs, cuts) && forall i :: 0 <= i < |cuts| ==> cuts[i] == |s.logs[i].records|
    ensures s.base + Survivors(s.logs, cuts, LastCounters(s.manifest).logNumber) == History(s)
  {
    SysInvHas(s);
    SurvivorsAre(s, cuts);
    WholeSurvivors(s, cuts);
    hide SysInv, Inv, PartsOk, LogsOk, LastCounters, Survivors, ImmSurvivors, MemSurvivors;
    Regroup(s.base, s.immPart, s.memPart + s.pending);
  }

  lemma WholeSurvivors(s: Sys, cuts: seq<nat>)
    requires LogsOk(s) && PartsOk(s) && CutsOk(s.logs, cuts) && forall i :: 0 <= i < |cuts| ==>
             cuts[i] == |s.logs[i].records|
    ensures ImmSurvivors(s, cuts) == s.immPart && MemSurvivors(s, cuts) == s.memPart + s.pending
  {
    hide LastCounters, EntriesFrom, Flat, Elems;
    var n := |s.logs|;
    assert s.logs[n - 1].records[..cuts[n - 1]] == s.logs[n - 1].records;
    if s.db.imm.Some? { assert s.logs[n - 2].records[..cuts[n - 2]] == s.logs[n - 2].records; }
  }

  /** Every write of which the log was ever synced belongs to the history, in every state of every run. */
  lemma SyncedIsNeverLost(maxFileSize: nat, states: seq<Sys>, steps: seq<Step>, n: nat)
    requires IsSysRun(maxFileSize, states, steps) && n < |states|
    ensures states[n].synced <= Elems(History(states[n]))
  {
    SysRunsKeepInv(maxFileSize, states, steps, n);
    hide IsSysRun, SysInv;
    SyncedInHistory(states[n]);
  }

  /** What a sync made safe stays: the writes in the log when it was synced are in the history of every later
      state, however many crashes come in between. */
  lemma SyncedStays(maxFileSize: nat, states: seq<Sys>, steps: seq<Step>, i: nat, n: nat)
    requires IsSysRun(maxFileSize, states, steps) && i < n < |states| && steps[i].SyncLog?
    ensures Elems(states[i].memPart + states[i].pending) <= Elems(History(states[n]))
  {
    NthSysStep(maxFileSize, states, steps, i);
    SyncedGrows(maxFileSize, states[i], steps[i]);
    SyncedKept(maxFileSize, states, steps, i + 1, n);
    SyncedIsNeverLost(maxFileSize, states, steps, n);
  }

  lemma {:induction false} SyncedKept(maxFileSize: nat, states: seq<Sys>, steps: seq<Step>, i: nat, n: nat)
    requires IsSysRun(maxFileSize, states, steps) && i <= n < |states|
    ensures states[i].synced <= states[n].synced
  {
    hide CanStep, After;
    if i < n {
      SyncedKept(maxFileSize, states, steps, i, n - 1);
      NthSysStep(maxFileSize, states, steps, n - 1);
      SyncedGrows(maxFileSize, states[n - 1], steps[n - 1]);
    }
  }

  lemma SyncedInHistory(s: Sys)
    requires SysInv(s)
    ensures s.synced <= Elems(History(s))
  {
    hide SysInv, Inv, PartsOk, ManifestOk, LastCounters, SyncedOk, LogsOk, Survivors, CutsOk, Elems;
    SysInvHas(s);
    WholeCuts(s);
    SyncedSurvives(s, Whole(s.logs));
    CleanCrashLosesNothing(s, Whole(s.logs));
  }

  /** Cuts that lose nothing. */
  function Whole(logs: seq<LogFile>): (cuts: seq<nat>)
    ensures |cuts| == |logs| && forall i :: 0 <= i < |cuts| ==> cuts[i] == |logs[i].records|
  {
    seq(|logs|, i requires 0 <= i < |logs| => |logs[i].records|)
  }

  lemma WholeCuts(s: Sys)
    requires LogsOk(s)
    ensures CutsOk(s.logs, Whole(s.logs))
  {
    hide LastCounters, Flat;
  }

  // ------------------------------------------------------------------ a later write that survives alone

  function W1(): Entry { Entry(IKey(1.0, 1, Value), "a") }
  function W2(): Entry { Entry(IKey(2.0, 2, Value), "b") }

  // Put 1, switch memtables, put 2 with a sync, crash.
  function S0(): Sys { SysInitial() }
  function S1(): Sys { S0().(logs := [LogFile(3, [[W1()]], 0)], pending := [W1()]) }
  function S2(): Sys {
    S1().(db := S1().db.(mem := [W1()], applied := 1, log := [W1()]), memPart := [W1()], pending := [])
  }
  function S3(): Sys { S2().(db := S2().db.(last := 1)) }
  function S4(): Sys {
    S3().(db := S3().db.(imm := Some([W1()]), mem := [], next := 5),
      logs := [LogFile(3, [[W1()]], 0), LogFile(4, [], 0)],
          immPart := [W1()], memPart := [])
  }
  function S5(): Sys { S4().(logs := [LogFile(3, [[W1()]], 0), LogFile(4, [[W2()]], 0)], pending := [W2()]) }
  function S6(): Sys { S5().(logs := [LogFile(3, [[W1()]], 0), LogFile(4, [[W2()]], 1)], synced := {W2()}) }
  function S7(): Sys {
    S6().(db := S6().db.(mem := [W2()], applied := 2, log := [W1(), W2()]), memPart := [W2()], pending := [])
  }
  function S8(): Sys { S7().(db := S7().db.(last := 2)) }

  function Lossy(): Step { Crash([0, 1], [[W2()]], [17], [5], 6) }

  ghost predicate Leads(maxFileSize: nat, s: Sys, step: Step, s': Sys) {
    CanStep(maxFileSize, s, step) && After(maxFileSize, s, step) == s'
  }

  lemma Append1(maxFileSize: nat)
    ensures Leads(maxFileSize, S0(), Append([Op(Value, 1.0, "a")]), S1())
  {
    OneRecord(1, Op(Value, 1.0, "a"));
    hide Numbered;
    assert [] + [[W1()]] == [[W1()]];
  }

  /** Inserting the one pending write. */
  lemma InsertLeads(maxFileSize: nat, s: Sys, e: Entry)
    requires s.logs != [] && |s.db.v| == NUM_LEVELS && s.pending == [e]
    requires e.ik.seqno == s.db.applied + 1 && s.db.applied + 1 < MAX_SEQUENCE
    ensures Leads(maxFileSize, s, Do(Insert(e.ik.user, e.ik.typ, e.value)),
                  s.(db := s.db.(mem := MemInsert(s.db.mem, e), applied := s.db.applied + 1, log := s.db.log + [e]),
                     memPart := s.memPart + [e], pending := []))
  {
    hide MemInsert;
    assert [e][1..] == [] && s.pending[0] == e;
    assert e == Entry(IKey(e.ik.user, s.db.applied + 1, e.ik.typ), e.value);
  }

  lemma Insert1(maxFileSize: nat)
    ensures Leads(maxFileSize, S1(), Do(Insert(1.0, Value, "a")), S2())
  {
    hide MemInsert, MemOf, Leads;
    MemOfOne(W1());
    InsertLeads(maxFileSize, S1(), W1());
    assert [] + [W1()] == [W1()];
  }

  lemma Publish1(maxFileSize: nat)
    ensures Leads(maxFileSize, S2(), Do(Publish), S3())
  {
  }

  lemma Switch1(maxFileSize: nat)
    ensures Leads(maxFileSize, S3(), Do(Switch), S4())
  {
    assert [LogFile(3, [[W1()]], 0)] + [LogFile(4, [], 0)] == [LogFile(3, [[W1()]], 0), LogFile(4, [], 0)];
  }

  lemma Append2(maxFileSize: nat)
    ensures Leads(maxFileSize, S4(), Append([Op(Value, 2.0, "b")]), S5())
  {
    OneRecord(2, Op(Value, 2.0, "b"));
    hide Numbered;
    assert [] + [[W2()]] == [[W2()]];
    assert S4().logs[1 := LogFile(4, [[W2()]], 0)] == S5().logs;
  }

  lemma Sync2(maxFileSize: nat)
    ensures Leads(maxFileSize, S5(), SyncLog, S6())
  {
    assert S5().logs[1 := LogFile(4, [[W2()]], 1)] == S6().logs;
    assert [] + [W2()] == [W2()];
    ElemsOfOne(W2());
    assert {} + {W2()} == {W2()};
  }

  lemma Insert2(maxFileSize: nat)
    ensures Leads(maxFileSize, S6(), Do(Insert(2.0, Value, "b")), S7())
  {
    hide MemInsert, MemOf, Leads;
    MemOfOne(W2());
    InsertLeads(maxFileSize, S6(), W2());
    assert [] + [W2()] == [W2()] && [W1()] + [W2()] == [W1(), W2()];
  }

  lemma Publish2(maxFileSize: nat)
    ensures Leads(maxFileSize, S7(), Do(Publish), S8())
  {
  }

  lemma OneRecord(start: nat, op: Op)
    ensures Numbered(start, [op]) == [EntryOf(op, start)]
  {
  }

  lemma MemOfOne(e: Entry)
    ensures MemInsert([], e) == [e] && MemOf([e]) == [e]
  {
    assert [e][..0] == [];
  }

  lemma LossySurvivors()
    ensures var s := S8();
            && LastCounters(s.manifest) == Counters(3, 4, 0) && CutsOk(s.logs, [0, 1])
            && Survivors(s.logs, [0, 1], 3) == [W2()]
  {
    NewCounters(Edit({}, []), Edit({}, []), Counters(3, 4, 0));
    hide LastCounters;
    var logs := S8().logs;
    SurvivorsStep(logs, [0, 1], 3, 0);
    SurvivorsStep(logs, [0, 1], 3, 1);
    assert logs[..2] == logs && [0, 1][..2] == [0, 1] && logs[..0] == [];
    assert [[W1()]][..0] == [] && [[W2()]][..1] == [[W2()]] && [[W2()]][..0] == [];
    hide Survivors;
    assert Cut(logs[0], 0) == [] && Cut(logs[1], 1) == [W2()];
    NoSurvivors([], [], 3);
  }

  lemma LossyChunks()
    ensures ChunksOk([[W2()]], [17], [5], 4, 6) && Flat([[W2()]]) == [W2()]
  {
    MemOfOne(W2());
    assert [[W2()]][..0] == [];
  }

  lemma LossyCanStep(maxFileSize: nat)
    ensures CanStep(maxFileSize, S8(), Lossy())
  {
    LossyChunks();
    LossySurvivors();
    assert S8().logs != [];
    hide LastCounters, Survivors, CutsOk, ChunksOk, Flat, S8;
  }

  // ------------------------------------------------------------------ the run

  ghost predicate SafelyReachable(maxFileSize: nat, s: Sys) {
    exists states, steps ::
      IsSysRun(maxFileSize, states, steps) && AllGuarded(states, steps, |steps|) && states[|steps|] == s
  }

  lemma SafeStep(maxFileSize: nat, s: Sys, step: Step, s': Sys)
    requires SafelyReachable(maxFileSize, s) && Leads(maxFileSize, s, step, s') && Guarded(s, step)
    ensures SafelyReachable(maxFileSize, s')
  {
    hide CanStep, After, Guarded;
    var states, steps :| IsSysRun(maxFileSize, states, steps) && AllGuarded(states, steps, |steps|) &&
      states[|steps|] == s;
    var states', steps' := states + [s'], steps + [step];
    forall i | 0 <= i < |steps'|
      ensures CanStep(maxFileSize, states'[i], steps'[i]) && states'[i + 1] == After(maxFileSize, states'[i], steps'[i])
      ensures Guarded(states'[i], steps'[i])
    {
      if i < |steps| {
        assert states'[i] == states[i] && states'[i + 1] == states[i + 1] && Guarded(states[i], steps[i]);
      }
    }
    assert IsSysRun(maxFileSize, states', steps') && AllGuarded(states', steps', |steps'|);
  }

  lemma SafelyReached(maxFileSize: nat, s: Sys)
    requires SafelyReachable(maxFileSize, s)
    ensures SysInv(s) && ReadsOk(s.db) && ReadsOk(Durable(s))
  {
    hide SysInv, ReadsOk, Durable;
    var states, steps :| IsSysRun(maxFileSize, states, steps) && AllGuarded(states, steps, |steps|) &&
      states[|steps|] == s;
    SysRunsKeepInv(maxFileSize, states, steps, |steps|);
    SysRunsKeepReads(maxFileSize, states, steps, |steps|);
  }

  lemma NoInstallIsGuarded(s: Sys, step: Step)
    requires !(step.Do? && step.a.Install?)
    ensures Guarded(s, step)
  {
  }

  lemma S8IsReachable(maxFileSize: nat)
    ensures SafelyReachable(maxFileSize, S8())
  {
    hide SafelyReachable, Leads, Guarded, S0, S1, S2, S3, S4, S5, S6, S7, S8;
    FirstIsReachable(maxFileSize);
    Append1(maxFileSize); Insert1(maxFileSize); Publish1(maxFileSize); Switch1(maxFileSize);
    Append2(maxFileSize); Sync2(maxFileSize); Insert2(maxFileSize); Publish2(maxFileSize);
    Onward(maxFileSize, S0(), Append([Op(Value, 1.0, "a")]), S1());
    Onward(maxFileSize, S1(), Do(Insert(1.0, Value, "a")), S2());
    Onward(maxFileSize, S2(), Do(Publish), S3());
    Onward(maxFileSize, S3(), Do(Switch), S4());
    Onward(maxFileSize, S4(), Append([Op(Value, 2.0, "b")]), S5());
    Onward(maxFileSize, S5(), SyncLog, S6());
    Onward(maxFileSize, S6(), Do(Insert(2.0, Value, "b")), S7());
    Onward(maxFileSize, S7(), Do(Publish), S8());
  }

  lemma Onward(maxFileSize: nat, s: Sys, step: Step, s': Sys)
    requires SafelyReachable(maxFileSize, s) && Leads(maxFileSize, s, step, s') && !(step.Do? && step.a.Install?)
    ensures SafelyReachable(maxFileSize, s')
  {
    hide SafelyReachable, Leads, Guarded;
    NoInstallIsGuarded(s, step);
    SafeStep(maxFileSize, s, step, s');
  }

  lemma FirstIsReachable(maxFileSize: nat)
    ensures SafelyReachable(maxFileSize, S0())
  {
    assert IsSysRun(maxFileSize, [S0()], []) && AllGuarded([S0()], [], 0);
  }

  /** A machine crash just after a memtable switch can lose an acknowledged write and keep a later, synced
      one: what is recovered need not be a prefix of what was written. */
  lemma LaterWriteSurvivesAlone(maxFileSize: nat) returns (s: Sys)
    ensures SafelyReachable(maxFileSize, S8()) && Leads(maxFileSize, S8(), Lossy(), s)
    ensures S8().db.log == [W1(), W2()] && S8().db.last == 2 && s.db.last == 2 && s.db.log == [W2()]
    ensures Answer(Get(s.db, 1.0, 2)) == None && Answer(Get(s.db, 2.0, 2)) == Some("b")
  {
    hide SafelyReachable, CanStep, After, Get, Lossy;
    S8IsReachable(maxFileSize);
    LossyCanStep(maxFileSize);
    s := After(maxFileSize, S8(), Lossy());
    LossyReads(maxFileSize, s);
  }

  lemma LossyReads(maxFileSize: nat, s: Sys)
    requires SafelyReachable(maxFileSize, S8()) && Leads(maxFileSize, S8(), Lossy(), s)
    ensures s.db.last == 2 && s.db.log == [W2()]
    ensures Answer(Get(s.db, 1.0, 2)) == None && Answer(Get(s.db, 2.0, 2)) == Some("b")
  {
    hide SafelyReachable, Leads, Get, S8, Lossy, Replay;
    LossyLast(maxFileSize, s);
    LossyReadsOk(maxFileSize, s);
    LossyFloor(maxFileSize, s);
    ReplayOfOne(W2());
    assert Answer(Get(s.db, 1.0, 2)) == Lookup(Replay(s.db.log, 2), 1.0) &&
           Answer(Get(s.db, 2.0, 2)) == Lookup(Replay(s.db.log, 2), 2.0);
  }

  lemma LossyReadsOk(maxFileSize: nat, s: Sys)
    requires SafelyReachable(maxFileSize, S8()) && Leads(maxFileSize, S8(), Lossy(), s)
    ensures ReadsOk(s.db)
  {
    SafelyReached(maxFileSize, S8());
    LossyIsCrash();
    hide SafelyReachable, SysInv, ReadsOk, CanStep, After, S8, Durable, Lossy, Survivors, LastCounters;
    CrashReadsSurvivors(maxFileSize, S8(), Lossy());
  }

  lemma LossyIsCrash()
    ensures Lossy().Crash?
  {
  }

  lemma LossyLast(maxFileSize: nat, s: Sys)
    requires SafelyReachable(maxFileSize, S8()) && Leads(maxFileSize, S8(), Lossy(), s)
    ensures s.db.last == 2 && s.db.log == [W2()]
  {
    hide SafelyReachable, CanStep, After, S8, Recovered;
    LossyDb(maxFileSize);
    LossyAfter(maxFileSize);
  }

  lemma LossyDb(maxFileSize: nat)
    requires SafelyReachable(maxFileSize, S8())
    ensures CutsOk(S8().logs, [0, 1]) && ChunksOk([[W2()]], [17], [5], LastCounters(S8().manifest).nextFile, 6)
    ensures var d := Recovered(S8(), [0, 1], [[W2()]], [17], [5], 6).db; d.last == 2 && d.log == [W2()]
  {
    hide SafelyReachable, SysInv, ReadsOk, LastCounters, Survivors, CutsOk, ChunksOk, Recovered, Flat;
    SafelyReached(maxFileSize, S8());
    LossySurvivors();
    LossyChunks();
    assert S8().base == [] && [] + [W2()] == [W2()];
    hide S8;
    RecoveredDb(S8(), [0, 1], [[W2()]], [17], [5], 6);
  }

  lemma LossyFloor(maxFileSize: nat, s: Sys)
    requires SafelyReachable(maxFileSize, S8()) && Leads(maxFileSize, S8(), Lossy(), s)
    ensures s.db.floor == 0
  {
    SafelyReached(maxFileSize, S8());
    LossyIsCrash();
    assert Durable(S8()).floor == 0;
    hide SafelyReachable, SysInv, CanStep, After, S8, Lossy, Durable, Survivors, LastCounters;
    CrashTaken(maxFileSize, S8(), Lossy());
  }

  lemma LossyAfter(maxFileSize: nat)
    requires CanStep(maxFileSize, S8(), Lossy())
    ensures CutsOk(S8().logs, [0, 1]) && ChunksOk([[W2()]], [17], [5], LastCounters(S8().manifest).nextFile, 6)
    ensures After(maxFileSize, S8(), Lossy()) == Recovered(S8(), [0, 1], [[W2()]], [17], [5], 6)
  {
    hide Recovered, Survivors, LastCounters, S8;
  }

  lemma ReplayOfOne(e: Entry)
    requires e.ik.typ.Value?
    ensures Replay([e], e.ik.seqno) == map[e.ik.user := e.value]
  {
    assert [e][..0] == [];
  }
}
