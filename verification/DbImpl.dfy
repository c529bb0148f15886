/** DBImpl (db/db_impl.cc) and the part of VersionSet it drives: every method is one step, or a
    few steps, of the state machine in Lsm. */
module DbImpl {
  import opened Keys
  import opened Versions
  import opened Inputs
  import opened Selection
  import opened Picking
  import opened Flushing
  import opened Merging
  import opened Building
  import opened CompactionRun
  import opened Lsm
  import opened LsmSteps
  import opened LsmFlush
  import opened LsmCompaction
  import opened LsmInstall
  import opened LsmRuns
  import opened WriteBatches

  function InsertAll(mem: Run, batch: seq<Op>, from: nat): Run {
    if batch == [] then mem
    else MemInsert(InsertAll(mem, batch[..|batch| - 1], from), EntryOf(batch[|batch| - 1], from + |batch| - 1))
  }

  /** The state after a batch has been inserted, before it is published. */
  function Inserted(d: Db, batch: seq<Op>): Db {
    d.(mem := InsertAll(d.mem, batch, d.applied + 1), applied := d.applied + |batch|,
       log := d.log + Numbered(d.applied + 1, batch))
  }

  lemma InsertOneMore(d: Db, batch: seq<Op>)
    requires |d.v| == NUM_LEVELS && batch != [] && d.applied + |batch| < MAX_SEQUENCE
    ensures var r, op := Inserted(d, batch[..|batch| - 1]), batch[|batch| - 1];
            Inserted(d, batch) == Apply(0, r, Insert(op.user, op.typ, op.value))
  {
    hide Numbered, MemInsert;
    NumberedLast(d.applied + 1, batch);
  }

  lemma InsertOneKeeps(d: Db, op: Op)
    requires Inv(d) && |d.v| == NUM_LEVELS && d.applied + 1 < MAX_SEQUENCE
    ensures var r := Apply(0, d, Insert(op.user, op.typ, op.value)); Inv(r) && (ReadsOk(d) ==> ReadsOk(r))
  {
    hide Inv, ReadsOk;
    InsertKeepsInv(0, d, op.user, op.typ, op.value);
    if ReadsOk(d) {
      InsertKeepsReads(0, d, op.user, op.typ, op.value);
    }
  }

  lemma {:induction false} InsertedKeeps(d: Db, batch: seq<Op>)
    requires Inv(d) && |d.v| == NUM_LEVELS && d.applied + |batch| < MAX_SEQUENCE
    ensures Inv(Inserted(d, batch)) && (ReadsOk(d) ==> ReadsOk(Inserted(d, batch)))
  {
    hide Inv, ReadsOk, Apply;
    if batch == [] {
      assert Inserted(d, batch) == d;
    } else {
      InsertedKeeps(d, batch[..|batch| - 1]);
      InsertOneMore(d, batch);
      InsertOneKeeps(Inserted(d, batch[..|batch| - 1]), batch[|batch| - 1]);
    }
  }

  class DB {
    const maxFileSize: nat
    var mem: Run
    var imm: Option<Run>
    var v: seq<seq<File>>
    var lastSequence: nat
    var nextFileNumber: nat
    var snapshots: seq<nat>
    var running: Option<Compaction>
    ghost var log: seq<Entry>
    ghost var floor: nat

    ghost function State(): Db
      reads this
    {
      Db(mem, imm, v, lastSequence, lastSequence, snapshots, nextFileNumber, running, log, floor)
    }

    ghost predicate Valid()
      reads this
    {
      |v| == NUM_LEVELS && Inv(State())
    }

    constructor (maxFileSize: nat)
      ensures Valid() && State() == Initial() && this.maxFileSize == maxFileSize
    {
      this.maxFileSize := maxFileSize;
      mem, imm := [], None;
      v := seq(NUM_LEVELS, _ => []);
      lastSequence, nextFileNumber, snapshots, running := 0, 2, [], None;
      log, floor := [], 0;
      new;
      InitialIsOk();
    }

    /** WriteBatchInternal::InsertInto: consecutive sequence numbers, not yet published. */
    method InsertInto(batch: seq<Op>)
      modifies this`mem, this`log
      ensures mem == InsertAll(old(mem), batch, lastSequence + 1)
      ensures log == old(log) + Numbered(lastSequence + 1, batch)
    {
      hide MemInsert, Numbered;
      NothingNumbered(lastSequence + 1);
      for i := 0 to |batch|
        invariant mem == InsertAll(old(mem), batch[..i], lastSequence + 1)
        invariant log == old(log) + Numbered(lastSequence + 1, batch[..i])
      {
        assert batch[..i + 1][..i] == batch[..i];
        NumberedLast(lastSequence + 1, batch[..i + 1]);
        mem := MemInsert(mem, EntryOf(batch[i], lastSequence + 1 + i));
        log := log + [EntryOf(batch[i], lastSequence + 1 + i)];
      }
      assert batch[..|batch|] == batch;
    }

    method Write(batch: seq<Op>)
      requires Valid() && lastSequence + |batch| < MAX_SEQUENCE
      modifies this
      ensures Valid()
      ensures State() == Inserted(old(State()), batch).(last := old(lastSequence) + |batch|)
      ensures old(ReadsOk(State())) ==> ReadsOk(State())
    {
      hide Inv, ReadsOk, InsertAll, Numbered;
      ghost var d := State();
      InsertedKeeps(d, batch);
      PublishKeepsAll(Inserted(d, batch));
      InsertInto(batch);
      lastSequence := lastSequence + |batch|;
      assert State() == Inserted(d, batch).(last := d.last + |batch|);
    }

    method GetSnapshot() returns (s: nat)
      requires Valid()
      modifies this
      ensures Valid() && Steps(maxFileSize, old(State()), TakeSnapshot, State())
      ensures s == lastSequence == old(lastSequence) && snapshots == old(snapshots) + [s]
      ensures old(ReadsOk(State())) ==> ReadsOk(State())
    {
      hide Inv, ReadsOk;
      ghost var d := State();
      s := lastSequence;
      snapshots := snapshots + [s];
      StepKeeps(maxFileSize, d, TakeSnapshot, State());
    }

    method ReleaseSnapshot(i: nat)
      requires Valid() && i < |snapshots|
      modifies this
      ensures Valid() && Steps(maxFileSize, old(State()), Action.ReleaseSnapshot(i), State())
      ensures snapshots == old(snapshots)[..i] + old(snapshots)[i + 1..]
      ensures old(ReadsOk(State())) ==> ReadsOk(State())
    {
      hide Inv, ReadsOk;
      ghost var d := State();
      snapshots := snapshots[..i] + snapshots[i + 1..];
      StepKeeps(maxFileSize, d, Action.ReleaseSnapshot(i), State());
    }

    /** The memtable switch in MakeRoomForWrite. */
    method SwitchMemTable()
      requires Valid() && imm.None?
      modifies this
      ensures Valid() && Steps(maxFileSize, old(State()), Switch, State())
      ensures imm == Some(old(mem)) && mem == []
      ensures old(ReadsOk(State())) ==> ReadsOk(State())
    {
      hide Inv, ReadsOk;
      ghost var d := State();
      imm, mem := Some(mem), [];
      StepKeeps(maxFileSize, d, Switch, State());
    }

    /** LogAndApply: apply one edit to the current version. */
    method LogAndApply(edit: Edit)
      requires LevelsInOrder(v)
      requires forall d :: d in edit.deleted ==> d.0 < NUM_LEVELS
      requires forall a :: a in edit.added ==> a.0 < NUM_LEVELS
      modifies this`v
      ensures |old(v)| == NUM_LEVELS && v == ApplyEdit(old(v), edit)
    {
      var builder := new Builder(v);
      builder.Apply(edit);
      v := builder.SaveTo();
    }

    method CompactMemTable() returns (size: nat)
      requires Valid() && imm.Some?
      modifies this
      ensures Valid() && Steps(maxFileSize, old(State()), Flush(size), State())
      ensures imm == None && mem == old(mem) && nextFileNumber == old(nextFileNumber) + 1
      ensures var run := old(imm).value;
              v == if run == [] then old(v) else
                   var low, high := run[0].ik, run[|run| - 1].ik;
                   var level := PickLevel(maxFileSize, old(v), Range(Some(low.user), Some(high.user)));
                   ApplyEdit(old(v), Edit({}, [(level, File(old(nextFileNumber), size, low, high, run))]))
      ensures old(ReadsOk(State())) ==> ReadsOk(State())
    {
      hide Inv, ReadsOk, ApplyEdit, VersionOk, PickLevel;
      ghost var d := State();
      FilesAreReady(d);
      var run := imm.value;
      size := *;
      var number := nextFileNumber;
      if run != [] {
        var smallest, largest := run[0].ik, run[|run| - 1].ik;
        var level := PickLevelForMemTableOutput(maxFileSize, v, smallest.user, largest.user);
        PickLevelIsClear(maxFileSize, v, Range(Some(smallest.user), Some(largest.user)));
        LogAndApply(Edit({}, [(level, File(number, size, smallest, largest, run))]));
      }
      nextFileNumber := nextFileNumber + 1;
      imm := None;
      StepKeeps(maxFileSize, d, Flush(size), State());
    }

    /** BackgroundCompaction, up to the point where DoCompactionWork gives up the mutex. */
    method BeginCompaction(level: nat, seed: File)
      requires Valid() && running.None? && imm.None? && level + 1 < NUM_LEVELS && seed in v[level]
      modifies this
      ensures Valid() && Steps(maxFileSize, old(State()), Begin(level, seed), State())
      ensures running.Some? && running.value.smallest == if snapshots == [] then lastSequence else snapshots[0]
      ensures var c := running.value;
              c.level == level && c.base == v == old(v) && c.reserved == {}
      ensures old(ReadsOk(State())) ==> ReadsOk(State())
    {
      hide Inv, ReadsOk, VersionOk, Pick, GrowsWhenAllowed, WithBoundary, OverlappingInputs, UserRange;
      ghost var d := State();
      FilesAreReady(d);
      LevelIsBounded(v, level);
      var c := PickCompaction(maxFileSize, level, v[level], v[level + 1], seed);
      var smallest := if snapshots == [] then lastSequence else snapshots[0];
      running := Some(Compaction(level, c.inputs0, c.inputs1, smallest, v, {}));
      StepKeeps(maxFileSize, d, Begin(level, seed), State());
    }

    /** A trivial move of the single input file. */
    method MoveFile()
      requires Valid() && running.Some? && IsTrivialMove(maxFileSize, running.value)
      modifies this
      ensures Valid() && Steps(maxFileSize, old(State()), Move, State())
      ensures running == None && mem == old(mem) && imm == old(imm)
      ensures old(ReadsOk(State())) ==> ReadsOk(State())
    {
      hide Inv, ReadsOk, ApplyEdit, VersionOk, Grandparents;
      ghost var d := State();
      FilesAreReady(d);
      RunningIsReady(d);
      LogAndApply(MoveEdit(running.value));
      running := None;
      StepKeeps(maxFileSize, d, Move, State());
    }

    /** The rest of DoCompactionWork, from its input version and inputs, and the install. */
    method FinishCompaction() returns (outputs: seq<File>)
      requires Valid() && running.Some? && !IsTrivialMove(maxFileSize, running.value)
      modifies this
      ensures Valid()
      ensures nextFileNumber >= old(nextFileNumber)
      ensures Steps(maxFileSize, AfterReserves(old(State()), nextFileNumber), Install(outputs), State())
      ensures old(ReadsOk(State())) ==>
                (ReadsOk(State()) <==> !Resurrects(AfterReserves(old(State()), nextFileNumber), Install(outputs)))
    {
      hide Inv, ReadsOk, ApplyEdit, VersionOk, Kept, Resurrects, CompactionEdit, IsTrivialMove, MergedInputs,
           AfterReserves;
      ghost var d := State();
      FilesAreReady(d);
      RunningIsReady(d);
      var c := running.value;
      outputs, nextFileNumber := DoCompactionWork(c.base, c.level, c.smallest, MergedInputs(c), nextFileNumber);
      ReservesKeep(maxFileSize, d, nextFileNumber);
      InstallEnabled(maxFileSize, d, nextFileNumber, outputs);
      EditInRange(c, outputs);
      LogAndApply(CompactionEdit(c, outputs));
      running, floor := None, c.smallest;
      InstallSteps(maxFileSize, d, nextFileNumber, outputs, State());
      StepKeeps(maxFileSize, AfterReserves(d, nextFileNumber), Install(outputs), State());
    }

    method Get(user: UserKey, snapshot: Option<nat>) returns (value: Option<string>)
      requires Valid()
      requires snapshot.Some? ==> snapshot.value in snapshots
      ensures var s := if snapshot.Some? then snapshot.value else lastSequence;
              && value == Answer(Lsm.Get(State(), user, s))
              && (ReadsOk(State()) ==> value == Lookup(Replay(log, s), user))
    {
      hide Inv, VersionOk, RunGet, GetFrom;
      FilesAreReady(State());
      ReadableIsAboveFloor(State());
      var s := if snapshot.Some? then snapshot.value else lastSequence;
      var found := RunGet(mem, user, s);
      if found.None? && imm.Some? {
        found := RunGet(imm.value, user, s);
      }
      if found.None? {
        found := VersionGet(v, user, s);
      }
      value := Answer(found);
      EmptyRunGet(user, s);
      assert Readable(State(), s);
      assert found == Lsm.Get(State(), user, s);
    }
  }

  lemma EmptyRunGet(user: UserKey, s: nat)
    ensures RunGet([], user, s) == None
  {
  }

  lemma ReadableIsAboveFloor(d: Db)
    requires Inv(d)
    ensures forall s: nat :: Readable(d, s) ==> s >= d.floor
  {
    hide PlacesOk, FilesOk, InputsOk, BaseOk, ReservedOk, LogOk;
  }

  lemma LevelIsBounded(v: seq<seq<File>>, level: nat)
    requires VersionOk(v) && level < |v|
    ensures Bounded(v[level])
  {
    FilesOkAreBounded(v[level]);
  }

  function Between(lo: nat, hi: nat): (r: set<nat>)
    ensures forall n :: n in r <==> lo <= n < hi
  {
    if hi <= lo then {} else Between(lo, hi - 1) + {hi - 1}
  }

  /** The state once a running compaction has reserved all file numbers below `next`. */
  ghost function AfterReserves(d: Db, next: nat): Db {
    if d.running.None? || next <= d.next then d else
    var c := d.running.value;
    d.(next := next, running := Some(c.(reserved := c.reserved + Between(d.next, next))))
  }

  lemma ReserveAgain(maxFileSize: nat, d: Db, next: nat)
    requires d.running.Some? && d.next < next && |d.v| == NUM_LEVELS
    ensures Steps(maxFileSize, AfterReserves(d, next - 1), Reserve, AfterReserves(d, next))
  {
    var reserved := d.running.value.reserved;
    assert reserved + Between(d.next, next) == (reserved + Between(d.next, next - 1)) + {next - 1};
    assert reserved + Between(d.next, d.next) == reserved;
  }

  lemma {:induction false} ReservesKeep(maxFileSize: nat, d: Db, next: nat)
    requires Inv(d) && d.running.Some? && d.next <= next && |d.v| == NUM_LEVELS
    ensures Inv(AfterReserves(d, next)) && (ReadsOk(d) ==> ReadsOk(AfterReserves(d, next)))
    decreases next - d.next
  {
    hide Inv, ReadsOk;
    if next > d.next {
      ReservesKeep(maxFileSize, d, next - 1);
      ReserveAgain(maxFileSize, d, next);
      StepKeeps(maxFileSize, AfterReserves(d, next - 1), Reserve, AfterReserves(d, next));
    }
  }

  lemma RunningIsReady(d: Db)
    requires Inv(d) && d.running.Some?
    ensures var c := d.running.value;
            && |c.base| == NUM_LEVELS && c.level + 1 < NUM_LEVELS && |d.v| == NUM_LEVELS && c.inputs0 != []
            && (forall l :: c.level + 2 <= l < NUM_LEVELS ==> AllFilesOk(c.base[l]) && Disjoint(c.base[l]))
            && Sorted(MergedInputs(c))
  {
    FilesAreUnique(d);
    var c := d.running.value;
    assert InputsOk(c, d.v) && BaseOk(c, d.v);
    hide Inv, VersionOk, UniqueSeqnos, MergedInputs;
    MergedSorts(c, d.v);
  }

  lemma EditInRange(c: Compaction, outputs: seq<File>)
    requires c.level + 1 < NUM_LEVELS
    ensures forall d :: d in CompactionEdit(c, outputs).deleted ==> d.0 < NUM_LEVELS
    ensures forall a :: a in CompactionEdit(c, outputs).added ==> a.0 < NUM_LEVELS
  {
  }

  lemma InstallEnabled(maxFileSize: nat, d: Db, next: nat, outputs: seq<File>)
    requires d.running.Some? && |d.v| == NUM_LEVELS && d.next <= next
    requires !IsTrivialMove(maxFileSize, d.running.value)
    requires AllFilesOk(outputs) && Disjoint(outputs) && FreshNumbers(outputs, d.next, next)
    requires var c := d.running.value; var m := MergedInputs(c);
             Contents(outputs) == Kept(c.base, c.level, c.smallest, m, |m|)
    ensures Enabled(maxFileSize, AfterReserves(d, next), Install(outputs))
  {
    var c, r := d.running.value, AfterReserves(d, next).running.value;
    SameMerge(c, r);
    SameMove(maxFileSize, c, r);
    forall f | f in outputs ensures f.number in r.reserved {
      var i :| 0 <= i < |outputs| && outputs[i] == f;
    }
  }

  lemma SameMerge(c: Compaction, r: Compaction)
    requires r == c.(reserved := r.reserved)
    ensures MergedInputs(r) == MergedInputs(c)
  {
    hide Merge, Contents;
  }

  lemma SameMove(maxFileSize: nat, c: Compaction, r: Compaction)
    requires r == c.(reserved := r.reserved)
    ensures IsTrivialMove(maxFileSize, r) <==> IsTrivialMove(maxFileSize, c)
  {
    hide TotalFileSize, OverlappingInputs, UserRange;
  }

  lemma InstallSteps(maxFileSize: nat, d: Db, next: nat, outputs: seq<File>, d': Db)
    requires d.running.Some? && |d.v| == NUM_LEVELS && d.next <= next
    requires Enabled(maxFileSize, AfterReserves(d, next), Install(outputs))
    requires var c := d.running.value;
             d' == d.(next := next, running := None, floor := c.smallest,
               v := ApplyEdit(d.v, CompactionEdit(c, outputs)))
    ensures Steps(maxFileSize, AfterReserves(d, next), Install(outputs), d')
  {
    hide Enabled, Apply, ApplyEdit;
    InstallMakes(maxFileSize, AfterReserves(d, next), outputs);
  }

  lemma FilesAreReady(d: Db)
    requires Inv(d)
    ensures VersionOk(d.v) && LevelsInOrder(d.v)
    ensures forall l, f, e :: 0 <= l < |d.v| && f in d.v[l] && e in f.run ==> e.ik.seqno < MAX_SEQUENCE
  {
    forall l, f, e | 0 <= l < |d.v| && f in d.v[l] && e in f.run
      ensures e.ik.seqno < MAX_SEQUENCE
    {
      StoredInFile(d.v, l, f, e);
      assert e in Stored(d.mem, ImmRun(d), d.v);
    }
  }

  lemma PublishKeepsAll(d: Db)
    requires Inv(d) && |d.v| == NUM_LEVELS
    ensures Inv(d.(last := d.applied)) && (ReadsOk(d) ==> ReadsOk(d.(last := d.applied)))
  {
    hide Inv, Apply;
    PublishMakes(d);
    PublishKeepsInv(0, d);
  }

  lemma PublishMakes(d: Db)
    requires |d.v| == NUM_LEVELS
    ensures Enabled(0, d, Publish) && Apply(0, d, Publish) == d.(last := d.applied)
  {
  }
}
