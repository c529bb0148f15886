/** The database as a state machine: writes, memtable switches, flushes, snapshots and
    compactions, in any interleaving (db/db_impl.cc, db/version_set.cc, db/snapshot.h).  */
module Lsm {
  import opened Keys
  import opened Versions
  import opened Inputs
  import opened Selection
  import opened Picking
  import opened Flushing
  import opened Merging
  import opened CompactionRun
  import opened Building

  /** A running compaction: its inputs, smallest_snapshot, input version, and the file
      numbers it has reserved for its outputs (pending_outputs_). */
  datatype Compaction = Compaction(level: nat, inputs0: seq<File>, inputs1: seq<File>, smallest: nat,
                                   base: seq<seq<File>>, reserved: set<nat>)

  /** `log` is every write ever inserted into a memtable; `floor` is the greatest
      smallest_snapshot any installed compaction has used.  Neither is read by the database. */
  datatype Db = Db(mem: Run, imm: Option<Run>, v: seq<seq<File>>, last: nat, applied: nat,
                   snapshots: seq<nat>, next: nat, running: Option<Compaction>,
                   log: seq<Entry>, floor: nat)

  function Initial(): Db {
    Db([], None, seq(NUM_LEVELS, _ => []), 0, 0, [], 2, None, [], 0)
  }

  datatype Action =
    | Insert(user: UserKey, typ: ValueType, value: string)
    | Publish
    | Switch
    | Flush(size: nat)
    | TakeSnapshot
    | ReleaseSnapshot(index: nat)
    | Begin(level: nat, seed: File)
    | Reserve
    | Move
    | Install(outputs: seq<File>)

  // ------------------------------------------------------------------ reading

  function ImmRun(d: Db): Run {
    if d.imm.Some? then d.imm.value else []
  }

  /** DBImpl::Get: the memtable, the immutable memtable, then the files. */
  function Get(d: Db, user: UserKey, s: nat): Option<Entry> {
    var a := RunGet(d.mem, user, s);
    if a.Some? then a else
    var b := RunGet(ImmRun(d), user, s);
    if b.Some? then b else GetFrom(d.v, 0, user, s)
  }

  ghost function Stored(mem: Run, imm: Run, v: seq<seq<File>>): set<Entry> {
    Elems(mem) + Elems(imm) + EntriesFrom(v, 0)
  }

  ghost function All(d: Db): set<Entry> {
    Stored(d.mem, ImmRun(d), d.v)
  }

  // ------------------------------------------------------------------ the steps

  function MemInsert(mem: Run, e: Entry): Run {
    var n := LowerBound(mem, e.ik);
    mem[..n] + [e] + mem[n..]
  }

  function ApplyEdit(v: seq<seq<File>>, e: Edit): seq<seq<File>>
    requires |v| == NUM_LEVELS
  {
    seq(NUM_LEVELS, l requires 0 <= l < NUM_LEVELS => Save(v[l], ApplyAt(l, EMPTY_STATE, e)))
  }

  function FlushedFile(number: nat, size: nat, run: Run): File
    requires run != []
  {
    File(number, size, run[0].ik, run[|run| - 1].ik, run)
  }

  ghost function FlushLevel(maxFileSize: nat, v: seq<seq<File>>, run: Run): nat
    requires |v| == NUM_LEVELS && run != []
  {
    PickLevel(maxFileSize, v, Range(Some(run[0].ik.user), Some(run[|run| - 1].ik.user)))
  }

  function Deletions(level: nat, files: seq<File>): set<(nat, nat)> {
    set f | f in files :: (level, f.number)
  }

  function Additions(level: nat, files: seq<File>): seq<(nat, File)> {
    seq(|files|, i requires 0 <= i < |files| => (level, files[i]))
  }

  function CompactionEdit(c: Compaction, outputs: seq<File>): Edit {
    Edit(Deletions(c.level, c.inputs0) + Deletions(c.level + 1, c.inputs1), Additions(c.level + 1, outputs))
  }

  function MoveEdit(c: Compaction): Edit
    requires |c.inputs0| == 1
  {
    Edit({(c.level, c.inputs0[0].number)}, [(c.level + 1, c.inputs0[0])])
  }

  function Grandparents(c: Compaction): seq<File>
    requires |c.base| == NUM_LEVELS && c.inputs0 != []
  {
    if c.level + 2 < NUM_LEVELS
    then OverlappingInputs(c.level + 2, c.base[c.level + 2], UserRange(c.inputs0 + c.inputs1)) else []
  }

  predicate IsTrivialMove(maxFileSize: nat, c: Compaction) {
    |c.base| == NUM_LEVELS && |c.inputs0| == 1 && c.inputs1 == []
    && TotalFileSize(Grandparents(c)) <= 10 * maxFileSize
  }

  function Runs(files: seq<File>): seq<Run> {
    seq(|files|, i requires 0 <= i < |files| => files[i].run)
  }

  /** MakeInputIterator: level-0 files separately, any other level as one concatenation. */
  function InputRuns(c: Compaction): seq<Run> {
    (if c.level == 0 then Runs(c.inputs0) else [Contents(c.inputs0)]) + [Contents(c.inputs1)]
  }

  /** What the merging iterator over the inputs of a compaction yields. */
  function MergedInputs(c: Compaction): Run {
    Merge(InputRuns(c))
  }

  function SmallestSnapshot(d: Db): nat {
    if d.snapshots == [] then d.last else d.snapshots[0]
  }

  ghost predicate Enabled(maxFileSize: nat, d: Db, a: Action) {
    && |d.v| == NUM_LEVELS
    && match a
       case Insert(_, _, _) => d.applied + 1 < MAX_SEQUENCE
       case Publish => true
       case Switch => d.imm.None? && d.applied == d.last
       case Flush(_) => d.imm.Some?
       case TakeSnapshot => true
       case ReleaseSnapshot(i) => i < |d.snapshots|
       case Begin(level, seed) =>
         d.running.None? && d.imm.None? && level + 1 < NUM_LEVELS && Bounded(d.v[level]) && seed in d.v[level]
       case Reserve => d.running.Some?
       case Move => d.running.Some? && IsTrivialMove(maxFileSize, d.running.value)
       case Install(outputs) =>
         && d.running.Some? && !IsTrivialMove(maxFileSize, d.running.value)
         && AllFilesOk(outputs) && Disjoint(outputs)
         && (forall f :: f in outputs ==> f.number in d.running.value.reserved)
         && DistinctNumbers(outputs)
         && var c := d.running.value; var m := MergedInputs(c);
            Contents(outputs) == Kept(c.base, c.level, c.smallest, m, |m|)
  }

  ghost function Apply(maxFileSize: nat, d: Db, a: Action): Db
    requires Enabled(maxFileSize, d, a)
  {
    match a
    case Insert(user, typ, value) =>
      var e := Entry(IKey(user, d.applied + 1, typ), value);
      d.(mem := MemInsert(d.mem, e), applied := d.applied + 1, log := d.log + [e])
    case Publish => d.(last := d.applied)
    case Switch => d.(imm := Some(d.mem), mem := [])
    case Flush(size) =>
      var run := d.imm.value;
      if run == [] then d.(imm := None, next := d.next + 1)
      else
        var f := FlushedFile(d.next, size, run);
        d.(imm := None, next := d.next + 1,
           v := ApplyEdit(d.v, Edit({}, [(FlushLevel(maxFileSize, d.v, run), f)])))
    case TakeSnapshot => d.(snapshots := d.snapshots + [d.last])
    case ReleaseSnapshot(i) => d.(snapshots := d.snapshots[..i] + d.snapshots[i + 1..])
    case Begin(level, seed) =>
      var c := Pick(maxFileSize, level, d.v[level], d.v[level + 1], seed);
      d.(running := Some(Compaction(level, c.inputs0, c.inputs1, SmallestSnapshot(d), d.v, {})))
    case Reserve =>
      var c := d.running.value;
      d.(next := d.next + 1, running := Some(c.(reserved := c.reserved + {d.next})))
    case Move =>
      var c := d.running.value;
      d.(running := None, v := ApplyEdit(d.v, MoveEdit(c)))
    case Install(outputs) =>
      var c := d.running.value;
      d.(running := None, floor := c.smallest, v := ApplyEdit(d.v, CompactionEdit(c, outputs)))
  }

  // ------------------------------------------------------------------ the invariant

  ghost predicate LogOk(log: seq<Entry>, applied: nat, last: nat) {
    && Chronological(log)
    && (forall e :: e in log ==> e.ik.seqno <= applied)
    && last <= applied < MAX_SEQUENCE
  }

  /** Every stored entry was written, and newer places hold newer entries. */
  ghost predicate PlacesOk(mem: Run, imm: Run, v: seq<seq<File>>, log: seq<Entry>) {
    && Sorted(mem) && Sorted(imm)
    && Stored(mem, imm, v) <= Elems(log)
    && Newer(Elems(mem), Elems(imm))
    && Newer(Elems(mem) + Elems(imm), EntriesFrom(v, 0))
  }

  ghost predicate NumbersUnique(v: seq<seq<File>>) {
    forall l, m, f, g :: 0 <= l < |v| && 0 <= m < |v| && f in v[l] && g in v[m] && f.number == g.number ==>
      l == m && f == g
  }

  ghost predicate LevelsInOrder(v: seq<seq<File>>) {
    |v| == NUM_LEVELS && forall l :: 0 <= l < NUM_LEVELS ==> InOrder(v[l])
  }

  ghost predicate NumbersBelow(v: seq<seq<File>>, next: nat) {
    forall l, f :: 0 <= l < |v| && f in v[l] ==> f.number < next
  }

  ghost predicate FilesOk(v: seq<seq<File>>, next: nat) {
    VersionOk(v) && LevelsInOrder(v) && NumbersUnique(v) && NumbersBelow(v, next)
  }

  /** SnapshotList: the oldest snapshot comes first and is the least; none is below `floor`. */
  ghost predicate SnapshotsOk(floor: nat, last: nat, snapshots: seq<nat>) {
    && floor <= last
    && (forall i :: 0 <= i < |snapshots| ==> floor <= snapshots[i] <= last)
    && (forall i, j :: 0 <= i < j < |snapshots| ==> snapshots[i] <= snapshots[j])
  }

  ghost predicate ClearOf(f: File, inputs: seq<File>) {
    forall g :: g in inputs ==> f.largest.user < g.smallest.user || g.largest.user < f.smallest.user
  }

  /** The inputs of a running compaction: still in place, closed, and without gaps. */
  ghost predicate InputsOk(c: Compaction, v: seq<seq<File>>) {
    && |v| == NUM_LEVELS && c.level + 1 < NUM_LEVELS
    && c.inputs0 != []
    && (forall f :: f in c.inputs0 ==> f in v[c.level])
    && (forall f :: f in c.inputs1 ==> f in v[c.level + 1])
    && LeavesNewer(v[c.level], c.inputs0)
    && (forall f :: f in v[c.level + 1] && f !in c.inputs1 ==> Apart(f, c.inputs0 + c.inputs1) && ClearOf(f, c.inputs0))
    && GapFree(c.inputs0 + c.inputs1)
    && Listed(c.level, c.inputs0) && Listed(c.level + 1, c.inputs1)
  }

  /** Files that appeared below the compaction's level since it began hold none of its keys. */
  ghost predicate BaseOk(c: Compaction, v: seq<seq<File>>) {
    && |c.base| == NUM_LEVELS && |v| == NUM_LEVELS
    && (forall l :: c.level + 2 <= l < NUM_LEVELS ==> AllFilesOk(c.base[l]) && Disjoint(c.base[l]))
    && forall l, f :: c.level + 1 <= l < NUM_LEVELS && f in v[l] ==> f in c.base[l] || ClearOf(f, c.inputs0 + c.inputs1)
  }

  /** smallest_snapshot is at or below every sequence number that can still be read. */
  ghost predicate SmallestOk(c: Compaction, floor: nat, last: nat, snapshots: seq<nat>) {
    floor <= c.smallest <= last && forall i :: 0 <= i < |snapshots| ==> c.smallest <= snapshots[i]
  }

  ghost predicate ReservedOk(reserved: set<nat>, v: seq<seq<File>>, next: nat) {
    && (forall n :: n in reserved ==> n < next)
    && (forall l, f :: 0 <= l < |v| && f in v[l] ==> f.number !in reserved)
  }

  ghost predicate Inv(d: Db) {
    && LogOk(d.log, d.applied, d.last)
    && PlacesOk(d.mem, ImmRun(d), d.v, d.log)
    && FilesOk(d.v, d.next)
    && SnapshotsOk(d.floor, d.last, d.snapshots)
    && (d.running.Some? ==>
          var c := d.running.value;
          && InputsOk(c, d.v) && BaseOk(c, d.v)
          && SmallestOk(c, d.floor, d.last, d.snapshots)
          && ReservedOk(c.reserved, d.v, d.next))
  }

  /** Reads at every sequence number from `floor` up agree with replaying all writes. */
  ghost predicate ReadsOk(d: Db) {
    forall user, s: nat :: s >= d.floor ==> Answer(Get(d, user, s)) == Lookup(Replay(d.log, s), user)
  }
}
