/** Crashes: what of the database is on disk, and what opening it again recovers (db/db_impl.cc Write,
    MakeRoomForWrite, CompactMemTable, Recover and RecoverLogFile; db/version_set.cc Recover). */
module Crashes {
  import opened Keys
  import opened Versions
  import opened Building
  import opened Lsm
  import opened LsmManifest
  import opened WriteBatches

  // ------------------------------------------------------------------ what is on disk

  /** A write-ahead log: one record per write group, of which the first `synced` are safe. */
  datatype LogFile = LogFile(number: nat, records: seq<seq<Entry>>, synced: nat)

  datatype Counters = Counters(logNumber: nat, nextFile: nat, lastSequence: nat)

  /** A manifest record; the record of a whole version carries no counters. */
  datatype ManifestRecord = ManifestRecord(edit: Edit, counters: Option<Counters>)

  function EditsIn(manifest: seq<ManifestRecord>): (es: seq<Edit>)
    ensures |es| == |manifest|
  {
    seq(|manifest|, i requires 0 <= i < |manifest| => manifest[i].edit)
  }

  /** The last counters a manifest records. */
  function LastCounters(manifest: seq<ManifestRecord>): Counters {
    if manifest == [] then Counters(0, 0, 0)
    else if manifest[|manifest| - 1].counters.Some? then manifest[|manifest| - 1].counters.value
    else LastCounters(manifest[..|manifest| - 1])
  }

  function Flat<T>(ss: seq<seq<T>>): seq<T> {
    if ss == [] then [] else Flat(ss[..|ss| - 1]) + ss[|ss| - 1]
  }

  /** The database in memory and on disk.  `base`, `immPart` and `memPart` are the writes in the tables, in
      the immutable memtable and in the memtable; `pending` are those logged but not yet inserted;
      `synced` are all writes of which the log was ever synced. */
  datatype Sys = Sys(db: Db, logs: seq<LogFile>, manifest: seq<ManifestRecord>,
                     base: seq<Entry>, immPart: seq<Entry>, memPart: seq<Entry>, pending: seq<Entry>,
                       synced: set<Entry>)

  datatype Step =
    | Append(ops: seq<Op>)
    | SyncLog
    | Do(a: Action)
    | DeleteLogs
    | Crash(cuts: seq<nat>, chunks: seq<seq<Entry>>, sizes: seq<nat>, numbers: seq<nat>, newLog: nat)

  /** A new database, opened: manifest 2 and log 3. */
  function SysInitial(): Sys {
    Sys(Initial().(next := 4), [LogFile(3, [], 0)],
        [ManifestRecord(Edit({}, []), None), ManifestRecord(Edit({}, []), Some(Counters(3, 4, 0)))], [], [], [], [], {})
  }

  function Current(s: Sys): LogFile
    requires s.logs != []
  {
    s.logs[|s.logs| - 1]
  }

  function WithCurrent(s: Sys, f: LogFile): Sys
    requires s.logs != []
  {
    s.(logs := s.logs[|s.logs| - 1 := f])
  }

  // ------------------------------------------------------------------ recovery

  /** The records of a log that survive a crash. */
  function Cut(f: LogFile, k: nat): seq<Entry>
    requires k <= |f.records|
  {
    Flat(f.records[..k])
  }

  ghost predicate CutsOk(logs: seq<LogFile>, cuts: seq<nat>) {
    |cuts| == |logs| && forall i :: 0 <= i < |logs| ==> logs[i].synced <= cuts[i] <= |logs[i].records|
  }

  /** The writes replayed: those that survive in the logs from `logNumber` on, in the order of the logs. */
  ghost function Survivors(logs: seq<LogFile>, cuts: seq<nat>, logNumber: nat): seq<Entry>
    requires CutsOk(logs, cuts)
  {
    if logs == [] then []
    else
      var n := |logs| - 1;
      Survivors(logs[..n], cuts[..n], logNumber) + if logs[n].number >= logNumber then Cut(logs[n], cuts[n]) else []
  }

  /** A memtable filled by replaying writes. */
  function MemOf(es: seq<Entry>): Run {
    if es == [] then [] else MemInsert(MemOf(es[..|es| - 1]), es[|es| - 1])
  }

  /** Replayed memtables become tables of level 0. */
  function TableOf(chunk: seq<Entry>, size: nat, number: nat): File
    requires MemOf(chunk) != []
  {
    FlushedFile(number, size, MemOf(chunk))
  }

  ghost predicate ChunksOk(chunks: seq<seq<Entry>>, sizes: seq<nat>, numbers: seq<nat>, nextFile: nat, newLog: nat) {
    && |chunks| == |sizes| == |numbers|
    && (forall i :: 0 <= i < |chunks| ==> MemOf(chunks[i]) != [] && nextFile < numbers[i] < newLog)
    && (forall i, j :: 0 <= i < j < |numbers| ==> numbers[i] < numbers[j])
  }

  function Tables(chunks: seq<seq<Entry>>, sizes: seq<nat>, numbers: seq<nat>): (fs: seq<File>)
    requires |chunks| == |sizes| == |numbers| && forall i :: 0 <= i < |chunks| ==> MemOf(chunks[i]) != []
    ensures |fs| == |chunks|
  {
    seq(|chunks|, i requires 0 <= i < |chunks| => TableOf(chunks[i], sizes[i], numbers[i]))
  }

  function LastSeqno(es: seq<Entry>): nat {
    if es == [] then 0 else es[|es| - 1].ik.seqno
  }

  function Min(a: nat, b: nat): nat {
    if a < b then a else b
  }

  function Max(a: nat, b: nat): nat {
    if a < b then b else a
  }

  /** The database after a crash and reopening. */
  ghost function Recovered(s: Sys, cuts: seq<nat>, chunks: seq<seq<Entry>>, sizes: seq<nat>, numbers: seq<nat>,
                           newLog: nat): Sys
    requires CutsOk(s.logs, cuts) && ChunksOk(chunks, sizes, numbers, LastCounters(s.manifest).nextFile, newLog)
  {
    var k := LastCounters(s.manifest);
    var survivors := Survivors(s.logs, cuts, k.logNumber);
    var v := Replayed(EditsIn(s.manifest));
    var e := Edit({}, Additions(0, Tables(chunks, sizes, numbers)));
    var last := Max(k.lastSequence, LastSeqno(survivors));
    var db := Db([], None, ApplyEdit(v, e), last, last, [], newLog + 1, None, s.base + survivors,
      Min(s.db.floor, LastSeqno(s.base)));
    Sys(db, [LogFile(newLog, [], 0)],
        [ManifestRecord(SnapshotEdit(v), None), ManifestRecord(e, Some(Counters(newLog, newLog + 1, last)))],
        s.base + survivors, [], [], [], s.synced)
  }

  // ------------------------------------------------------------------ the steps

  ghost predicate CanStep(maxFileSize: nat, s: Sys, step: Step) {
    && s.logs != []
    && match step
       case Append(ops) => s.pending == [] && s.db.applied == s.db.last && s.db.applied + |ops| + 1 < MAX_SEQUENCE
       case SyncLog => true
       case Do(a) =>
         && Lsm.Enabled(maxFileSize, s.db, a)
         && (a.Insert? ==> s.pending != [] && s.pending[0] == Entry(IKey(a.user, s.db.applied + 1, a.typ), a.value))
         && (a.Publish? || a.Switch? ==> s.pending == [])
       case DeleteLogs => true
       case Crash(cuts, chunks, sizes, numbers, newLog) =>
         && CutsOk(s.logs, cuts)
         && ChunksOk(chunks, sizes, numbers, LastCounters(s.manifest).nextFile, newLog)
         && Flat(chunks) == Survivors(s.logs, cuts, LastCounters(s.manifest).logNumber)
         && LastCounters(s.manifest).nextFile < newLog
  }

  /** The log part of a step of the database. */
  ghost function Took(maxFileSize: nat, s: Sys, a: Action): Sys
    requires CanStep(maxFileSize, s, Do(a))
  {
    var d := Lsm.Apply(maxFileSize, s.db, a);
    if a.Insert? then
      s.(db := d, memPart := s.memPart + [s.pending[0]], pending := s.pending[1..])
    else if a.Switch? then
      // The new log takes the next file number.
      s.(db := d.(next := d.next + 1), logs := s.logs + [LogFile(d.next, [], 0)], immPart := s.memPart, memPart := [])
    else if LogsEdit(a) then
      var logNumber := if a.Flush? then Current(s).number else LastCounters(s.manifest).logNumber;
      var r := ManifestRecord(EditOf(maxFileSize, s.db, a), Some(Counters(logNumber, d.next, d.last)));
      var s' := s.(db := d, manifest := s.manifest + [r]);
      if a.Flush? then s'.(base := s.base + s.immPart, immPart := []) else s'
    else s.(db := d)
  }

  ghost function After(maxFileSize: nat, s: Sys, step: Step): Sys
    requires CanStep(maxFileSize, s, step)
  {
    match step
    case Append(ops) =>
      var es := Numbered(s.db.applied + 1, ops);
      WithCurrent(s, Current(s).(records := Current(s).records + [es])).(pending := es)
    case SyncLog =>
      WithCurrent(s, Current(s).(synced := |Current(s).records|)).(synced := s.synced + Elems(s.memPart + s.pending))
    case Do(a) => Took(maxFileSize, s, a)
    case DeleteLogs => s.(logs := KeptLogs(s.logs, LastCounters(s.manifest).logNumber))
    case Crash(cuts, chunks, sizes, numbers, newLog) => Recovered(s, cuts, chunks, sizes, numbers, newLog)
  }

  /** DeleteObsoleteFiles keeps the logs from the recorded log number on. */
  function KeptLogs(logs: seq<LogFile>, logNumber: nat): seq<LogFile> {
    if logs == [] then [] else
    KeptLogs(logs[..|logs| - 1], logNumber) + if logs[|logs| - 1].number >= logNumber then [logs[|logs| - 1]] else []
  }

  // ------------------------------------------------------------------ the invariant

  /** The writes and where they are. */
  ghost predicate PartsOk(s: Sys) {
    && s.db.log == s.base + s.immPart + s.memPart
    && Elems(s.db.mem) == Elems(s.memPart)
    && Elems(ImmRun(s.db)) == Elems(s.immPart)
    && (s.db.imm.None? ==> s.immPart == [])
    && EntriesFrom(s.db.v, 0) <= Elems(s.base)
    && (forall e :: e in s.base + s.immPart ==> e.ik.seqno <= s.db.last)
    && (forall i :: 0 <= i < |s.pending| ==> s.pending[i].ik.seqno == s.db.applied + 1 + i)
    && s.db.applied + |s.pending| + 1 < MAX_SEQUENCE
  }

  /** The logs from the recorded number on are the memtables' logs. */
  ghost predicate LogsOk(s: Sys) {
    var n, k := |s.logs|, LastCounters(s.manifest);
    && n > 0
    && (forall i :: 0 <= i < n ==> s.logs[i].synced <= |s.logs[i].records| && s.logs[i].number < s.db.next)
    && (forall i, j :: 0 <= i < j < n ==> s.logs[i].number < s.logs[j].number)
    && s.logs[n - 1].number >= k.logNumber
    && Flat(s.logs[n - 1].records) == s.memPart + s.pending
    && (if s.db.imm.Some? then
          n >= 2 && s.logs[n - 2].number >= k.logNumber && Flat(s.logs[n - 2].records) == s.immPart
          && (n >= 3 ==> s.logs[n - 3].number < k.logNumber)
        else n >= 2 ==> s.logs[n - 2].number < k.logNumber)
  }

  /** What has been synced is in the tables or in the synced part of a log that will be replayed. */
  ghost predicate SyncedOk(s: Sys)
    requires LogsOk(s)
  {
    var n := |s.logs|;
    forall e :: e in s.synced ==>
      || e in s.base
      || e in Cut(s.logs[n - 1], s.logs[n - 1].synced)
      || (s.db.imm.Some? && e in Cut(s.logs[n - 2], s.logs[n - 2].synced))
  }

  ghost predicate ManifestOk(s: Sys) {
    var k := LastCounters(s.manifest);
    && Logged(s.db.v, s.db.next, Reserved(s.db), EditsIn(s.manifest))
    && k.nextFile <= s.db.next && NumbersBelow(s.db.v, k.nextFile)
    && k.lastSequence <= s.db.last && forall e :: e in s.base ==> e.ik.seqno <= k.lastSequence
  }

  ghost predicate SysInv(s: Sys) {
    Inv(s.db) && PartsOk(s) && LogsOk(s) && SyncedOk(s) && ManifestOk(s)
  }

  // ------------------------------------------------------------------ the durable part

  /** The database of the tables alone. */
  function Durable(s: Sys): Db {
    var bound := LastSeqno(s.base);
    Db([], None, s.db.v, bound, bound, [], s.db.next,
       if s.db.running.Some? then Some(s.db.running.value.(smallest := Min(s.db.running.value.smallest, bound)))
         else None,
       s.base, Min(s.db.floor, bound))
  }
}
