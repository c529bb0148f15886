/** Deleting obsolete files while versions are in use and tables are being written
    (db/db_impl.cc DeleteObsoleteFiles, db/version_set.cc AddLiveFiles and AppendVersion).  */
module Cleanup {
  import opened Keys

  /** A version in the linked list: the tables it lists, its reference count, and how many of
      those references clients hold. */
  datatype Version = Version(tables: set<nat>, refs: nat, clients: nat)

  /** The flush of the immutable memtable: between Built and its end the table is no longer a
      pending output and not yet in a version. */
  datatype Flush =
    | NoFlush
    | Building(number: nat, created: bool)
    | Built(number: nat, created: bool, log: nat)

  datatype Compaction = NoCompaction | Compacting(input: nat, inputs: set<nat>, outputs: set<nat>, created: set<nat>)

  /** `tables` and `logs` are the files on disk. */
  datatype State = State(tables: set<nat>, logs: set<nat>, versions: map<nat, Version>, current: nat, nextVersion: nat,
                         next: nat, logNumber: nat, memLog: nat, immLog: Option<nat>, pending: set<nat>, error: bool,
                         flush: Flush, compaction: Compaction)

  datatype Action =
    | Switch
    | RefCurrent
    | UnrefVersion(v: nat)
    | StartFlush
    | CreateTable
    | EndBuild
    | InstallFlush(ok: bool)
    | BeginCompaction(inputs: set<nat>)
    | OpenOutput
    | CreateOutput(n: nat)
    | InstallCompaction(ok: bool)
    | DeleteObsolete

  function Initial(): State {
    State({}, {1}, map[0 := Version({}, 1, 0)], 0, 1, 2, 1, 1, None, {}, false, NoFlush, NoCompaction)
  }

  // ------------------------------------------------------------------ versions

  function Ref(versions: map<nat, Version>, v: nat, client: bool): map<nat, Version>
    requires v in versions
  {
    var x := versions[v];
    versions[v := x.(refs := x.refs + 1, clients := if client then x.clients + 1 else x.clients)]
  }

  /** Dropping the last reference unlinks the version. */
  function Unref(versions: map<nat, Version>, v: nat, client: bool): map<nat, Version>
    requires v in versions && versions[v].refs > 0 && (client ==> versions[v].clients > 0)
  {
    var x := versions[v];
    if x.refs == 1 then versions - {v}
    else versions[v := x.(refs := x.refs - 1, clients := if client then x.clients - 1 else x.clients)]
  }

  /** AppendVersion: the new version becomes current, and the old one loses a reference. */
  function Append(d: State, tables: set<nat>): State
    requires d.current in d.versions && d.versions[d.current].refs > 0
  {
    var versions := Unref(d.versions, d.current, false);
    d.(versions := versions[d.nextVersion := Version(tables, 1, 0)], current := d.nextVersion,
      nextVersion := d.nextVersion + 1)
  }

  /** AddLiveFiles, over all versions in the list. */
  function LiveTables(versions: map<nat, Version>): set<nat> {
    set v, n | v in versions && n in versions[v].tables :: n
  }

  // ------------------------------------------------------------------ the steps

  ghost predicate Enabled(d: State, a: Action) {
    match a
    case Switch => d.immLog.None? && !d.error
    case RefCurrent => d.current in d.versions
    case UnrefVersion(v) => v in d.versions && d.versions[v].refs > 0 && d.versions[v].clients > 0
    // One background thread: it flushes alone or within a compaction.
    case StartFlush => d.immLog.Some? && d.flush.NoFlush? && !d.error
    case CreateTable => d.flush.Building? && !d.flush.created
    case EndBuild => d.flush.Building?
    case InstallFlush(_) => d.flush.Built? && d.current in d.versions && d.versions[d.current].refs > 0
    case BeginCompaction(inputs) =>
      && d.compaction.NoCompaction? && d.flush.NoFlush? && !d.error
      && d.current in d.versions && inputs <= d.versions[d.current].tables
    case OpenOutput => d.compaction.Compacting? && d.flush.NoFlush?
    case CreateOutput(n) => d.compaction.Compacting? && n in d.compaction.outputs && n !in d.compaction.created
    case InstallCompaction(ok) =>
      && d.compaction.Compacting? && d.flush.NoFlush?
      && (ok ==> d.compaction.created == d.compaction.outputs)
      && d.current in d.versions && d.versions[d.current].refs > 0
      && d.compaction.input in d.versions &&
         d.versions[d.compaction.input].refs > (if d.compaction.input == d.current then 1 else 0)
    // Called by the background thread between flushes, by either kind of work.
    case DeleteObsolete => d.flush.NoFlush? && !d.error
  }

  function AfterDelete(d: State): State {
    var live := d.pending + LiveTables(d.versions);
    d.(tables := d.tables * live, logs := set n | n in d.logs && n >= d.logNumber)
  }

  ghost function Apply(d: State, a: Action): State
    requires Enabled(d, a)
  {
    match a
    case Switch =>
      d.(immLog := Some(d.memLog), memLog := d.next, logs := d.logs + {d.next}, next := d.next + 1)
    case RefCurrent => d.(versions := Ref(d.versions, d.current, true))
    case UnrefVersion(v) => d.(versions := Unref(d.versions, v, true))
    case StartFlush => d.(flush := Building(d.next, false), pending := d.pending + {d.next}, next := d.next + 1)
    case CreateTable => d.(flush := Building(d.flush.number, true), tables := d.tables + {d.flush.number})
    case EndBuild =>
      d.(flush := Built(d.flush.number, d.flush.created, d.memLog), pending := d.pending - {d.flush.number})
    case InstallFlush(ok) =>
      var f := d.flush;
      if !ok then d.(flush := NoFlush, error := true)
      else
        var added := if f.created then {f.number} else {};
        Append(d, d.versions[d.current].tables + added).(flush := NoFlush, immLog := None, logNumber := f.log)
    case BeginCompaction(inputs) =>
      d.(versions := Ref(d.versions, d.current, false), compaction := Compacting(d.current, inputs, {}, {}))
    case OpenOutput =>
      var c := d.compaction;
      d.(compaction := c.(outputs := c.outputs + {d.next}), pending := d.pending + {d.next}, next := d.next + 1)
    case CreateOutput(n) =>
      var c := d.compaction;
      d.(compaction := c.(created := c.created + {n}), tables := d.tables + {n})
    case InstallCompaction(ok) =>
      var c := d.compaction;
      var d' := if ok then Append(d, d.versions[d.current].tables - c.inputs + c.outputs) else d.(error := true);
      // CleanupCompaction and ReleaseInputs.
      d'.(pending := d.pending - c.outputs, versions := Unref(d'.versions, c.input, false), compaction := NoCompaction)
    case DeleteObsolete => AfterDelete(d)
  }

  // ------------------------------------------------------------------ what must not be deleted

  /** Tables some live version lists, and tables being produced. */
  function NeededTables(d: State): set<nat> {
    LiveTables(d.versions)
    + (if !d.flush.NoFlush? && d.flush.created then {d.flush.number} else {})
    + (if d.compaction.Compacting? then d.compaction.created else {})
  }

  /** Logs holding writes that are not in a table yet. */
  function NeededLogs(d: State): set<nat> {
    {d.memLog} + if d.immLog.Some? then {d.immLog.value} else {}
  }

  ghost predicate Safe(d: State) {
    NeededTables(d) <= d.tables && NeededLogs(d) <= d.logs
  }

  // ------------------------------------------------------------------ the invariant

  /** References are held by clients, by being current, and by the running compaction. */
  ghost predicate RefsOk(d: State) {
    && d.current in d.versions && d.current < d.nextVersion
    && (d.compaction.Compacting? ==> d.compaction.input in d.versions)
    && forall v :: v in d.versions ==>
         && v < d.nextVersion && d.versions[v].refs > 0
         && d.versions[v].refs == d.versions[v].clients + (if v == d.current then 1 else 0)
                                  + (if d.compaction.Compacting? && v == d.compaction.input then 1 else 0)
  }

  ghost predicate NumbersOk(d: State) {
    && (forall n :: n in NeededTables(d) ==> n < d.next)
    && (forall n :: n in d.pending ==> n < d.next)
    && d.memLog < d.next
    && (!d.flush.NoFlush? ==> d.flush.number < d.next)
  }

  ghost predicate WorkOk(d: State) {
    && (d.flush.Building? ==> d.flush.number in d.pending)
    && (!d.flush.NoFlush? ==> d.immLog.Some?)
    && (d.flush.Built? ==> d.flush.log == d.memLog)
    && (d.compaction.Compacting? ==>
          && d.compaction.created <= d.compaction.outputs <= d.pending
          && (!d.flush.NoFlush? ==> d.flush.number !in d.compaction.outputs))
  }

  ghost predicate LogsOk(d: State) {
    && d.logNumber <= d.memLog
    && (d.immLog.Some? ==> d.logNumber <= d.immLog.value < d.memLog)
  }

  ghost predicate Inv(d: State) {
    Safe(d) && RefsOk(d) && NumbersOk(d) && WorkOk(d) && LogsOk(d)
  }

  // ------------------------------------------------------------------ steps

  lemma RefKeepsSame(versions: map<nat, Version>, v: nat, client: bool)
    requires v in versions
    ensures LiveTables(Ref(versions, v, client)) == LiveTables(versions)
  {
    var versions' := Ref(versions, v, client);
    forall n ensures n in LiveTables(versions') <==> n in LiveTables(versions) {
      if n in LiveTables(versions) {
        var x :| x in versions && n in versions[x].tables;
        assert x in versions' && n in versions'[x].tables;
      }
    }
  }

  lemma UnrefKeepsFewer(versions: map<nat, Version>, v: nat, client: bool)
    requires v in versions && versions[v].refs > 0 && (client ==> versions[v].clients > 0)
    ensures LiveTables(Unref(versions, v, client)) <= LiveTables(versions)
  {
  }

  lemma AppendLives(d: State, tables: set<nat>)
    requires d.current in d.versions && d.versions[d.current].refs > 0
    ensures LiveTables(Append(d, tables).versions) <= LiveTables(d.versions) + tables
  {
  }

  lemma SwitchKeeps(d: State)
    requires Inv(d) && Enabled(d, Switch)
    ensures Inv(Apply(d, Switch))
  {
    hide LiveTables;
  }

  lemma RefKeeps(d: State)
    requires Inv(d) && Enabled(d, RefCurrent)
    ensures Inv(Apply(d, RefCurrent))
  {
    hide LiveTables;
    RefKeepsSame(d.versions, d.current, true);
  }

  lemma UnrefKeeps(d: State, v: nat)
    requires Inv(d) && Enabled(d, UnrefVersion(v))
    ensures Inv(Apply(d, UnrefVersion(v)))
  {
    UnrefKeepsRefs(d, v);
    UnrefKeepsFewer(d.versions, v, true);
    hide LiveTables, RefsOk, Unref;
  }

  lemma UnrefKeepsRefs(d: State, v: nat)
    requires RefsOk(d) && Enabled(d, UnrefVersion(v))
    ensures RefsOk(Apply(d, UnrefVersion(v)))
  {
  }

  lemma FlushStepKeeps(d: State, a: Action)
    requires Inv(d) && Enabled(d, a) && (a.StartFlush? || a.CreateTable? || a.EndBuild?)
    ensures Inv(Apply(d, a))
  {
    hide LiveTables;
  }

  lemma CompactionStepKeeps(d: State, a: Action)
    requires Inv(d) && Enabled(d, a) && (a.BeginCompaction? || a.OpenOutput? || a.CreateOutput?)
    ensures Inv(Apply(d, a))
  {
    hide LiveTables;
    if a.BeginCompaction? {
      RefKeepsSame(d.versions, d.current, false);
    }
  }

  lemma DeleteKeeps(d: State)
    requires Inv(d) && Enabled(d, DeleteObsolete)
    ensures Inv(Apply(d, DeleteObsolete))
  {
    hide LiveTables;
  }

  lemma InstallFlushKeeps(d: State, ok: bool)
    requires Inv(d) && Enabled(d, InstallFlush(ok))
    ensures Inv(Apply(d, InstallFlush(ok)))
  {
    hide LiveTables;
    if ok {
      FlushInstalls(d);
    }
  }

  lemma StepKeepsInv(d: State, a: Action)
    requires Inv(d) && Enabled(d, a)
    ensures Inv(Apply(d, a))
  {
    hide Inv, Enabled, Apply;
    match a
    case Switch => SwitchKeeps(d);
    case RefCurrent => RefKeeps(d);
    case UnrefVersion(v) => UnrefKeeps(d, v);
    case StartFlush => FlushStepKeeps(d, a);
    case CreateTable => FlushStepKeeps(d, a);
    case EndBuild => FlushStepKeeps(d, a);
    case InstallFlush(ok) => InstallFlushKeeps(d, ok);
    case BeginCompaction(inputs) => CompactionStepKeeps(d, a);
    case OpenOutput => CompactionStepKeeps(d, a);
    case CreateOutput(n) => CompactionStepKeeps(d, a);
    case InstallCompaction(ok) => CompactionInstalls(d, ok);
    case DeleteObsolete => DeleteKeeps(d);
  }

  lemma FlushInstalls(d: State)
    requires Inv(d) && Enabled(d, InstallFlush(true))
    ensures Inv(Apply(d, InstallFlush(true)))
  {
    FlushKeepsRefs(d);
    FlushLives(d);
    FlushLeaves(d);
    hide LiveTables, RefsOk, Append, Unref;
  }

  /** An installed flush lists only tables the current version listed, and its own. */
  lemma FlushLives(d: State)
    requires RefsOk(d) && Enabled(d, InstallFlush(true))
    ensures LiveTables(Apply(d, InstallFlush(true)).versions) <=
            LiveTables(d.versions) + if d.flush.created then {d.flush.number} else {}
  {
    hide LiveTables;
    AppendLives(d, d.versions[d.current].tables + if d.flush.created then {d.flush.number} else {});
    VersionLives(d.versions, d.current);
  }

  /** What an installed flush leaves as it was. */
  lemma FlushLeaves(d: State)
    requires Enabled(d, InstallFlush(true))
    ensures var d', f := Apply(d, InstallFlush(true)), d.flush;
            && d'.tables == d.tables && d'.logs == d.logs && d'.next == d.next && d'.flush == NoFlush &&
               d'.compaction == d.compaction
            && d'.memLog == d.memLog && d'.immLog == None && d'.logNumber == f.log && d'.pending == d.pending
  {
    hide Unref;
  }

  lemma FlushKeepsRefs(d: State)
    requires RefsOk(d) && Enabled(d, InstallFlush(true))
    ensures RefsOk(Apply(d, InstallFlush(true)))
  {
  }

  lemma VersionLives(versions: map<nat, Version>, v: nat)
    requires v in versions
    ensures versions[v].tables <= LiveTables(versions)
  {
  }

  lemma CompactionInstalls(d: State, ok: bool)
    requires Inv(d) && Enabled(d, InstallCompaction(ok))
    ensures Inv(Apply(d, InstallCompaction(ok)))
  {
    CompactionKeepsRefs(d, ok);
    CompactionLives(d, ok);
    hide LiveTables, RefsOk, Unref, Append;
    CompactionLeaves(d, ok);
  }

  lemma CompactionKeepsRefs(d: State, ok: bool)
    requires RefsOk(d) && Enabled(d, InstallCompaction(ok))
    ensures RefsOk(Apply(d, InstallCompaction(ok)))
  {
  }

  /** An installed compaction lists only tables it or an earlier version listed or produced. */
  lemma CompactionLives(d: State, ok: bool)
    requires RefsOk(d) && Enabled(d, InstallCompaction(ok))
    ensures LiveTables(Apply(d, InstallCompaction(ok)).versions) <=
            LiveTables(d.versions) + if ok then d.compaction.outputs else {}
  {
    hide LiveTables;
    var c := d.compaction;
    VersionLives(d.versions, d.current);
    if ok {
      AppendLives(d, d.versions[d.current].tables - c.inputs + c.outputs);
      UnrefKeepsFewer(Append(d, d.versions[d.current].tables - c.inputs + c.outputs).versions, c.input, false);
    } else {
      UnrefKeepsFewer(d.versions, c.input, false);
    }
  }

  /** What an installed compaction leaves as it was. */
  lemma CompactionLeaves(d: State, ok: bool)
    requires Enabled(d, InstallCompaction(ok))
    ensures var d', c := Apply(d, InstallCompaction(ok)), d.compaction;
            && d'.tables == d.tables && d'.logs == d.logs && d'.next == d.next && d'.flush == d.flush &&
               d'.compaction == NoCompaction
            && d'.memLog == d.memLog && d'.immLog == d.immLog && d'.logNumber == d.logNumber &&
               d'.pending == d.pending - c.outputs
  {
    hide Unref;
  }

  /** Deleting obsolete files is safe exactly when no table has been built that is neither pending
      nor installed. */
  lemma DeleteIsSafeIff(d: State)
    requires Inv(d)
    ensures Safe(AfterDelete(d)) <==>
            !(d.flush.Built? && d.flush.created && d.flush.number !in d.pending + LiveTables(d.versions))
  {
  }

  /** What is obsolete goes: the tables left are those of some version in the list or of a file being produced, and
      the logs left are those from the log number on. */
  lemma OnlyLiveRemain(d: State, n: nat)
    requires Enabled(d, DeleteObsolete)
    ensures var d' := Apply(d, DeleteObsolete);
            && (n in d'.tables <==>
               n in d.tables && (n in d.pending || exists v :: v in d.versions && n in d.versions[v].tables))
            && (n in d'.logs <==> n in d.logs && n >= d.logNumber)
            && d'.versions == d.versions && d'.pending == d.pending && d'.current == d.current
  {
  }

  /** When nothing is being produced, no version is held and none but the current one is left, exactly its tables
      remain. */
  lemma QuietDeleteLeavesCurrent(d: State)
    requires Inv(d) && Enabled(d, DeleteObsolete) && d.compaction.NoCompaction? && d.pending == {}
    requires forall v :: v in d.versions ==> v == d.current
    ensures Apply(d, DeleteObsolete).tables == d.versions[d.current].tables
  {
    assert LiveTables(d.versions) == d.versions[d.current].tables;
  }

  // ------------------------------------------------------------------ whole runs

  ghost predicate IsRun(states: seq<State>, actions: seq<Action>) {
    && |states| == |actions| + 1 && states[0] == Initial()
    && forall i :: 0 <= i < |actions| ==>
       Enabled(states[i], actions[i]) && states[i + 1] == Apply(states[i], actions[i])
  }

  lemma {:induction false} RunsKeepInv(states: seq<State>, actions: seq<Action>, i: nat)
    requires IsRun(states, actions) && i < |states|
    ensures Inv(states[i])
  {
    if i > 0 {
      RunsKeepInv(states, actions, i - 1);
      assert Enabled(states[i - 1], actions[i - 1]) && states[i] == Apply(states[i - 1], actions[i - 1]);
      hide Inv, Enabled, Apply;
      StepKeepsInv(states[i - 1], actions[i - 1]);
    }
  }

  /** In every state of every run: every table a live version lists or a flush or compaction has
      produced is on disk, and so is every log with writes not yet in a table; recovery, which
      replays the logs from `logNumber` on, would replay those logs. */
  lemma NothingNeededIsDeleted(states: seq<State>, actions: seq<Action>, i: nat)
    requires IsRun(states, actions) && i < |states|
    ensures NeededTables(states[i]) <= states[i].tables
    ensures NeededLogs(states[i]) <= states[i].logs && forall n :: n in NeededLogs(states[i]) ==>
            n >= states[i].logNumber
  {
    RunsKeepInv(states, actions, i);
  }
}
