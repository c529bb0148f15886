/** What installing a flush or a compaction means for the files on disk, and for readers that hold an
    older version (db/version_set.cc AppendVersion and Version::Unref, db/db_impl.cc DeleteObsoleteFiles). */
module HeldVersions {
  import opened Cleanup

  /** The version is there still, with its tables. */
  ghost predicate Kept(d: State, d': State, v: nat) {
    v in d.versions && v in d'.versions && d'.versions[v].tables == d.versions[v].tables
    && d'.versions[v].clients >= d.versions[v].clients
  }

  lemma HeldStaysOneStep(d: State, a: Action, v: nat)
    requires Inv(d) && Enabled(d, a) && v in d.versions && d.versions[v].clients > 0 && a != UnrefVersion(v)
    ensures Kept(d, Apply(d, a), v)
  {
    hide LiveTables, Safe, NumbersOk, WorkOk, LogsOk;
  }

  /** A version that a client holds keeps its tables, and they stay on disk, until clients let go of it: flushes,
      compactions and the deletion of obsolete files in between do not disturb a reader. */
  lemma {:induction false} HeldVersionStays(states: seq<State>, actions: seq<Action>, i: nat, j: nat, v: nat)
    requires IsRun(states, actions) && i <= j < |states|
    requires v in states[i].versions && states[i].versions[v].clients > 0
    requires forall k :: i <= k < j ==> actions[k] != UnrefVersion(v)
    ensures Kept(states[i], states[j], v) && states[i].versions[v].tables <= states[j].tables
    decreases j
  {
    hide Apply, Enabled, Inv;
    RunsKeepInv(states, actions, j);
    if i < j {
      RunsKeepInv(states, actions, j - 1);
      HeldVersionStays(states, actions, i, j - 1, v);
      assert Enabled(states[j - 1], actions[j - 1]) && states[j] == Apply(states[j - 1], actions[j - 1]);
      HeldStaysOneStep(states[j - 1], actions[j - 1], v);
    }
    TablesOnDisk(states[j], v);
  }

  lemma TablesOnDisk(d: State, v: nat)
    requires Inv(d) && v in d.versions
    ensures d.versions[v].tables <= d.tables
  {
    VersionLives(d.versions, v);
  }

  /** An installed compaction puts its outputs in the place of its inputs. */
  lemma InstallReplaces(d: State)
    requires Inv(d) && Enabled(d, InstallCompaction(true))
    ensures var d', c := Apply(d, InstallCompaction(true)), d.compaction;
            && d'.current in d'.versions
            && (forall n :: n in d'.versions[d'.current].tables <==>
                  n in c.outputs || (n in d.versions[d.current].tables && n !in c.inputs))
            && (forall v :: v in d'.versions && v != d'.current ==>
                  v in d.versions && d.versions[v].clients > 0 && d'.versions[v].tables == d.versions[v].tables)
            && (forall v :: v in d.versions && d.versions[v].clients > 0 ==>
                  v in d'.versions && v != d'.current && d'.versions[v].tables == d.versions[v].tables)
  {
    hide LiveTables, Safe, NumbersOk, WorkOk, LogsOk;
  }

  ghost predicate IsRead(d: State, n: nat) {
    exists v :: v in d.versions && d.versions[v].clients > 0 && n in d.versions[v].tables
  }

  /** After that, deleting obsolete files keeps the outputs, and a table they replace stays exactly while a client
      holds a version that lists it. */
  lemma ReplacedTableStaysIff(d: State, n: nat)
    requires Inv(d) && Enabled(d, InstallCompaction(true)) && d.current in d.versions && !d.error
    requires n in d.compaction.inputs && n in d.versions[d.current].tables && n !in d.pending
    ensures var d' := Apply(d, InstallCompaction(true));
            && Enabled(d', DeleteObsolete)
            && d.compaction.outputs <= Apply(d', DeleteObsolete).tables
            && (n in Apply(d', DeleteObsolete).tables <==> IsRead(d, n))
  {
    var d' := Apply(d, InstallCompaction(true));
    InstallReplaces(d);
    CompactionLeaves(d, true);
    TablesOnDisk(d, d.current);
    StepKeepsInv(d, InstallCompaction(true));
    assert NotOutput(d, n);
    hide Inv, Apply, LiveTables;
    DeleteIs(d');
    CurrentIsLive(d');
    forall x | x in d.compaction.outputs ensures x in AfterDelete(d').tables {
      assert x in d'.versions[d'.current].tables;
    }
    if n in LiveTables(d'.versions) {
      LiveIsListed(d'.versions, n);
      var v :| v in d'.versions && n in d'.versions[v].tables;
      assert v != d'.current;
      assert IsRead(d, n);
    }
    if IsRead(d, n) {
      var v :| v in d.versions && d.versions[v].clients > 0 && n in d.versions[v].tables;
      assert n in d'.versions[v].tables;
      LiveIsListed(d'.versions, n);
    }
  }

  /** No output of the compaction, since those are all pending. */
  ghost predicate NotOutput(d: State, n: nat) {
    d.compaction.Compacting? ==> n !in d.compaction.outputs
  }

  lemma LiveIsListed(versions: map<nat, Version>, n: nat)
    ensures n in LiveTables(versions) <==> exists v :: v in versions && n in versions[v].tables
  {
  }

  lemma DeleteIs(d: State)
    requires Enabled(d, DeleteObsolete)
    ensures Apply(d, DeleteObsolete) == AfterDelete(d)
    ensures AfterDelete(d).tables == d.tables * (d.pending + LiveTables(d.versions))
  {
  }

  lemma CurrentIsLive(d: State)
    requires Inv(d)
    ensures d.current in d.versions && d.versions[d.current].tables <= d.tables * LiveTables(d.versions)
  {
    VersionLives(d.versions, d.current);
  }

  /** An installed flush adds its table to those of the current version, and the log of the flushed memtable goes
      with the next deletion. */
  lemma FlushAdds(d: State)
    requires Inv(d) && Enabled(d, InstallFlush(true)) && !d.error
    ensures var d' := Apply(d, InstallFlush(true));
            && d'.current in d'.versions && d'.current !in d.versions
            && (forall n :: n in d'.versions[d'.current].tables <==>
                  n in d.versions[d.current].tables || (n == d.flush.number && d.flush.created))
            && Enabled(d', DeleteObsolete)
            && d'.versions[d'.current].tables <= Apply(d', DeleteObsolete).tables
            && d.immLog.Some? && d.immLog.value !in Apply(d', DeleteObsolete).logs
            && d.memLog in Apply(d', DeleteObsolete).logs
  {
    var d' := Apply(d, InstallFlush(true));
    StepKeepsInv(d, InstallFlush(true));
    CurrentIsLive(d');
    hide LiveTables;
  }
}
