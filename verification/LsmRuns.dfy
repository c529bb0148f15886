/** The main theorems about whole runs of the database. */
module LsmRuns {
  import opened Keys
  import opened Versions
  import opened Selection
  import opened Picking
  import opened Lsm
  import opened LsmSteps
  import opened LsmFlush
  import opened LsmCompaction
  import opened LsmInstall
  import opened CompactionReads

  // ------------------------------------------------------------------ one step

  lemma StepKeepsInv(maxFileSize: nat, d: Db, a: Action)
    requires Inv(d) && Enabled(maxFileSize, d, a)
    ensures Inv(Apply(maxFileSize, d, a))
    ensures !a.Insert? && !a.Install? ==> All(Apply(maxFileSize, d, a)) == All(d)
  {
    hide Inv, Enabled, Apply, All;
    match a
    case Insert(user, typ, value) => InsertKeepsInv(maxFileSize, d, user, typ, value);
    case Publish => PublishKeepsInv(maxFileSize, d); QuietStep(maxFileSize, d, a);
    case Switch => SwitchKeepsInv(maxFileSize, d);
    case Flush(size) => FlushKeepsInv(maxFileSize, d, size);
    case TakeSnapshot => TakeSnapshotKeepsInv(maxFileSize, d); QuietStep(maxFileSize, d, a);
    case ReleaseSnapshot(i) => ReleaseSnapshotKeepsInv(maxFileSize, d, i); QuietStep(maxFileSize, d, a);
    case Begin(level, seed) => BeginKeepsInv(maxFileSize, d, level, seed); QuietStep(maxFileSize, d, a);
    case Reserve => ReserveKeepsInv(maxFileSize, d); QuietStep(maxFileSize, d, a);
    case Move => MoveKeepsInv(maxFileSize, d);
    case Install(outputs) => InstallKeepsInv(maxFileSize, d, outputs);
  }

  /** Steps that move no entry. */
  lemma QuietStep(maxFileSize: nat, d: Db, a: Action)
    requires Enabled(maxFileSize, d, a)
    requires a.Publish? || a.TakeSnapshot? || a.ReleaseSnapshot? || a.Begin? || a.Reserve?
    ensures All(Apply(maxFileSize, d, a)) == All(d)
  {
  }

  lemma LogAndFloorStay(maxFileSize: nat, d: Db, a: Action)
    requires Enabled(maxFileSize, d, a) && !a.Insert? && !a.Install?
    ensures Apply(maxFileSize, d, a).log == d.log && Apply(maxFileSize, d, a).floor == d.floor
  {
  }

  /** The install uncovers an old value: a deleted key reads as present again. */
  ghost predicate Resurrects(d: Db, a: Action) {
    && a.Install? && d.running.Some? && d.running.value.level + 1 < |d.v|
    && exists user :: Uncovers(d, d.running.value, user)
  }

  ghost predicate SameReads(d: Db, d': Db, user: UserKey, from: nat) {
    forall s: nat :: s >= from ==> Answer(Get(d', user, s)) == Answer(Get(d, user, s))
  }

  lemma ReadsStayIffSame(d: Db, d': Db)
    requires ReadsOk(d) && d.floor <= d'.floor && d'.log == d.log
    ensures ReadsOk(d') <==> forall user :: SameReads(d, d', user, d'.floor)
  {
    hide Get, Replay;
    if ReadsOk(d') {
      forall user ensures SameReads(d, d', user, d'.floor) {}
    }
    if forall user :: SameReads(d, d', user, d'.floor) {
      forall user, s: nat | s >= d'.floor ensures Answer(Get(d', user, s)) == Lookup(Replay(d'.log, s), user) {
        assert SameReads(d, d', user, d'.floor);
      }
    }
  }

  lemma InstallRaisesFloor(maxFileSize: nat, d: Db, outputs: seq<File>)
    requires Inv(d) && Enabled(maxFileSize, d, Install(outputs))
    ensures d.running.Some? && d.running.value.level + 1 < |d.v|
    ensures var d' := Apply(maxFileSize, d, Install(outputs));
            d.floor <= d'.floor == d.running.value.smallest && d'.log == d.log
  {
    InstallMakes(maxFileSize, d, outputs);
    hide Enabled, Apply, ApplyEdit, CompactionEdit, LogOk, PlacesOk, FilesOk, BaseOk, ReservedOk, SnapshotsOk,
      LeavesNewer, GapFree, Listed, Apart, ClearOf;
  }

  lemma InstallKeepsReadsIff(maxFileSize: nat, d: Db, outputs: seq<File>)
    requires Inv(d) && ReadsOk(d) && Enabled(maxFileSize, d, Install(outputs))
    ensures ReadsOk(Apply(maxFileSize, d, Install(outputs))) <==> !Resurrects(d, Install(outputs))
  {
    hide Inv, Enabled, Apply, ReadsOk, Uncovers;
    var d' := Apply(maxFileSize, d, Install(outputs));
    InstallRaisesFloor(maxFileSize, d, outputs);
    ReadsStayIffSame(d, d');
    var c := d.running.value;
    forall user ensures SameReads(d, d', user, d'.floor) <==> !Uncovers(d, c, user) {
      InstallPreservesReadsIff(maxFileSize, d, outputs, user);
    }
  }

  /** A step keeps reads exact if and only if it is not an install that uncovers an old value. */
  lemma StepKeepsReadsIff(maxFileSize: nat, d: Db, a: Action)
    requires Inv(d) && ReadsOk(d) && Enabled(maxFileSize, d, a)
    ensures ReadsOk(Apply(maxFileSize, d, a)) <==> !Resurrects(d, a)
  {
    hide Inv, Enabled, Apply, ReadsOk, All, Uncovers;
    StepKeepsInv(maxFileSize, d, a);
    if a.Insert? {
      InsertKeepsReads(maxFileSize, d, a.user, a.typ, a.value);
    } else if a.Install? {
      InstallKeepsReadsIff(maxFileSize, d, a.outputs);
    } else {
      LogAndFloorStay(maxFileSize, d, a);
      SameEntriesSameReads(d, Apply(maxFileSize, d, a));
    }
  }

  ghost predicate Steps(maxFileSize: nat, d: Db, a: Action, d': Db) {
    Enabled(maxFileSize, d, a) && d' == Apply(maxFileSize, d, a)
  }

  lemma StepKeeps(maxFileSize: nat, d: Db, a: Action, d': Db)
    requires Inv(d) && Steps(maxFileSize, d, a, d')
    ensures Inv(d') && |d'.v| == NUM_LEVELS
    ensures ReadsOk(d) ==> (ReadsOk(d') <==> !Resurrects(d, a))
  {
    hide ReadsOk, Enabled, Apply, Resurrects;
    StepKeepsInv(maxFileSize, d, a);
    assert FilesOk(d'.v, d'.next);
    hide Inv;
    if ReadsOk(d) {
      StepKeepsReadsIff(maxFileSize, d, a);
    }
  }

  // ------------------------------------------------------------------ runs

  ghost predicate IsRun(maxFileSize: nat, states: seq<Db>, actions: seq<Action>) {
    && |states| == |actions| + 1 && states[0] == Initial()
    && forall i :: 0 <= i < |actions| ==>
         Enabled(maxFileSize, states[i], actions[i]) && states[i + 1] == Apply(maxFileSize, states[i], actions[i])
  }

  lemma RunExtends(maxFileSize: nat, states: seq<Db>, actions: seq<Action>, a: Action)
    requires IsRun(maxFileSize, states, actions) && Enabled(maxFileSize, states[|actions|], a)
    ensures IsRun(maxFileSize, states + [Apply(maxFileSize, states[|actions|], a)], actions + [a])
  {
    hide Enabled, Apply;
    var states', actions' := states + [Apply(maxFileSize, states[|actions|], a)], actions + [a];
    forall i | 0 <= i < |actions'|
      ensures Enabled(maxFileSize, states'[i], actions'[i]) &&
              states'[i + 1] == Apply(maxFileSize, states'[i], actions'[i])
    {
      if i < |actions| {
        assert states'[i] == states[i] && states'[i + 1] == states[i + 1];
      }
    }
  }

  lemma {:induction false} NothingStored(v: seq<seq<File>>, l: nat)
    requires forall m :: 0 <= m < |v| ==> v[m] == []
    ensures EntriesFrom(v, l) == {}
    decreases |v| - l
  {
    if l < |v| { NothingStored(v, l + 1); }
  }

  lemma InitialFilesOk(v: seq<seq<File>>)
    requires |v| == NUM_LEVELS && forall m :: 0 <= m < |v| ==> v[m] == []
    ensures FilesOk(v, 2)
  {
  }

  lemma InitialIsOk()
    ensures Inv(Initial()) && ReadsOk(Initial())
  {
    hide FilesOk;
    InitialFilesOk(Initial().v);
    NothingStored(Initial().v, 0);
    assert PlacesOk([], [], Initial().v, []);
    assert LogOk([], 0, 0) && SnapshotsOk(0, 0, []);
    hide PlacesOk, LogOk, SnapshotsOk, Get, EntriesFrom;
    forall user, s: nat ensures Answer(Get(Initial(), user, s)) == Lookup(Replay([], s), user) {
      GetFindsInv(Initial(), user, s);
    }
  }

  /** Every state of every run satisfies the invariant: levels sorted and disjoint, newer places
      holding newer entries, compaction inputs closed. */
  lemma {:induction false} RunsKeepInv(maxFileSize: nat, states: seq<Db>, actions: seq<Action>, i: nat)
    requires IsRun(maxFileSize, states, actions) && i < |states|
    ensures Inv(states[i])
  {
    if i == 0 {
      InitialIsOk();
    } else {
      RunsKeepInv(maxFileSize, states, actions, i - 1);
      assert Enabled(maxFileSize, states[i - 1], actions[i - 1]) &&
             states[i] == Apply(maxFileSize, states[i - 1], actions[i - 1]);
      hide Inv, Enabled, Apply;
      StepKeepsInv(maxFileSize, states[i - 1], actions[i - 1]);
    }
  }

  ghost predicate NeverResurrects(states: seq<Db>, actions: seq<Action>, n: nat)
    requires n <= |actions| < |states|
  {
    forall i :: 0 <= i < n ==> !Resurrects(states[i], actions[i])
  }

  lemma {:induction false} ReadsStayExact(maxFileSize: nat, states: seq<Db>, actions: seq<Action>, n: nat)
    requires IsRun(maxFileSize, states, actions) && n < |states|
    requires NeverResurrects(states, actions, n)
    ensures ReadsOk(states[n])
  {
    if n == 0 {
      InitialIsOk();
    } else {
      ReadsStayExact(maxFileSize, states, actions, n - 1);
      RunsKeepInv(maxFileSize, states, actions, n - 1);
      assert Enabled(maxFileSize, states[n - 1], actions[n - 1]) &&
             states[n] == Apply(maxFileSize, states[n - 1], actions[n - 1]);
      hide Inv, Enabled, Apply, ReadsOk, Resurrects;
      StepKeepsReadsIff(maxFileSize, states[n - 1], actions[n - 1]);
    }
  }

  /** Over a whole run, reads agree with replaying the writes in every state if and only if no
      install of the run uncovers an old value. */
  lemma {:induction false} RunReadsExactIff(maxFileSize: nat, states: seq<Db>, actions: seq<Action>)
    requires IsRun(maxFileSize, states, actions)
    ensures (forall n :: 0 <= n < |states| ==> ReadsOk(states[n])) <==> NeverResurrects(states, actions, |actions|)
  {
    if NeverResurrects(states, actions, |actions|) {
      forall n | 0 <= n < |states| ensures ReadsOk(states[n]) {
        ReadsStayExact(maxFileSize, states, actions, n);
      }
    } else {
      var i :| 0 <= i < |actions| && Resurrects(states[i], actions[i]);
      assert Enabled(maxFileSize, states[i], actions[i]) && states[i + 1] == Apply(maxFileSize, states[i], actions[i]);
      RunsKeepInv(maxFileSize, states, actions, i);
      hide Inv, Enabled, Apply, ReadsOk, Resurrects;
      if ReadsOk(states[i]) {
        StepKeepsReadsIff(maxFileSize, states[i], actions[i]);
      }
    }
  }

  /** A read that is still possible: the latest sequence number or a live snapshot. */
  ghost predicate Readable(d: Db, s: nat) {
    s == d.last || s in d.snapshots
  }

  /** What a client sees: every read at a live snapshot, in every state, returns what replaying
      the writes up to that snapshot gives, as long as every install's next-level inputs end at
      a user-key boundary. */
  lemma {:induction false} ClientReadsReplay(maxFileSize: nat, states: seq<Db>, actions: seq<Action>, n: nat,
                                             user: UserKey, s: nat)
    requires IsRun(maxFileSize, states, actions) && n < |states|
    requires forall i :: 0 <= i < n && actions[i].Install? ==>
               && states[i].running.Some?
               && states[i].running.value.level + 1 < |states[i].running.value.base|
               && NextLevelClosed(states[i].running.value)
    requires Readable(states[n], s)
    ensures Answer(Get(states[n], user, s)) == Lookup(Replay(states[n].log, s), user)
  {
    forall i | 0 <= i < n ensures !Resurrects(states[i], actions[i]) {
      RunsKeepInv(maxFileSize, states, actions, i);
      if Resurrects(states[i], actions[i]) {
        var u :| Uncovers(states[i], states[i].running.value, u);
        assert BaseOk(states[i].running.value, states[i].v);
        ClosedNextLevelIsSafe(states[i], u);
      }
    }
    ReadsStayExact(maxFileSize, states, actions, n);
    RunsKeepInv(maxFileSize, states, actions, n);
    assert SnapshotsOk(states[n].floor, states[n].last, states[n].snapshots);
  }
}
