/** The manifest of a run: every edit a step of the database logs, and what replaying them recovers
    (db/version_set.cc LogAndApply, Recover and WriteSnapshot). */
module LsmManifest {
  import opened Keys
  import opened Versions
  import opened Inputs
  import opened Selection
  import opened Picking
  import opened Flushing
  import opened Building
  import opened CompactionRun
  import opened Lsm
  import opened LsmFiles
  import opened LsmEdits
  import opened LsmFlush
  import opened LsmInstall
  import opened LsmRuns

  // ------------------------------------------------------------------ the edits of a run

  /** The steps that call LogAndApply. */
  predicate LogsEdit(a: Action) {
    a.Flush? || a.Move? || a.Install?
  }

  ghost function EditOf(maxFileSize: nat, d: Db, a: Action): Edit
    requires Enabled(maxFileSize, d, a) && LogsEdit(a)
  {
    match a
    case Flush(size) =>
      var run := d.imm.value;
      if run == [] then Edit({}, [])
        else Edit({}, [(FlushLevel(maxFileSize, d.v, run), FlushedFile(d.next, size, run))])
    case Move => MoveEdit(d.running.value)
    case Install(outputs) => CompactionEdit(d.running.value, outputs)
  }

  ghost function Reserved(d: Db): set<nat> {
    if d.running.Some? then d.running.value.reserved else {}
  }

  /** Replaying all edits into one Builder over an empty version, and saving once. */
  function Replayed(edits: seq<Edit>): (v: seq<seq<File>>)
    ensures |v| == NUM_LEVELS
  {
    seq(NUM_LEVELS, l requires 0 <= l < NUM_LEVELS => Save([], ApplySeq(l, EMPTY_STATE, edits)))
  }

  // ------------------------------------------------------------------ the invariant

  /** At one level: the edits lead to the version, no file number is added twice, and no number is
      added here that is reserved or in use at a level above. */
  ghost predicate LevelLogged(l: nat, v: seq<seq<File>>, next: nat, reserved: set<nat>, edits: seq<Edit>)
    requires l < |v|
  {
    && AddedOnce(l, [], edits) && SaveSeq(l, [], edits) == v[l]
    && (forall n :: n in Numbers(EverAt(l, [], edits)) ==> n < next && n !in reserved)
    && (forall k, f :: 0 <= k < l && f in v[k] ==> f.number !in Numbers(EverAt(l, [], edits)))
  }

  ghost predicate Logged(v: seq<seq<File>>, next: nat, reserved: set<nat>, edits: seq<Edit>) {
    |v| == NUM_LEVELS && forall l :: 0 <= l < NUM_LEVELS ==> LevelLogged(l, v, next, reserved, edits)
  }

  /** Replaying a logged version's edits gives the version. */
  lemma LoggedReplays(v: seq<seq<File>>, next: nat, reserved: set<nat>, edits: seq<Edit>)
    requires Logged(v, next, reserved, edits)
    ensures Replayed(edits) == v
  {
    forall l | 0 <= l < NUM_LEVELS ensures Replayed(edits)[l] == v[l] {
      assert LevelLogged(l, v, next, reserved, edits);
      assert InOrder([]);
      ReplayIsHistory(l, [], edits);
    }
  }

  lemma EverGrows(l: nat, edits: seq<Edit>, e: Edit)
    ensures Numbers(EverAt(l, [], edits + [e])) == Numbers(EverAt(l, [], edits)) + Numbers(AddedAt(e.added, l))
  {
    assert (edits + [e])[..|edits|] == edits;
  }

  /** One more edit, whose new numbers were never used at the level. */
  lemma EditKeepsLevel(l: nat, v: seq<seq<File>>, next: nat, reserved: set<nat>, edits: seq<Edit>, e: Edit,
                       v': seq<seq<File>>, next': nat, reserved': set<nat>)
    requires l < NUM_LEVELS == |v| && v' == ApplyEdit(v, e) && LevelLogged(l, v, next, reserved, edits)
    requires DistinctAdds(e.added, l) && next <= next'
    requires forall n :: n in Numbers(AddedAt(e.added, l)) ==>
               n !in Numbers(EverAt(l, [], edits)) && n < next' && n !in reserved'
    requires forall n :: n in Numbers(EverAt(l, [], edits)) ==> n !in reserved'
    requires forall k, f :: 0 <= k < l && f in v'[k] ==>
               f.number !in Numbers(EverAt(l, [], edits)) && f.number !in Numbers(AddedAt(e.added, l))
    ensures LevelLogged(l, v', next', reserved', edits + [e])
  {
    hide AddedAt, DistinctAdds, Numbers, Save, ApplyAt, AddedOnce, EverAt, SaveSeq;
    EverGrows(l, edits, e);
    OneMoreEdit(l, edits, e);
  }

  lemma OneMoreEdit(l: nat, edits: seq<Edit>, e: Edit)
    ensures SaveSeq(l, [], edits + [e]) == Save(SaveSeq(l, [], edits), ApplyAt(l, EMPTY_STATE, e))
    ensures AddedOnce(l, [], edits) && DistinctAdds(e.added, l)
            && (forall n :: n in Numbers(AddedAt(e.added, l)) ==> n !in Numbers(EverAt(l, [], edits)))
            ==> AddedOnce(l, [], edits + [e])
  {
    hide AddedAt, DistinctAdds, Numbers, Save, ApplyAt, EverAt;
    var edits' := edits + [e];
    assert edits'[..|edits'| - 1] == edits && edits'[|edits'| - 1] == e;
  }

  /** The version and its edits stay as they are. */
  lemma NumbersAdvance(v: seq<seq<File>>, next: nat, reserved: set<nat>, edits: seq<Edit>, next': nat,
                       reserved': set<nat>)
    requires Logged(v, next, reserved, edits) && next <= next'
    requires forall n :: n in reserved' ==> n in reserved || n >= next
    ensures Logged(v, next', reserved', edits)
  {
    hide AddedOnce, SaveSeq, EverAt, Numbers;
    forall l | 0 <= l < NUM_LEVELS ensures LevelLogged(l, v, next', reserved', edits) {
      assert LevelLogged(l, v, next, reserved, edits);
    }
  }

  lemma NumbersOfOne(f: File)
    ensures Numbers({f}) == {f.number} && Numbers({}) == {}
  {
  }

  lemma NumbersOf(files: seq<File>)
    ensures Numbers(set f | f in files) == set f | f in files :: f.number
  {
  }

  lemma EmptyEdit(v: seq<seq<File>>)
    requires LevelsInOrder(v)
    ensures ApplyEdit(v, Edit({}, [])) == v
  {
    forall l | 0 <= l < NUM_LEVELS ensures ApplyEdit(v, Edit({}, []))[l] == v[l] {
      EditEffect(v, Edit({}, []), l);
      OrderedFilesAreUnique(ApplyEdit(v, Edit({}, []))[l], v[l]);
    }
  }

  // ------------------------------------------------------------------ the three kinds of edits

  lemma FlushIsLogged(v: seq<seq<File>>, next: nat, reserved: set<nat>, edits: seq<Edit>, level: nat, f: File)
    requires Logged(v, next, reserved, edits) && LevelsInOrder(v) && NumbersBelow(v, next)
    requires level < NUM_LEVELS && f.number == next && forall n :: n in reserved ==> n < next
    ensures Logged(ApplyEdit(v, Edit({}, [(level, f)])), next + 1, reserved, edits + [Edit({}, [(level, f)])])
  {
    var e := Edit({}, [(level, f)]);
    var v' := ApplyEdit(v, e);
    FlushEffect(v, level, f);
    var edits', next' := edits + [e], next + 1;
    forall l | 0 <= l < NUM_LEVELS ensures LevelLogged(l, v', next', reserved, edits') {
      hide LevelsInOrder, AddedAt, DistinctAdds, Numbers, EverAt, AddedOnce, SaveSeq, ApplyEdit;
      assert LevelLogged(l, v, next, reserved, edits);
      OneAddition(level, f, l);
      NumbersOfOne(f);
      EditKeepsLevel(l, v, next, reserved, edits, e, v', next + 1, reserved);
    }
  }

  lemma MoveIsLogged(c: Compaction, v: seq<seq<File>>, next: nat, edits: seq<Edit>)
    requires Logged(v, next, c.reserved, edits) && LevelsInOrder(v) && NumbersUnique(v) && NumbersBelow(v, next)
    requires |c.inputs0| == 1 && c.inputs1 == [] && c.level + 1 < NUM_LEVELS && c.inputs0[0] in v[c.level]
    ensures Logged(ApplyEdit(v, MoveEdit(c)), next, {}, edits + [MoveEdit(c)])
  {
    var e, f := MoveEdit(c), c.inputs0[0];
    var v', edits' := ApplyEdit(v, e), edits + [e];
    MoveEffect(v, c);
    assert c.inputs0 == [f];
    hide Replaced, LevelsInOrder, NumbersUnique, ApplyEdit;
    forall l | 0 <= l < NUM_LEVELS ensures LevelLogged(l, v', next, {}, edits') {
      assert LevelLogged(l, v, next, c.reserved, edits);
      LevelMoves(c, v, next, edits, f, l);
    }
  }

  lemma LevelMoves(c: Compaction, v: seq<seq<File>>, next: nat, edits: seq<Edit>, f: File, l: nat)
    requires |v| == NUM_LEVELS && l < NUM_LEVELS && LevelLogged(l, v, next, c.reserved, edits)
    requires NumbersUnique(v) && NumbersBelow(v, next) && c.inputs0 == [f] && c.level + 1 < NUM_LEVELS &&
             f in v[c.level]
    requires Replaced(v, ApplyEdit(v, MoveEdit(c)), c.level, [f], [], [f])
    ensures LevelLogged(l, ApplyEdit(v, MoveEdit(c)), next, {}, edits + [MoveEdit(c)])
  {
    hide NumbersUnique, AddedAt, DistinctAdds, Numbers, EverAt, AddedOnce, SaveSeq, ApplyEdit, Replaced;
    var e := MoveEdit(c);
    var v' := ApplyEdit(v, e);
    assert |v'| == NUM_LEVELS by { AppliedLength(v, e); }
    OneAddition(c.level + 1, f, l);
    NumbersOfOne(f);
    forall k: nat, g: File | 0 <= k < l && g in v'[k]
      ensures g.number !in Numbers(EverAt(l, [], edits)) && g.number !in Numbers(AddedAt(e.added, l))
    {
      MovedFrom(c, v, v', f, k, g);
    }
    EditKeepsLevel(l, v, next, c.reserved, edits, e, v', next, {});
  }

  lemma AppliedLength(v: seq<seq<File>>, e: Edit)
    requires |v| == NUM_LEVELS
    ensures |ApplyEdit(v, e)| == NUM_LEVELS
  {
  }

  lemma MovedFrom(c: Compaction, v: seq<seq<File>>, v': seq<seq<File>>, f: File, k: nat, g: File)
    requires Replaced(v, v', c.level, [f], [], [f]) && NumbersUnique(v) && f in v[c.level]
    requires k < NUM_LEVELS && g in v'[k]
    ensures (g == f && k == c.level + 1) || (g in v[k] && g.number != f.number)
  {
    ReplacedFrom(v, v', c.level, [f], [], [f], k, g);
  }

  lemma InstallIsLogged(c: Compaction, v: seq<seq<File>>, next: nat, edits: seq<Edit>, outputs: seq<File>)
    requires Logged(v, next, c.reserved, edits) && LevelsInOrder(v) && NumbersUnique(v) &&
             ReservedOk(c.reserved, v, next)
    requires c.level + 1 < NUM_LEVELS && (forall f :: f in c.inputs0 ==> f in v[c.level]) &&
             (forall f :: f in c.inputs1 ==> f in v[c.level + 1])
    requires (forall f :: f in outputs ==> f.number in c.reserved) && DistinctNumbers(outputs)
    ensures Logged(ApplyEdit(v, CompactionEdit(c, outputs)), next, {}, edits + [CompactionEdit(c, outputs)])
  {
    var e := CompactionEdit(c, outputs);
    var v', edits' := ApplyEdit(v, e), edits + [e];
    CompactionEffect(v, c, outputs);
    hide ReservedOk, Replaced, LevelsInOrder, NumbersUnique, ApplyEdit, CompactionEdit, DistinctNumbers;
    forall l | 0 <= l < NUM_LEVELS ensures LevelLogged(l, v', next, {}, edits') {
      assert LevelLogged(l, v, next, c.reserved, edits);
      LevelInstalls(c, v, next, edits, outputs, l);
    }
  }

  lemma LevelInstalls(c: Compaction, v: seq<seq<File>>, next: nat, edits: seq<Edit>, outputs: seq<File>, l: nat)
    requires |v| == NUM_LEVELS && l < NUM_LEVELS && LevelLogged(l, v, next, c.reserved, edits) &&
             ReservedOk(c.reserved, v, next)
    requires (forall f :: f in outputs ==> f.number in c.reserved) && DistinctNumbers(outputs)
    requires Replaced(v, ApplyEdit(v, CompactionEdit(c, outputs)), c.level, c.inputs0, c.inputs1, outputs)
    ensures LevelLogged(l, ApplyEdit(v, CompactionEdit(c, outputs)), next, {}, edits + [CompactionEdit(c, outputs)])
  {
    hide AddedAt, DistinctAdds, Numbers, EverAt, AddedOnce, SaveSeq, ApplyEdit, DistinctNumbers;
    var e := CompactionEdit(c, outputs);
    var v' := ApplyEdit(v, e);
    NumbersOf(outputs);
    NothingNumbered();
    AdditionsAt(c.level + 1, outputs, l);
    forall k: nat, g: File | 0 <= k < l && g in v'[k]
      ensures g.number !in Numbers(EverAt(l, [], edits)) && g.number !in Numbers(AddedAt(e.added, l))
    {
      ReplacedFrom(v, v', c.level, c.inputs0, c.inputs1, outputs, k, g);
    }
    EditKeepsLevel(l, v, next, c.reserved, edits, e, v', next, {});
  }

  lemma NothingNumbered()
    ensures Numbers({}) == {}
  {
  }

  // ------------------------------------------------------------------ steps

  /** A step logs an edit that leads to its version, or leaves the version alone. */
  lemma StepKeepsLogged(maxFileSize: nat, d: Db, a: Action, edits: seq<Edit>)
    requires Inv(d) && Enabled(maxFileSize, d, a) && Logged(d.v, d.next, Reserved(d), edits)
    ensures var d' := Apply(maxFileSize, d, a);
            Logged(d'.v, d'.next, Reserved(d'), if LogsEdit(a) then edits + [EditOf(maxFileSize, d, a)] else edits)
  {
    hide PlacesOk, LogOk, VersionOk, SnapshotsOk, BaseOk, SmallestOk, Logged, LeavesNewer, GapFree, Listed, Apart,
         ClearOf;
    match a
    case Flush(size) => FlushStep(maxFileSize, d, size, edits);
    case Move => MoveStep(maxFileSize, d, edits);
    case Install(outputs) => InstallStep(maxFileSize, d, outputs, edits);
    case _ => QuietLogged(maxFileSize, d, a, edits);
  }

  lemma QuietLogged(maxFileSize: nat, d: Db, a: Action, edits: seq<Edit>)
    requires Enabled(maxFileSize, d, a) && Logged(d.v, d.next, Reserved(d), edits) && !LogsEdit(a)
    ensures var d' := Apply(maxFileSize, d, a); Logged(d'.v, d'.next, Reserved(d'), edits)
  {
    hide Logged;
    var d' := Apply(maxFileSize, d, a);
    NumbersAdvance(d.v, d.next, Reserved(d), edits, d'.next, Reserved(d'));
  }

  lemma FlushStep(maxFileSize: nat, d: Db, size: nat, edits: seq<Edit>)
    requires Inv(d) && Enabled(maxFileSize, d, Flush(size)) && Logged(d.v, d.next, Reserved(d), edits)
    ensures var d' := Apply(maxFileSize, d, Flush(size));
            Logged(d'.v, d'.next, Reserved(d'), edits + [EditOf(maxFileSize, d, Flush(size))])
  {
    hide PlacesOk, LogOk, VersionOk, SnapshotsOk, BaseOk, SmallestOk, InputsOk, NumbersUnique, Logged, Apply,
         FlushLevel, ApplyEdit, Enabled;
    FlushMakes(maxFileSize, d, size);
    var run := d.imm.value;
    assert FilesOk(d.v, d.next) && (forall n :: n in Reserved(d) ==> n < d.next);
    if run == [] {
      EmptyEdit(d.v);
      EmptyIsLogged(d.v, d.next, Reserved(d), edits);
    } else {
      FlushLevelExists(maxFileSize, d.v, run);
      FlushIsLogged(d.v, d.next, Reserved(d), edits, FlushLevel(maxFileSize, d.v, run), FlushedFile(d.next, size, run));
    }
  }

  lemma FlushLevelExists(maxFileSize: nat, v: seq<seq<File>>, run: Run)
    requires |v| == NUM_LEVELS && run != []
    ensures FlushLevel(maxFileSize, v, run) < NUM_LEVELS
  {
    PickLevelIsClear(maxFileSize, v, Range(Some(run[0].ik.user), Some(run[|run| - 1].ik.user)));
  }

  lemma EmptyIsLogged(v: seq<seq<File>>, next: nat, reserved: set<nat>, edits: seq<Edit>)
    requires Logged(v, next, reserved, edits) && LevelsInOrder(v)
    requires forall n :: n in reserved ==> n < next
    ensures Logged(v, next + 1, reserved, edits + [Edit({}, [])])
  {
    var e := Edit({}, []);
    EmptyEdit(v);
    var edits', next' := edits + [e], next + 1;
    forall l | 0 <= l < NUM_LEVELS ensures LevelLogged(l, v, next', reserved, edits') {
      assert LevelLogged(l, v, next, reserved, edits);
      assert AddedAt([], l) == {} && Numbers({}) == {};
      EditKeepsLevel(l, v, next, reserved, edits, e, v, next + 1, reserved);
    }
  }

  lemma MoveStep(maxFileSize: nat, d: Db, edits: seq<Edit>)
    requires Inv(d) && Enabled(maxFileSize, d, Move) && Logged(d.v, d.next, Reserved(d), edits)
    ensures var d' := Apply(maxFileSize, d, Move);
            Logged(d'.v, d'.next, Reserved(d'), edits + [EditOf(maxFileSize, d, Move)])
  {
    hide PlacesOk, LogOk, VersionOk, SnapshotsOk, BaseOk, SmallestOk, Logged, ApplyEdit, NumbersUnique, LevelsInOrder,
         LeavesNewer,
      GapFree, Listed, Apart, ClearOf;
    MoveIsLogged(d.running.value, d.v, d.next, edits);
  }

  lemma InstallStep(maxFileSize: nat, d: Db, outputs: seq<File>, edits: seq<Edit>)
    requires Inv(d) && Enabled(maxFileSize, d, Install(outputs)) && Logged(d.v, d.next, Reserved(d), edits)
    ensures var d' := Apply(maxFileSize, d, Install(outputs));
            Logged(d'.v, d'.next, Reserved(d'), edits + [EditOf(maxFileSize, d, Install(outputs))])
  {
    hide PlacesOk, LogOk, VersionOk, SnapshotsOk, BaseOk, SmallestOk, Logged, ApplyEdit, NumbersUnique, LevelsInOrder,
         LeavesNewer,
      GapFree, Listed, Apart, ClearOf, CompactionEdit, Kept, MergedInputs, AllFilesOk, Disjoint, DistinctNumbers,
        IsTrivialMove;
    InstallIsLogged(d.running.value, d.v, d.next, edits, outputs);
  }

  // ------------------------------------------------------------------ whole runs

  /** A manifest record: an edit and the counters LogAndApply adds to it. */
  datatype Record = Record(edit: Edit, nextFile: nat, lastSequence: nat)

  function Edits(manifest: seq<Record>): (es: seq<Edit>)
    ensures |es| == |manifest|
  {
    seq(|manifest|, i requires 0 <= i < |manifest| => manifest[i].edit)
  }

  /** The record a step appends: the counters are those after the step. */
  ghost function RecordOf(maxFileSize: nat, d: Db, a: Action): Record
    requires Enabled(maxFileSize, d, a) && LogsEdit(a)
  {
    Record(EditOf(maxFileSize, d, a), Apply(maxFileSize, d, a).next, d.last)
  }

  /** The manifest after the first `n` steps of a run; its first record is that of an empty database. */
  ghost function ManifestOf(maxFileSize: nat, states: seq<Db>, actions: seq<Action>, n: nat): seq<Record>
    requires IsRun(maxFileSize, states, actions) && n <= |actions|
  {
    if n == 0 then [Record(Edit({}, []), 2, 0)]
    else
      ManifestOf(maxFileSize, states, actions, n - 1)
      + if LogsEdit(actions[n - 1]) then [RecordOf(maxFileSize, states[n - 1], actions[n - 1])] else []
  }

  lemma EditsGrow(manifest: seq<Record>, r: Record)
    ensures Edits(manifest + [r]) == Edits(manifest) + [r.edit]
  {
  }

  lemma {:induction false} RunIsLogged(maxFileSize: nat, states: seq<Db>, actions: seq<Action>, n: nat)
    requires IsRun(maxFileSize, states, actions) && n <= |actions|
    ensures Logged(states[n].v, states[n].next, Reserved(states[n]), Edits(ManifestOf(maxFileSize, states, actions, n)))
  {
    hide Inv, Enabled, Apply, Logged, EditOf, LogsEdit, RecordOf;
    if n == 0 {
      InitialIsLogged();
      assert Edits(ManifestOf(maxFileSize, states, actions, 0)) == [Edit({}, [])];
    } else {
      RunIsLogged(maxFileSize, states, actions, n - 1);
      RunsKeepInv(maxFileSize, states, actions, n - 1);
      NthStep(maxFileSize, states, actions, n - 1);
      hide IsRun, ManifestOf;
      StepKeepsLogged(maxFileSize, states[n - 1], actions[n - 1],
        Edits(ManifestOf(maxFileSize, states, actions, n - 1)));
      ManifestStep(maxFileSize, states, actions, n);
    }
  }

  lemma NthStep(maxFileSize: nat, states: seq<Db>, actions: seq<Action>, i: nat)
    requires IsRun(maxFileSize, states, actions) && i < |actions|
    ensures |states| == |actions| + 1
    ensures Enabled(maxFileSize, states[i], actions[i]) && states[i + 1] == Apply(maxFileSize, states[i], actions[i])
  {
    hide Enabled, Apply;
  }

  lemma ManifestStep(maxFileSize: nat, states: seq<Db>, actions: seq<Action>, n: nat)
    requires IsRun(maxFileSize, states, actions) && 0 < n <= |actions|
    requires Enabled(maxFileSize, states[n - 1], actions[n - 1])
    ensures var before, d, a := ManifestOf(maxFileSize, states, actions, n - 1), states[n - 1], actions[n - 1];
            Edits(ManifestOf(maxFileSize, states, actions, n)) ==
            if LogsEdit(a) then Edits(before) + [EditOf(maxFileSize, d, a)] else Edits(before)
  {
    NthStep(maxFileSize, states, actions, n - 1);
    hide IsRun, Enabled, Apply, EditOf, LogsEdit, ManifestOf;
    var before, d, a := ManifestOf(maxFileSize, states, actions, n - 1), states[n - 1], actions[n - 1];
    ManifestUnfolds(maxFileSize, states, actions, n);
    if LogsEdit(a) {
      EditsGrow(before, RecordOf(maxFileSize, d, a));
    } else {
      assert before + [] == before;
    }
  }

  lemma InitialIsLogged()
    ensures Logged(Initial().v, 2, {}, [Edit({}, [])])
  {
    var v := Initial().v;
    assert LevelsInOrder(v);
    EmptyEdit(v);
    assert [] + [Edit({}, [])] == [Edit({}, [])];
    var first := [Edit({}, [])];
    forall l | 0 <= l < NUM_LEVELS ensures LevelLogged(l, v, 2, {}, first) {
      assert EverAt(l, [], []) == {} && LevelLogged(l, v, 2, {}, []);
      assert AddedAt([], l) == {} && Numbers({}) == {};
      EditKeepsLevel(l, v, 2, {}, [], Edit({}, []), v, 2, {});
    }
  }

  // ------------------------------------------------------------------ the counters

  /** A step brings nothing into the tables but what a flush writes. */
  lemma StepStores(maxFileSize: nat, d: Db, a: Action)
    requires Inv(d) && Enabled(maxFileSize, d, a)
    ensures EntriesFrom(Apply(maxFileSize, d, a).v, 0) <= EntriesFrom(d.v, 0) +
            if a.Flush? then Elems(ImmRun(d)) else {}
  {
    hide Inv, Enabled, Apply, EntriesFrom, Elems, ImmRun;
    match a
    case Flush(size) => FlushStores(maxFileSize, d, size);
    case Move => MoveStores(maxFileSize, d);
    case Install(outputs) => InstallStores(maxFileSize, d, outputs);
    case _ => OthersStore(maxFileSize, d, a);
  }

  lemma OthersStore(maxFileSize: nat, d: Db, a: Action)
    requires Enabled(maxFileSize, d, a) && !LogsEdit(a)
    ensures Apply(maxFileSize, d, a).v == d.v
  {
  }

  lemma FlushStores(maxFileSize: nat, d: Db, size: nat)
    requires Inv(d) && Enabled(maxFileSize, d, Flush(size))
    ensures EntriesFrom(Apply(maxFileSize, d, Flush(size)).v, 0) == EntriesFrom(d.v, 0) + Elems(ImmRun(d))
  {
    hide VersionOk, LevelsInOrder, LogOk, PlacesOk, SnapshotsOk, InputsOk, BaseOk, SmallestOk, ApplyEdit, WithFile,
         Enabled,
      NumbersUnique, Stored, Apply, FlushLevel, FileOk, EntriesFrom;
    FlushMakes(maxFileSize, d, size);
    var run := d.imm.value;
    if run != [] {
      var f, l := FlushedFile(d.next, size, run), FlushLevel(maxFileSize, d.v, run);
      FlushedFileFits(maxFileSize, d.mem, run, d.v, d.log, d.next, size);
      WithFileStores(d.v, ApplyEdit(d.v, Edit({}, [(l, f)])), l, f);
    }
  }

  lemma MoveStores(maxFileSize: nat, d: Db)
    requires Inv(d) && Enabled(maxFileSize, d, Move)
    ensures EntriesFrom(Apply(maxFileSize, d, Move).v, 0) == EntriesFrom(d.v, 0)
  {
    hide FilesOk, LogOk, PlacesOk, SnapshotsOk, InputsOk, BaseOk, SmallestOk, ApplyEdit, MoveEdit, Grandparents,
         EntriesFrom;
    MoveKeepsFiles(d.running.value, d.v, d.next);
  }

  lemma InstallStores(maxFileSize: nat, d: Db, outputs: seq<File>)
    requires Inv(d) && Enabled(maxFileSize, d, Install(outputs))
    ensures EntriesFrom(Apply(maxFileSize, d, Install(outputs)).v, 0) <= EntriesFrom(d.v, 0)
  {
    InstallIsOk(maxFileSize, d, outputs);
    InstallMakes(maxFileSize, d, outputs);
    hide Inv, Enabled, Apply, ApplyEdit, CompactionEdit, EntriesFrom, LeftEntries;
    hide Installable;
    InstallKeepsFiles(d.running.value, d.v, d.next, outputs);
  }

  /** What a record's counters promise of the version its edit leads to. */
  ghost predicate Counted(r: Record, d: Db) {
    && r.nextFile <= d.next && r.lastSequence <= d.last && NumbersBelow(d.v, r.nextFile)
    && forall e :: e in EntriesFrom(d.v, 0) ==> e.ik.seqno <= r.lastSequence
  }

  /** What is on its way into the tables is visible to readers. */
  ghost predicate Visible(d: Db) {
    forall e :: e in Elems(ImmRun(d)) + EntriesFrom(d.v, 0) ==> e.ik.seqno <= d.last
  }

  lemma StepKeepsVisible(maxFileSize: nat, d: Db, a: Action)
    requires Inv(d) && Visible(d) && Enabled(maxFileSize, d, a)
    ensures Visible(Apply(maxFileSize, d, a))
  {
    StepStores(maxFileSize, d, a);
    VisibleMoves(maxFileSize, d, a);
    hide EntriesFrom, Inv, Enabled, Apply;
  }

  /** The last sequence number only grows, and a memtable is switched when all of it is visible. */
  lemma VisibleMoves(maxFileSize: nat, d: Db, a: Action)
    requires Inv(d) && Enabled(maxFileSize, d, a)
    ensures var d' := Apply(maxFileSize, d, a);
            && d.last <= d'.last && d.next <= d'.next
            && (Elems(ImmRun(d')) <= Elems(ImmRun(d)) || forall e :: e in Elems(ImmRun(d')) ==> e.ik.seqno <= d'.last)
  {
    hide FilesOk, SnapshotsOk, InputsOk, BaseOk, SmallestOk, ReservedOk, ApplyEdit, EntriesFrom, FlushLevel, Pick,
         Kept, MergedInputs;
    var d' := Apply(maxFileSize, d, a);
    if a.Switch? {
      forall e | e in Elems(ImmRun(d')) ensures e.ik.seqno <= d'.last {
        assert e in Elems(d.mem) && e in Stored(d.mem, ImmRun(d), d.v) && e in d.log;
      }
    }
  }

  lemma StepKeepsCounted(maxFileSize: nat, d: Db, a: Action, r: Record)
    requires Inv(d) && Visible(d) && Enabled(maxFileSize, d, a) && Counted(r, d)
    ensures Counted(if LogsEdit(a) then RecordOf(maxFileSize, d, a) else r, Apply(maxFileSize, d, a))
  {
    hide EntriesFrom, Inv, Enabled, Apply, EditOf, NumbersBelow, LogsEdit, Elems;
    StepStores(maxFileSize, d, a);
    VisibleMoves(maxFileSize, d, a);
    if LogsEdit(a) {
      EditsKeepLast(maxFileSize, d, a);
      NumbersStayBelow(maxFileSize, d, a);
      FlushLogsEdit(a);
    } else {
      OthersStore(maxFileSize, d, a);
      FlushLogsEdit(a);
    }
  }

  lemma FlushLogsEdit(a: Action)
    ensures a.Flush? ==> LogsEdit(a)
  {
  }

  lemma NumbersStayBelow(maxFileSize: nat, d: Db, a: Action)
    requires Inv(d) && Enabled(maxFileSize, d, a)
    ensures var d' := Apply(maxFileSize, d, a); NumbersBelow(d'.v, d'.next)
  {
    hide Enabled, Apply;
    StepKeepsInv(maxFileSize, d, a);
  }

  lemma EditsKeepLast(maxFileSize: nat, d: Db, a: Action)
    requires Enabled(maxFileSize, d, a) && LogsEdit(a)
    ensures Apply(maxFileSize, d, a).last == d.last
  {
  }

  lemma InitialIsCounted()
    ensures Counted(Record(Edit({}, []), 2, 0), Initial()) && Visible(Initial())
  {
    NothingStored(Initial().v, 0);
    hide EntriesFrom;
  }

  lemma ManifestUnfolds(maxFileSize: nat, states: seq<Db>, actions: seq<Action>, n: nat)
    requires IsRun(maxFileSize, states, actions) && 0 < n <= |actions| &&
             Enabled(maxFileSize, states[n - 1], actions[n - 1])
    ensures ManifestOf(maxFileSize, states, actions, n) ==
            ManifestOf(maxFileSize, states, actions, n - 1)
            + if LogsEdit(actions[n - 1]) then [RecordOf(maxFileSize, states[n - 1], actions[n - 1])] else []
  {
    NthStep(maxFileSize, states, actions, n - 1);
    hide IsRun, Enabled, Apply, EditOf, LogsEdit, RecordOf;
  }

  ghost predicate LastCounted(manifest: seq<Record>, d: Db) {
    manifest != [] && Counted(manifest[|manifest| - 1], d)
  }

  lemma CountedOnward(maxFileSize: nat, d: Db, a: Action, manifest: seq<Record>)
    requires Inv(d) && Visible(d) && Enabled(maxFileSize, d, a) && LastCounted(manifest, d)
    ensures LastCounted(manifest + if LogsEdit(a) then [RecordOf(maxFileSize, d, a)] else [], Apply(maxFileSize, d, a))
  {
    hide Inv, Enabled, Apply, Counted, Visible, RecordOf, LogsEdit;
    StepKeepsCounted(maxFileSize, d, a, manifest[|manifest| - 1]);
    assert manifest + [] == manifest;
  }

  lemma {:induction false} RunIsCounted(maxFileSize: nat, states: seq<Db>, actions: seq<Action>, n: nat)
    requires IsRun(maxFileSize, states, actions) && n <= |actions|
    ensures LastCounted(ManifestOf(maxFileSize, states, actions, n), states[n]) && Visible(states[n])
  {
    if n == 0 {
      InitialIsCounted();
    } else {
      RunIsCounted(maxFileSize, states, actions, n - 1);
      RunsKeepInv(maxFileSize, states, actions, n - 1);
      NthStep(maxFileSize, states, actions, n - 1);
      hide IsRun, Inv, Enabled, Apply, LastCounted, Visible, RecordOf, LogsEdit, ManifestOf;
      StepKeepsVisible(maxFileSize, states[n - 1], actions[n - 1]);
      CountedOnward(maxFileSize, states[n - 1], actions[n - 1], ManifestOf(maxFileSize, states, actions, n - 1));
      ManifestUnfolds(maxFileSize, states, actions, n);
    }
  }

  /** Over every run: replaying the manifest into one Builder gives the current version, at every
      level, and the last record's counters lie above every file number and sequence number in it. */
  lemma ManifestReplays(maxFileSize: nat, states: seq<Db>, actions: seq<Action>, n: nat)
    requires IsRun(maxFileSize, states, actions) && n <= |actions|
    ensures var manifest := ManifestOf(maxFileSize, states, actions, n);
            Replayed(Edits(manifest)) == states[n].v && LastCounted(manifest, states[n])
  {
    RunIsLogged(maxFileSize, states, actions, n);
    RunIsCounted(maxFileSize, states, actions, n);
    hide LastCounted, Visible, ManifestOf, Replayed, Logged;
    NthState(maxFileSize, states, actions, n);
    LoggedReplays(states[n].v, states[n].next, Reserved(states[n]), Edits(ManifestOf(maxFileSize, states, actions, n)));
  }

  lemma NthState(maxFileSize: nat, states: seq<Db>, actions: seq<Action>, n: nat)
    requires IsRun(maxFileSize, states, actions) && n <= |actions|
    ensures n < |states|
  {
  }

  // ------------------------------------------------------------------ the leading snapshot record

  /** The files of a version, level by level. */
  function FilesOf(v: seq<seq<File>>, n: nat): seq<(nat, File)>
    requires n <= |v|
  {
    if n == 0 then [] else FilesOf(v, n - 1) + Additions(n - 1, v[n - 1])
  }

  /** WriteSnapshot: the whole version as one edit. */
  function SnapshotEdit(v: seq<seq<File>>): Edit {
    Edit({}, FilesOf(v, |v|))
  }

  lemma {:induction false} FilesOfAre(v: seq<seq<File>>, n: nat, l: nat)
    requires n <= |v| && forall k :: 0 <= k < |v| ==> DistinctNumbers(v[k])
    ensures AddedAt(FilesOf(v, n), l) == if l < n then (set f | f in v[l]) else {}
    ensures DistinctAdds(FilesOf(v, n), l)
  {
    if n > 0 {
      hide DistinctNumbers;
      FilesOfAre(v, n - 1, l);
      AdditionsAt(n - 1, v[n - 1], l);
      AddsConcat(FilesOf(v, n - 1), Additions(n - 1, v[n - 1]), l);
    }
  }

  lemma AddsConcat(a: seq<(nat, File)>, b: seq<(nat, File)>, l: nat)
    ensures AddedAt(a + b, l) == AddedAt(a, l) + AddedAt(b, l)
    ensures DistinctAdds(a, l) && DistinctAdds(b, l) && Numbers(AddedAt(a, l)) !! Numbers(AddedAt(b, l)) ==>
            DistinctAdds(a + b, l)
  {
    forall f ensures f in AddedAt(a + b, l) <==> f in AddedAt(a, l) || f in AddedAt(b, l) {
      if f in AddedAt(a, l) { assert (l, f) in a && (l, f) in a + b; }
      if f in AddedAt(b, l) { assert (l, f) in b && (l, f) in a + b; }
    }
    if DistinctAdds(a, l) && DistinctAdds(b, l) && Numbers(AddedAt(a, l)) !! Numbers(AddedAt(b, l)) {
      forall i, j | 0 <= i < j < |a + b| && (a + b)[i].0 == l && (a + b)[j].0 == l
        ensures (a + b)[i].1.number != (a + b)[j].1.number
      {
        if i < |a| <= j {
          assert a[i].1 in AddedAt(a, l) && b[j - |a|].1 in AddedAt(b, l);
          assert a[i].1.number in Numbers(AddedAt(a, l)) && b[j - |a|].1.number in Numbers(AddedAt(b, l));
        }
      }
    }
  }

  /** A snapshot record alone leads to the version it was written from. */
  lemma SnapshotIsLogged(v: seq<seq<File>>, next: nat)
    requires LevelsInOrder(v) && NumbersUnique(v) && NumbersBelow(v, next)
    ensures Logged(v, next, {}, [SnapshotEdit(v)])
  {
    var edits := [SnapshotEdit(v)];
    forall k | 0 <= k < |v| ensures DistinctNumbers(v[k]) { OrderedHasDistinctNumbers(v[k]); }
    forall l | 0 <= l < NUM_LEVELS ensures ApplyEdit(Initial().v, SnapshotEdit(v))[l] == v[l] {
      SnapshotSaves(v, l);
    }
    assert ApplyEdit(Initial().v, SnapshotEdit(v)) == v;
    forall l | 0 <= l < NUM_LEVELS ensures LevelLogged(l, v, next, {}, edits) {
      SnapshotLevel(v, next, l);
    }
  }

  lemma SnapshotLevel(v: seq<seq<File>>, next: nat, l: nat)
    requires |v| == NUM_LEVELS && NumbersUnique(v) && NumbersBelow(v, next) && l < NUM_LEVELS
    requires ApplyEdit(Initial().v, SnapshotEdit(v)) == v && forall k :: 0 <= k < |v| ==> DistinctNumbers(v[k])
    ensures LevelLogged(l, v, next, {}, [SnapshotEdit(v)])
  {
    var e := SnapshotEdit(v);
    FilesOfAre(v, |v|, l);
    NumbersOf(v[l]);
    assert [] + [e] == [e];
    assert EverAt(l, [], []) == {} && LevelLogged(l, Initial().v, next, {}, []);
    NothingNumbered();
    hide ApplyEdit, FilesOf, DistinctAdds, DistinctNumbers, Numbers, AddedAt, EverAt, LevelLogged;
    EditKeepsLevel(l, Initial().v, next, {}, [], e, v, next, {});
  }

  lemma SnapshotSaves(v: seq<seq<File>>, l: nat)
    requires LevelsInOrder(v) && l < NUM_LEVELS && forall k :: 0 <= k < |v| ==> DistinctNumbers(v[k])
    ensures ApplyEdit(Initial().v, SnapshotEdit(v))[l] == v[l]
  {
    var empty, e := Initial().v, SnapshotEdit(v);
    FilesOfAre(v, |v|, l);
    EditEffect(empty, e, l);
    hide FilesOf, AddedAt, Save, ApplyAt;
    OrderedFilesAreUnique(ApplyEdit(empty, e)[l], v[l]);
  }
}
