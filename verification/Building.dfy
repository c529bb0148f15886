/** VersionSet::Builder (db/version_set.cc): applying version edits, and replaying a manifest. */
module Building {
  import opened Keys
  import opened Versions

  /** BySmallestKey: files ordered by smallest key, ties broken by file number. */
  predicate FileBefore(f: File, g: File) {
    Less(f.smallest, g.smallest) || (f.smallest == g.smallest && f.number < g.number)
  }

  predicate InOrder(files: seq<File>) {
    forall i, j :: 0 <= i < j < |files| ==> FileBefore(files[i], files[j])
  }

  /** The file changes of a VersionEdit. */
  datatype Edit = Edit(deleted: set<(nat, nat)>, added: seq<(nat, File)>)

  datatype LevelState = LevelState(deleted: set<nat>, added: seq<File>)

  const EMPTY_STATE := LevelState({}, [])

  // ------------------------------------------------------------------ Apply

  /** std::set insertion: the set stays sorted, and an equivalent element wins over a new one. */
  function InsertFile(files: seq<File>, f: File): (r: seq<File>)
    ensures forall g :: g in files ==> g in r
    ensures forall g :: g in r ==> g in files || g == f
    ensures (forall g :: g in files ==> g.number != f.number) ==> f in r
  {
    if files == [] then [f]
    else if FileBefore(f, files[0]) then [f] + files
    else if FileBefore(files[0], f) then
      assert files == [files[0]] + files[1..];
      [files[0]] + InsertFile(files[1..], f)
    else
      LessComparesTrailers(f.smallest, files[0].smallest);
      files
  }

  lemma {:induction false} InsertFileInOrder(files: seq<File>, f: File)
    requires InOrder(files)
    ensures InOrder(InsertFile(files, f))
  {
    if files != [] && !FileBefore(f, files[0]) && FileBefore(files[0], f) {
      var rest := InsertFile(files[1..], f);
      InsertFileInOrder(files[1..], f);
      forall j | 0 <= j < |rest| ensures FileBefore(files[0], rest[j]) {
        assert rest[j] in rest;
      }
    }
  }

  function DeletedAt(e: Edit, l: nat): set<nat> {
    set d | d in e.deleted && d.0 == l :: d.1
  }

  function AddAll(l: nat, st: LevelState, added: seq<(nat, File)>): LevelState {
    if added == [] then st else
    var s := AddAll(l, st, added[..|added| - 1]);
    var (level, f) := added[|added| - 1];
    if level == l then LevelState(s.deleted - {f.number}, InsertFile(s.added, f)) else s
  }

  function ApplyAt(l: nat, st: LevelState, e: Edit): LevelState {
    AddAll(l, st.(deleted := st.deleted + DeletedAt(e, l)), e.added)
  }

  // ------------------------------------------------------------------ SaveTo

  function Undeleted(files: seq<File>, deleted: set<nat>): seq<File> {
    if files == [] then [] else
    Undeleted(files[..|files| - 1], deleted) +
      if files[|files| - 1].number in deleted then [] else [files[|files| - 1]]
  }

  /** Base files and added files in one order: each added file goes after the base files not after it. */
  function MergeFiles(base: seq<File>, added: seq<File>): seq<File> {
    if added == [] then base
    else if base == [] || FileBefore(added[0], base[0]) then
      [added[0]] + MergeFiles(base, added[1..])
    else
      [base[0]] + MergeFiles(base[1..], added)
  }

  function Save(base: seq<File>, st: LevelState): seq<File> {
    Undeleted(MergeFiles(base, st.added), st.deleted)
  }

  lemma {:induction false} UndeletedHolds(files: seq<File>, deleted: set<nat>)
    ensures forall f :: f in Undeleted(files, deleted) <==> f in files && f.number !in deleted
  {
    if files != [] {
      UndeletedHolds(files[..|files| - 1], deleted);
      assert files == files[..|files| - 1] + [files[|files| - 1]];
    }
  }

  lemma {:induction false} MergeFilesHolds(base: seq<File>, added: seq<File>)
    ensures forall f :: f in MergeFiles(base, added) <==> f in base || f in added
  {
    if added == [] {
    } else if base == [] || FileBefore(added[0], base[0]) {
      MergeFilesHolds(base, added[1..]);
      assert added == [added[0]] + added[1..];
    } else {
      MergeFilesHolds(base[1..], added);
      assert base == [base[0]] + base[1..];
    }
  }

  lemma {:induction false} UndeletedConcat(a: seq<File>, b: seq<File>, deleted: set<nat>)
    ensures Undeleted(a + b, deleted) == Undeleted(a, deleted) + Undeleted(b, deleted)
  {
    if b == [] {
      assert a + b == a;
    } else {
      assert (a + b)[..|a + b| - 1] == a + b[..|b| - 1];
      UndeletedConcat(a, b[..|b| - 1], deleted);
    }
  }

  predicate NoCommonNumbers(base: seq<File>, added: seq<File>) {
    forall f, g :: f in base && g in added ==> f.number != g.number
  }

  lemma {:induction false} MergeFilesInOrder(base: seq<File>, added: seq<File>)
    requires InOrder(base) && InOrder(added) && NoCommonNumbers(base, added)
    ensures InOrder(MergeFiles(base, added))
  {
    if added == [] {
    } else if base == [] || FileBefore(added[0], base[0]) {
      var rest := MergeFiles(base, added[1..]);
      MergeFilesInOrder(base, added[1..]);
      MergeFilesHolds(base, added[1..]);
      FirstIsBefore(added[0], base, added[1..], rest);
    } else {
      var rest := MergeFiles(base[1..], added);
      MergeFilesInOrder(base[1..], added);
      MergeFilesHolds(base[1..], added);
      assert base[0] in base && added[0] in added;
      LessComparesTrailers(base[0].smallest, added[0].smallest);
      FirstIsBefore(base[0], base[1..], added, rest);
    }
  }

  lemma FirstIsBefore(f: File, a: seq<File>, b: seq<File>, rest: seq<File>)
    requires InOrder(a) && InOrder(b) && InOrder(rest)
    requires a != [] ==> FileBefore(f, a[0])
    requires b != [] ==> FileBefore(f, b[0])
    requires forall g :: g in rest ==> g in a || g in b
    ensures InOrder([f] + rest)
  {
    forall j | 0 <= j < |rest| ensures FileBefore(f, rest[j]) {
      var g := rest[j];
      assert g in rest;
      if g in a {
        var i :| 0 <= i < |a| && a[i] == g;
      } else {
        var i :| 0 <= i < |b| && b[i] == g;
      }
    }
  }

  lemma {:induction false} UndeletedInOrder(files: seq<File>, deleted: set<nat>)
    requires InOrder(files)
    ensures InOrder(Undeleted(files, deleted))
  {
    if files != [] {
      var init, f := files[..|files| - 1], files[|files| - 1];
      UndeletedInOrder(init, deleted);
      UndeletedHolds(init, deleted);
      var r := Undeleted(init, deleted);
      forall i | 0 <= i < |r| ensures FileBefore(r[i], f) {
        assert r[i] in r;
        var k :| 0 <= k < |init| && init[k] == r[i];
        assert files[k] == r[i];
      }
    }
  }

  /** The contents and the order of a saved level. */
  lemma SaveIsSound(base: seq<File>, st: LevelState)
    requires InOrder(base) && InOrder(st.added) && NoCommonNumbers(base, st.added)
    ensures InOrder(Save(base, st))
    ensures forall f :: f in Save(base, st) <==> (f in base || f in st.added) && f.number !in st.deleted
  {
    MergeFilesInOrder(base, st.added);
    MergeFilesHolds(base, st.added);
    UndeletedHolds(MergeFiles(base, st.added), st.deleted);
    UndeletedInOrder(MergeFiles(base, st.added), st.deleted);
  }

  // ------------------------------------------------------------------ the class

  class Builder {
    const base: seq<seq<File>>
    var levels: seq<LevelState>

    ghost predicate Valid()
      reads this
    {
      |base| == NUM_LEVELS && |levels| == NUM_LEVELS && forall l :: 0 <= l < NUM_LEVELS ==> InOrder(base[l])
    }

    constructor (base: seq<seq<File>>)
      requires |base| == NUM_LEVELS && forall l :: 0 <= l < NUM_LEVELS ==> InOrder(base[l])
      ensures Valid() && this.base == base && forall l :: 0 <= l < NUM_LEVELS ==> levels[l] == EMPTY_STATE
    {
      this.base := base;
      levels := seq(NUM_LEVELS, _ => EMPTY_STATE);
    }

    ghost predicate LevelsInRange(e: Edit) {
      && (forall d :: d in e.deleted ==> d.0 < NUM_LEVELS)
      && (forall a :: a in e.added ==> a.0 < NUM_LEVELS)
    }

    method Apply(e: Edit)
      requires Valid() && LevelsInRange(e)
      modifies this
      ensures Valid()
      ensures forall l :: 0 <= l < NUM_LEVELS ==> levels[l] == ApplyAt(l, old(levels[l]), e)
    {
      ApplyDeletions(e);
      ApplyAdditions(e);
    }

    method ApplyDeletions(e: Edit)
      requires Valid() && LevelsInRange(e)
      modifies this
      ensures Valid()
      ensures forall l :: 0 <= l < NUM_LEVELS ==>
                levels[l] == old(levels[l]).(deleted := old(levels[l]).deleted + DeletedAt(e, l))
    {
      hide DeletedAt, DeletedSoFar;
      var todo := e.deleted;
      ghost var done: set<(nat, nat)> := {};
      NothingDeleted(levels);
      while todo != {}
        invariant done + todo == e.deleted && DeletedSoFar(levels, old(levels), done)
        decreases |todo|
      {
        var d :| d in todo;
        DeleteOne(levels, old(levels), done, d);
        levels := levels[d.0 := levels[d.0].(deleted := levels[d.0].deleted + {d.1})];
        todo, done := todo - {d}, done + {d};
      }
      assert done == e.deleted;
      AllDeleted(levels, old(levels), e);
    }

    /** Each level has got the deletions among `done`. */
    static ghost predicate DeletedSoFar(levels: seq<LevelState>, was: seq<LevelState>, done: set<(nat, nat)>) {
      && |levels| == |was| == NUM_LEVELS
      && forall l :: 0 <= l < NUM_LEVELS ==>
         levels[l] == was[l].(deleted := was[l].deleted + DeletedAt(Edit(done, []), l))
    }

    static lemma NothingDeleted(levels: seq<LevelState>)
      requires |levels| == NUM_LEVELS
      ensures DeletedSoFar(levels, levels, {})
    {
    }

    static lemma DeleteOne(levels: seq<LevelState>, was: seq<LevelState>, done: set<(nat, nat)>, d: (nat, nat))
      requires DeletedSoFar(levels, was, done) && d.0 < NUM_LEVELS
      ensures |levels| == NUM_LEVELS
      ensures DeletedSoFar(levels[d.0 := levels[d.0].(deleted := levels[d.0].deleted + {d.1})], was, done + {d})
    {
      hide DeletedAt;
      forall l: nat | l < NUM_LEVELS
        ensures DeletedAt(Edit(done + {d}, []), l) == DeletedAt(Edit(done, []), l) + if l == d.0 then {d.1} else {}
      {
        DeletedGrows(done, d, l);
      }
    }

    static lemma AllDeleted(levels: seq<LevelState>, was: seq<LevelState>, e: Edit)
      requires DeletedSoFar(levels, was, e.deleted)
      ensures |levels| == |was| == NUM_LEVELS
      ensures forall l :: 0 <= l < NUM_LEVELS ==> levels[l] == was[l].(deleted := was[l].deleted + DeletedAt(e, l))
    {
      assert forall l :: DeletedAt(Edit(e.deleted, []), l) == DeletedAt(e, l);
    }

    static lemma DeletedGrows(done: set<(nat, nat)>, d: (nat, nat), l: nat)
      ensures DeletedAt(Edit(done + {d}, []), l) == DeletedAt(Edit(done, []), l) + if l == d.0 then {d.1} else {}
    {
      if l == d.0 {
        assert (l, d.1) in done + {d};
      }
    }

    method ApplyAdditions(e: Edit)
      requires Valid() && LevelsInRange(e)
      modifies this
      ensures Valid()
      ensures forall l :: 0 <= l < NUM_LEVELS ==> levels[l] == AddAll(l, old(levels[l]), e.added)
    {
      for i := 0 to |e.added|
        invariant Valid()
        invariant forall l :: 0 <= l < NUM_LEVELS ==> levels[l] == AddAll(l, old(levels[l]), e.added[..i])
      {
        assert e.added[..i + 1][..i] == e.added[..i] && e.added[i] in e.added;
        var (level, f) := e.added[i];
        levels := levels[level := LevelState(levels[level].deleted - {f.number}, InsertFile(levels[level].added, f))];
      }
      assert e.added[..|e.added|] == e.added;
    }

    /** The version after the applied edits, level by level. */
    method SaveTo() returns (v: seq<seq<File>>)
      requires Valid()
      ensures |v| == NUM_LEVELS
      ensures forall l :: 0 <= l < NUM_LEVELS ==> v[l] == Save(base[l], levels[l])
    {
      v := [];
      for l := 0 to NUM_LEVELS
        invariant |v| == l && forall k :: 0 <= k < l ==> v[k] == Save(base[k], levels[k])
      {
        var files := SaveLevel(base[l], levels[l]);
        v := v + [files];
      }
    }
  }

  function MaybeAdd(f: File, deleted: set<nat>): seq<File> {
    if f.number in deleted then [] else [f]
  }

  lemma TakeBase(base: seq<File>, b: nat, added: seq<File>, deleted: set<nat>)
    requires b < |base|
    requires added == [] || !FileBefore(added[0], base[b])
    ensures Undeleted(MergeFiles(base[b..], added), deleted) ==
            MaybeAdd(base[b], deleted) + Undeleted(MergeFiles(base[b + 1..], added), deleted)
  {
    assert base[b..] == [base[b]] + base[b + 1..];
    UndeletedConcat([base[b]], MergeFiles(base[b + 1..], added), deleted);
  }

  lemma TakeAdded(base: seq<File>, added: seq<File>, a: nat, deleted: set<nat>)
    requires a < |added|
    requires base == [] || FileBefore(added[a], base[0])
    ensures Undeleted(MergeFiles(base, added[a..]), deleted) ==
            MaybeAdd(added[a], deleted) + Undeleted(MergeFiles(base, added[a + 1..]), deleted)
  {
    assert added[a..][1..] == added[a + 1..];
    UndeletedConcat([added[a]], MergeFiles(base, added[a + 1..]), deleted);
  }

  /** Copy base files up to the upper bound of the next added file, or to the end. */
  method CopyBase(base: seq<File>, from: nat, added: seq<File>, deleted: set<nat>) returns (files: seq<File>, b: nat)
    requires from <= |base|
    ensures b <= |base| && (b < |base| ==> added != [] && FileBefore(added[0], base[b]))
    ensures files + Undeleted(MergeFiles(base[b..], added), deleted) ==
            Undeleted(MergeFiles(base[from..], added), deleted)
  {
    hide Undeleted, MergeFiles, MaybeAdd;
    files, b := [], from;
    while b < |base| && (added == [] || !FileBefore(added[0], base[b]))
      invariant from <= b <= |base|
      invariant files + Undeleted(MergeFiles(base[b..], added), deleted) ==
                Undeleted(MergeFiles(base[from..], added), deleted)
    {
      TakeBase(base, b, added, deleted);
      files := files + MaybeAdd(base[b], deleted);
      b := b + 1;
    }
  }

  /** One level of SaveTo: before each added file, the base files up to its upper bound. */
  method SaveLevel(base: seq<File>, st: LevelState) returns (files: seq<File>)
    ensures files == Save(base, st)
  {
    files := [];
    var b := 0;
    for a := 0 to |st.added|
      invariant 0 <= b <= |base|
      invariant files + Undeleted(MergeFiles(base[b..], st.added[a..]), st.deleted) == Save(base, st)
    {
      var copied, next := CopyBase(base, b, st.added[a..], st.deleted);
      files, b := files + copied, next;
      TakeAdded(base[b..], st.added, a, st.deleted);
      files := files + MaybeAdd(st.added[a], st.deleted);
    }
    var copied, next := CopyBase(base, b, [], st.deleted);
    files := files + copied;
  }

  // ------------------------------------------------------------------ replaying a manifest

  /** The Builder state at level `l` after several edits. */
  function ApplySeq(l: nat, st: LevelState, edits: seq<Edit>): LevelState {
    if edits == [] then st else ApplyAt(l, ApplySeq(l, st, edits[..|edits| - 1]), edits[|edits| - 1])
  }

  /** One version after another: every edit is applied to, and saved on top of, the version before it. */
  function SaveSeq(l: nat, base: seq<File>, edits: seq<Edit>): seq<File> {
    if edits == [] then base
    else Save(SaveSeq(l, base, edits[..|edits| - 1]), ApplyAt(l, EMPTY_STATE, edits[|edits| - 1]))
  }

  ghost function AddedAt(added: seq<(nat, File)>, l: nat): set<File> {
    set a | a in added && a.0 == l :: a.1
  }

  ghost function Numbers(files: set<File>): set<nat> {
    set f | f in files :: f.number
  }

  ghost predicate DistinctAdds(added: seq<(nat, File)>, l: nat) {
    forall i, j :: 0 <= i < j < |added| && added[i].0 == l && added[j].0 == l ==> added[i].1.number != added[j].1.number
  }

  /** Every file ever listed at the level. */
  ghost function EverAt(l: nat, base: seq<File>, edits: seq<Edit>): set<File> {
    if edits == [] then set f | f in base
    else EverAt(l, base, edits[..|edits| - 1]) + AddedAt(edits[|edits| - 1].added, l)
  }

  /** Each file number is added to the level at most once. */
  ghost predicate AddedOnce(l: nat, base: seq<File>, edits: seq<Edit>) {
    edits == [] ||
    var init, e := edits[..|edits| - 1], edits[|edits| - 1];
    && AddedOnce(l, base, init)
    && DistinctAdds(e.added, l)
    && Numbers(EverAt(l, base, init)) !! Numbers(AddedAt(e.added, l))
  }

  lemma AddedAtGrows(added: seq<(nat, File)>, l: nat)
    requires added != []
    ensures var a := added[|added| - 1];
            AddedAt(added, l) == AddedAt(added[..|added| - 1], l) + if a.0 == l then {a.1} else {}
    ensures var a := added[|added| - 1];
            Numbers(AddedAt(added, l)) == Numbers(AddedAt(added[..|added| - 1], l)) +
              if a.0 == l then {a.1.number} else {}
  {
    var init, a := added[..|added| - 1], added[|added| - 1];
    assert added == init + [a];
    if a.0 == l {
      assert a in added && a.1 in AddedAt(added, l);
    }
  }

  lemma {:induction false} AddAllAdds(l: nat, st: LevelState, added: seq<(nat, File)>)
    requires InOrder(st.added) && DistinctAdds(added, l)
    requires forall f :: f in st.added ==> f.number !in Numbers(AddedAt(added, l))
    ensures var r := AddAll(l, st, added);
            && InOrder(r.added)
            && r.deleted == st.deleted - Numbers(AddedAt(added, l))
            && forall f :: f in r.added <==> f in st.added || f in AddedAt(added, l)
  {
    if added != [] {
      var init := added[..|added| - 1];
      var (level, f) := added[|added| - 1];
      AddedAtGrows(added, l);
      AddAllAdds(l, st, init);
      var s := AddAll(l, st, init);
      if level == l {
        forall g | g in s.added ensures g.number != f.number {
          if g in AddedAt(init, l) {
            var a :| a in init && a.0 == l && a.1 == g;
            var i :| 0 <= i < |init| && init[i] == a;
            assert added[i] == a;
          }
        }
        InsertFileInOrder(s.added, f);
      }
    }
  }

  /** The Builder state after several edits, when no number is added twice. */
  lemma {:induction false} ApplySeqAdds(l: nat, base: seq<File>, edits: seq<Edit>)
    requires InOrder(base) && AddedOnce(l, base, edits)
    ensures var st := ApplySeq(l, EMPTY_STATE, edits);
            && InOrder(st.added)
            && (forall f :: f in base || f in st.added <==> f in EverAt(l, base, edits))
            && NoCommonNumbers(base, st.added)
  {
    if edits != [] {
      var init, e := edits[..|edits| - 1], edits[|edits| - 1];
      ApplySeqAdds(l, base, init);
      var st := ApplySeq(l, EMPTY_STATE, init);
      forall f | f in EverAt(l, base, init) ensures f.number !in Numbers(AddedAt(e.added, l)) {
        assert f.number in Numbers(EverAt(l, base, init));
      }
      AddAllAdds(l, st.(deleted := st.deleted + DeletedAt(e, l)), e.added);
      forall f, g | f in base && g in AddedAt(e.added, l) ensures f.number != g.number {
        assert g.number in Numbers(AddedAt(e.added, l));
      }
    }
  }

  lemma OrderedFilesAreUnique(a: seq<File>, b: seq<File>)
    requires InOrder(a) && InOrder(b) && forall f :: f in a <==> f in b
    ensures a == b
  {
    if a != [] { assert a[0] in b; }
    if b != [] { assert b[0] in a; }
    if a != [] {
      var i :| 0 <= i < |b| && b[i] == a[0];
      var j :| 0 <= j < |a| && a[j] == b[0];
      assert i == 0;
      forall f ensures f in a[1..] <==> f in b[1..] {
        if f in a[1..] { assert f in a; }
        if f in b[1..] { assert f in b; }
      }
      OrderedFilesAreUnique(a[1..], b[1..]);
    }
  }

  /** Replaying a manifest gives the history: applying all edits to one Builder and saving once
      equals saving after each edit, and the result is in order. */
  lemma {:induction false} ReplayIsHistory(l: nat, base: seq<File>, edits: seq<Edit>)
    requires InOrder(base) && AddedOnce(l, base, edits)
    ensures Save(base, ApplySeq(l, EMPTY_STATE, edits)) == SaveSeq(l, base, edits)
    ensures InOrder(SaveSeq(l, base, edits))
    ensures forall f :: f in SaveSeq(l, base, edits) ==> f in EverAt(l, base, edits)
  {
    hide InOrder, NoCommonNumbers, Save, ApplyAt;
    var once := ApplySeq(l, EMPTY_STATE, edits);
    ApplySeqAdds(l, base, edits);
    SaveIsSound(base, once);
    if edits == [] {
      OrderedFilesAreUnique(Save(base, once), base);
    } else {
      var init, e := edits[..|edits| - 1], edits[|edits| - 1];
      assert edits == init + [e];
      ReplayIsHistory(l, base, init);
      ApplySeqAdds(l, base, init);
      SaveIsSound(base, ApplySeq(l, EMPTY_STATE, init));
      LastEditAgrees(l, base, init, e);
      var step := ApplyAt(l, EMPTY_STATE, e);
      SaveIsSound(SaveSeq(l, base, init), step);
      OrderedFilesAreUnique(Save(base, once), SaveSeq(l, base, edits));
    }
  }

  /** The last edit does the same on top of the saved version as on top of the Builder state. */
  lemma LastEditAgrees(l: nat, base: seq<File>, init: seq<Edit>, e: Edit)
    requires InOrder(base) && AddedOnce(l, base, init + [e])
    requires forall f :: f in SaveSeq(l, base, init) ==> f in EverAt(l, base, init)
    requires forall f :: f in SaveSeq(l, base, init) <==>
               f in EverAt(l, base, init) && f.number !in ApplySeq(l, EMPTY_STATE, init).deleted
    ensures var step := ApplyAt(l, EMPTY_STATE, e);
            && InOrder(step.added) && NoCommonNumbers(SaveSeq(l, base, init), step.added)
            && forall f :: f in step.added ==> f in EverAt(l, base, init + [e])
    ensures var step := ApplyAt(l, EMPTY_STATE, e);
            var once := ApplySeq(l, EMPTY_STATE, init + [e]);
            forall f :: f in EverAt(l, base, init + [e]) ==>
              (f.number !in once.deleted <==>
                (f in SaveSeq(l, base, init) || f in step.added) && f.number !in step.deleted)
  {
    var edits := init + [e];
    assert edits[..|edits| - 1] == init && edits[|edits| - 1] == e;
    var st := ApplySeq(l, EMPTY_STATE, init);
    ApplySeqAdds(l, base, init);
    forall f | f in EverAt(l, base, init) ensures f.number !in Numbers(AddedAt(e.added, l)) {
      assert f.number in Numbers(EverAt(l, base, init));
    }
    AddAllAdds(l, st.(deleted := st.deleted + DeletedAt(e, l)), e.added);
    AddAllAdds(l, EMPTY_STATE.(deleted := DeletedAt(e, l)), e.added);
    assert EMPTY_STATE.deleted + DeletedAt(e, l) == DeletedAt(e, l);
    forall f | f in AddedAt(e.added, l) ensures f.number in Numbers(AddedAt(e.added, l)) {}
  }
}
